/** When State Machine Safety's run hypothesis holds: exactly when every counted acknowledgement is true and
    every committed prefix is one that a majority holds. */
module Honesty {

  import opened Numbers
  import opened RaftTypes
  import opened RaftLog
  import opened RaftStep
  import opened Cluster
  import opened ElectionSafety
  import opened Matching
  import opened Ballots
  import opened Retention
  import opened Commitment
  import opened Applying

  lemma TermIsPrefix(els: Elections, log: Log, leader: Log, n: nat)
    requires Anchored(els, log) && Anchored(els, leader)
    ensures Holds(log, leader, n) <==>
      n == 0 || (n <= |log| && n <= |leader| && log[n - 1].term == leader[n - 1].term)
  {
    if 0 < n <= |log| && n <= |leader| {
      if log[n - 1].term == leader[n - 1].term {
        AnchoredMatch(els, log, leader, n - 1);
      } else {
        assert log[..n][n - 1] == log[n - 1] && leader[..n][n - 1] == leader[n - 1];
      }
    }
  }

  // What a success reports and commits.
  lemma SuccessFields(s: NodeState, m: Message)
    requires m.AppendEntries? && s.snapIndex == 0 && HandleAppendEntries(s, m).sent[0].success
    requires WellIndexed(HandleAppendEntries(s, m).node.log, 0)
    ensures var o := HandleAppendEntries(s, m);
      && |o.sent| == 1 && o.sent[0].AppendReply?
      && o.sent[0].matchIndex == |o.node.log| && o.sent[0].term == s.term <= m.term == o.node.term
      && (o.node.commitIndex > s.commitIndex ==> o.node.commitIndex <= |o.node.log|)
      && o.node.commitIndex == (if m.leaderCommit > s.commitIndex then Min(m.leaderCommit, |o.node.log|) else s.commitIndex)
      && Consistent(Recognise(s, m), m) && o.node.log == AppendAll(s.log, 0, m.entries)
      && Recognise(s, m).log == s.log && Recognise(s, m).term == m.term
      && Recognise(s, m).snapIndex == 0 && Recognise(s, m).snapTerm == s.snapTerm
  {
    hide AppendAll, Consistent;
    LastIsEnd(HandleAppendEntries(s, m).node.log, 0);
  }

  lemma AfterSuccess(c: State, m: Message)
    requires ElectionInv(c) && LogInv(c) && m in c.msgs && Succeeds(c, DoDeliver(m))
    ensures NodeLogOk(c.elections, HandleAppendEntries(c.nodes[m.dst], m).node)
    ensures Anchored(c.elections, c.elections[m.term].log)
    ensures c.nodes[m.dst].snapIndex == 0 == c.nodes[m.dst].snapTerm
  {
    hide ElectionInv, LogInv, HandleAppendEntries, Anchored;
    AppendEntriesLog(c, m);
    NodeLogFacts(ApplyAppendEntries(c, m), m.dst);
    OneLeaderLog(c, m.term);
    OneNode(c, m.dst);
  }

  // The log after a success: the old one, or the leader's up to the end of the batch.
  lemma SuccessLog(c: State, m: Message)
    requires ElectionInv(c) && LogInv(c) && m in c.msgs && Succeeds(c, DoDeliver(m))
    ensures var s, r := c.nodes[m.dst], HandleAppendEntries(c.nodes[m.dst], m).node.log;
      || (m.prevLogIndex > |s.log| && r == s.log)
      || Replaced(s.log, r, c.elections[m.term].log, m)
  {
    hide ElectionInv, LeaderLogsOk, HandleAppendEntries, SliceOf, LeadersCurrent, Anchored, AppendAll, Replaced, Recognise, Consistent;
    var s := c.nodes[m.dst];
    AfterSuccess(c, m);
    SuccessFields(s, m);
    NodeLogFacts(c, m.dst);
    Accepted(c.elections, Recognise(s, m), m);
  }

  /** Sharing a prefix with the leader is sharing the term at its end: for every success of every run, at any
      index, so at the one it reports and at the one it commits. */
  lemma SharedIff(states: seq<State>, actions: seq<Action>, k: nat, n: nat)
    requires IsRun(states, actions) && k < |actions| && Succeeds(states[k], actions[k])
    ensures var m := actions[k].msg;
      var log, leader := HandleAppendEntries(states[k].nodes[m.dst], m).node.log, states[k].elections[m.term].log;
      Holds(log, leader, n) <==>
        n == 0 || (n <= |log| && n <= |leader| && log[n - 1].term == leader[n - 1].term)
  {
    hide ElectionInv, LogInv, Apply, HandleAppendEntries, Anchored;
    var c, m := states[k], actions[k].msg;
    RunLog(states, actions, k);
    AfterSuccess(c, m);
    TermIsPrefix(c.elections, HandleAppendEntries(c.nodes[m.dst], m).node.log, c.elections[m.term].log, n);
  }

  // The request conflicts with the log, or has entries the log has not: the log will end where the request ends.
  predicate Overwrites(log: Log, m: Message)
    requires m.AppendEntries?
  {
    m.prevLogIndex <= |log| && Agreement(log, m.prevLogIndex, m.entries) < |m.entries|
  }

  // The first n entries of both logs end in the same term.
  predicate SameTermAt(log: Log, leader: Log, n: nat) {
    n == 0 || (n <= |log| && n <= |leader| && log[n - 1].term == leader[n - 1].term)
  }

  // The log after a success, from the request and the log before.
  lemma LogAfter(c: State, m: Message)
    requires ElectionInv(c) && LogInv(c) && m in c.msgs && Succeeds(c, DoDeliver(m))
    ensures var s, r, leader := c.nodes[m.dst], HandleAppendEntries(c.nodes[m.dst], m).node.log, c.elections[m.term].log;
      var end := m.prevLogIndex + |m.entries|;
      if Overwrites(s.log, m) then end <= |leader| && r == leader[..end] else r == s.log
  {
    hide ElectionInv, LogInv, HandleAppendEntries, Agreement;
    SuccessLog(c, m);
    var s, r, leader := c.nodes[m.dst], HandleAppendEntries(c.nodes[m.dst], m).node.log, c.elections[m.term].log;
    if Overwrites(s.log, m) {
      var end := m.prevLogIndex + |m.entries|;
      assert |r| == end;
      assert r[..end] == r;
    }
  }

  lemma AnchoredLogs(c: State, m: Message)
    requires ElectionInv(c) && LogInv(c) && m in c.msgs && Succeeds(c, DoDeliver(m))
    ensures Anchored(c.elections, c.nodes[m.dst].log) && Anchored(c.elections, c.elections[m.term].log)
  {
    hide ElectionInv, LogInv, Anchored, HandleAppendEntries;
    AfterSuccess(c, m);
    NodeLogFacts(c, m.dst);
  }

  lemma ReportIff(c: State, m: Message)
    requires ElectionInv(c) && LogInv(c) && m in c.msgs && Succeeds(c, DoDeliver(m))
    ensures var s, leader := c.nodes[m.dst], c.elections[m.term].log;
      HonestReport(c, DoDeliver(m)) <==>
        m.term > s.term || Overwrites(s.log, m) || SameTermAt(s.log, leader, |s.log|)
  {
    hide ElectionInv, LogInv, HandleAppendEntries, Anchored, AppendAll, Consistent, Recognise, Overwrites;
    var s, leader := c.nodes[m.dst], c.elections[m.term].log;
    AfterSuccess(c, m);
    SuccessFields(s, m);
    LogAfter(c, m);
    AnchoredLogs(c, m);
    TermIsPrefix(c.elections, s.log, leader, |s.log|);
  }

  lemma CommitIff(c: State, m: Message)
    requires ElectionInv(c) && LogInv(c) && m in c.msgs && Succeeds(c, DoDeliver(m))
    ensures var s, leader := c.nodes[m.dst], c.elections[m.term].log;
      var n := Min(m.leaderCommit, |s.log|);
      HonestCommit(c, DoDeliver(m)) <==>
        n <= s.commitIndex || Overwrites(s.log, m) || SameTermAt(s.log, leader, n)
  {
    hide ElectionInv, LogInv, HandleAppendEntries, Anchored, AppendAll, Consistent, Recognise, Overwrites;
    var s, leader := c.nodes[m.dst], c.elections[m.term].log;
    var n := Min(m.leaderCommit, |s.log|);
    AfterSuccess(c, m);
    SuccessFields(s, m);
    LogAfter(c, m);
    AnchoredLogs(c, m);
    TermIsPrefix(c.elections, s.log, leader, n);
  }

  /** Honesty of a success, from what is known before the call: the answer will not count, or the request overwrites,
      or the logs end in the same term where the follower's ends; and the commit index will not rise, or the request
      overwrites, or the terms agree at the new commit index. */
  lemma HonestGuards(states: seq<State>, actions: seq<Action>, k: nat)
    requires IsRun(states, actions) && k < |actions| && Succeeds(states[k], actions[k])
    ensures var m := actions[k].msg;
      var s, leader := states[k].nodes[m.dst], states[k].elections[m.term].log;
      var n := Min(m.leaderCommit, |s.log|);
      && (HonestReport(states[k], actions[k]) <==>
          m.term > s.term || Overwrites(s.log, m) || SameTermAt(s.log, leader, |s.log|))
      && (HonestCommit(states[k], actions[k]) <==>
          n <= s.commitIndex || Overwrites(s.log, m) || SameTermAt(s.log, leader, n))
  {
    hide ElectionInv, LogInv, Apply, HandleAppendEntries, HonestReport, HonestCommit, Overwrites, SameTermAt;
    RunLog(states, actions, k);
    ReportIff(states[k], actions[k].msg);
    CommitIff(states[k], actions[k].msg);
  }

  /** A follower that has only entries of this leader answers honestly, however late, short or often repeated
      the request is. */
  lemma LateIsHonest(c: State, m: Message)
    requires ElectionInv(c) && LogInv(c) && m in c.msgs && Succeeds(c, DoDeliver(m))
    requires c.nodes[m.dst].log <= c.elections[m.term].log
    ensures Honest(c, DoDeliver(m))
  {
    hide ElectionInv, LogInv, HandleAppendEntries, Anchored, AppendAll, Splice, Consistent, Recognise;
    AfterSuccess(c, m);
    SuccessFields(c.nodes[m.dst], m);
    SuccessLog(c, m);
    assert HandleAppendEntries(c.nodes[m.dst], m).node.log <= c.elections[m.term].log;
  }

  // A message about its leader's log has its anchor in every log that passes the check.
  lemma AnchorPresent(els: Elections, s: NodeState, m: Message)
    requires LeaderLogsOk(els) && NodeLogOk(els, s) && s.snapIndex == 0 && s.snapTerm == 0
    requires m.AppendEntries? && InsideLeader(els, m) && Consistent(s, m)
    ensures m.prevLogIndex <= |s.log|
  {
    hide Anchored;
    assert LeaderLogOk(els, m.term, els[m.term]);
    AnchoredSorted(els, els[m.term].log);
  }

  /** So does one whose log ends where the request ends, given that the request is about the leader's log. */
  lemma TightIsHonest(c: State, m: Message)
    requires SafeInv(c) && RetentionInv(c) && m in c.msgs && m.AppendEntries? && Tight(c, DoDeliver(m))
    ensures Honest(c, DoDeliver(m))
  {
    hide ElectionInv, LogInv, BallotInv, HandleAppendEntries, Anchored, AppendAll, Splice, Consistent, LeaderLogsOk,
      Recognise, InsideLeader, NodesKeep, VotersKept, AcksOk, LeadersProgress;
    if Succeeds(c, DoDeliver(m)) {
      var s, r := c.nodes[m.dst], HandleAppendEntries(c.nodes[m.dst], m).node.log;
      AfterSuccess(c, m);
      SuccessFields(s, m);
      SuccessLog(c, m);
      NodeLogFacts(c, m.dst);
      AnchorPresent(c.elections, Recognise(s, m), m);
      assert r == r[..|r|];
    }
  }

  // Whole runs

  ghost predicate HonestBefore(states: seq<State>, actions: seq<Action>, k: nat)
    requires IsRun(states, actions) && k <= |actions|
  {
    forall j :: 0 <= j < k ==> Honest(states[j], actions[j])
  }

  // A run that has been honest so far has all the invariants.
  lemma HonestSoFar(states: seq<State>, actions: seq<Action>, k: nat)
    requires IsRun(states, actions) && k <= |actions| && HonestBefore(states, actions, k)
    ensures SafeInv(states[k]) && RetentionInv(states[k]) && CommitInv(states[k])
  {
    hide ElectionInv, LogInv, RetentionInv, CommitInv, SafeInv, Init, Honest, Enabled, Apply;
    RunCommit(states[..k + 1], actions[..k], k);
  }

  /** Every run of tight successes is honest. */
  lemma {:induction false} TightRunIsHonest(states: seq<State>, actions: seq<Action>, k: nat)
    requires IsRun(states, actions) && k <= |actions|
    requires forall j :: 0 <= j < k ==> Tight(states[j], actions[j])
    ensures HonestBefore(states, actions, k)
  {
    hide ElectionInv, LogInv, RetentionInv, CommitInv, SafeInv, Init, Apply, HandleAppendEntries;
    if k > 0 {
      TightRunIsHonest(states, actions, k - 1);
      HonestSoFar(states, actions, k - 1);
      var a := actions[k - 1];
      if a.DoDeliver? && a.msg.AppendEntries? {
        TightIsHonest(states[k - 1], a.msg);
      }
    }
  }

  /** Every counted acknowledgement is true of its node, while that node's term lasts, and everything committed
      anywhere is the beginning of a log that a majority has acknowledged. */
  ghost predicate Faithful(c: State) {
    && AcksOk(c.nodes, c.elections, c.acks)
    && forall i :: i in c.nodes ==>
      c.nodes[i].commitIndex <= |c.nodes[i].log|
      && CommittedPrefix(c, c.nodes[i].log[..c.nodes[i].commitIndex], c.nodes[i].term)
  }

  lemma CommitInvFaithful(c: State)
    requires RetentionInv(c) && CommitInv(c)
    ensures Faithful(c)
  {
    hide NodesKeep, VotersKept, AcksOk, LeadersProgress, TrafficOk, CommittedPrefix;
    forall i | i in c.nodes ensures NodeCommitOk(c, c.nodes[i]) { }
  }

  lemma FaithfulReport(c: State, m: Message)
    requires ElectionInv(c) && LogInv(c) && m in c.msgs && Succeeds(c, DoDeliver(m))
    requires AcksOk(ApplyAppendEntries(c, m).nodes, c.elections, ApplyAppendEntries(c, m).acks)
    ensures HonestReport(c, DoDeliver(m))
  {
    hide ElectionInv, LogInv, HandleAppendEntries, Anchored, AppendAll, Consistent, Recognise, Holds;
    AfterSuccess(c, m);
    SuccessFields(c.nodes[m.dst], m);
    var o, d := HandleAppendEntries(c.nodes[m.dst], m), ApplyAppendEntries(c, m);
    if o.sent[0].term == m.term {
      assert AckOk(d.nodes, c.elections, Ack(m.dst, m.term, o.sent[0].matchIndex));
    }
  }

  lemma FaithfulCommit(c: State, d: State, m: Message)
    requires ElectionInv(c) && LogInv(c) && m in c.msgs && Succeeds(c, DoDeliver(m))
    requires d == ApplyAppendEntries(c, m) && SafeInv(d) && RetentionInv(d) && Faithful(d)
    ensures HonestCommit(c, DoDeliver(m))
  {
    hide ElectionInv, LogInv, SafeInv, RetentionInv, HandleAppendEntries, Anchored, AppendAll, Consistent, Recognise,
      CommittedPrefix, AcksOk;
    AfterSuccess(c, m);
    SuccessFields(c.nodes[m.dst], m);
    var u := HandleAppendEntries(c.nodes[m.dst], m).node;
    assert d.nodes[m.dst] == u && d.elections == c.elections;
    LeaderHasPrefix(d, u.log[..u.commitIndex], u.term, m.term);
  }

  lemma FaithfulStep(c: State, a: Action)
    requires SafeInv(c) && RetentionInv(c) && Enabled(c, a) && Faithful(Apply(c, a))
    ensures Honest(c, a)
  {
    hide ElectionInv, LogInv, RetentionInv, HandleAppendEntries, CommittedPrefix, HonestReport, HonestCommit,
      AcksOk, BallotInv;
    if Succeeds(c, a) {
      FaithfulReport(c, a.msg);
      StepElection(c, a);
      StepLog(c, a);
      StepBallot(c, a);
      StepRetention(c, a);
      FaithfulCommit(c, Apply(c, a), a.msg);
    } else {
      NothingToReport(c, a);
    }
  }

  lemma NothingToReport(c: State, a: Action)
    requires !Succeeds(c, a)
    ensures Honest(c, a)
  {
    hide Succeeds;
  }

  lemma {:induction false} FaithfulIsHonest(states: seq<State>, actions: seq<Action>, k: nat)
    requires IsRun(states, actions) && k <= |actions|
    requires forall j :: 0 <= j <= k ==> Faithful(states[j])
    ensures HonestBefore(states, actions, k)
  {
    hide ElectionInv, LogInv, RetentionInv, CommitInv, SafeInv, Init, Apply, Honest, Faithful, Enabled;
    if k > 0 {
      FaithfulIsHonest(states, actions, k - 1);
      HonestSoFar(states, actions, k - 1);
      assert states[(k - 1) + 1] == Apply(states[k - 1], actions[k - 1]);
      FaithfulStep(states[k - 1], actions[k - 1]);
    }
  }

  /** The hypothesis is exact: a run is honest if and only if all its states are faithful. */
  lemma HonestyTheorem(states: seq<State>, actions: seq<Action>)
    requires IsRun(states, actions)
    ensures IsHonestRun(states, actions) <==> forall k :: 0 <= k < |states| ==> Faithful(states[k])
  {
    hide ElectionInv, LogInv, RetentionInv, CommitInv, SafeInv, Init, Apply, Honest, Faithful, Enabled;
    if IsHonestRun(states, actions) {
      forall k | 0 <= k < |states| ensures Faithful(states[k]) {
        RunCommit(states, actions, k);
        CommitInvFaithful(states[k]);
      }
    } else if forall k :: 0 <= k < |states| ==> Faithful(states[k]) {
      FaithfulIsHonest(states, actions, |actions|);
      assert false;
    }
  }

  // Applying, in a cluster

  lemma PassesSucceeds(s: NodeState, m: Message)
    requires m.AppendEntries? && Passes(s, m)
    ensures HandleAppendEntries(s, m).sent[0].success
  {
    hide Consistent, AppendAll;
  }

  // The new log still has what was committed, because the leader has it too.
  lemma CommittedStays(c: State, m: Message)
    requires SafeInv(c) && RetentionInv(c) && CommitInv(c) && m in c.msgs && Succeeds(c, DoDeliver(m))
    ensures KeepsCommitted(c.nodes[m.dst], HandleAppendEntries(c.nodes[m.dst], m).node.log)
  {
    hide ElectionInv, LogInv, SafeInv, RetentionInv, CommitInv, HandleAppendEntries, Anchored, Consistent, Recognise,
      CommittedPrefix, Payloads, Splice, AppendAll;
    var s, r, leader := c.nodes[m.dst], HandleAppendEntries(c.nodes[m.dst], m).node.log, c.elections[m.term].log;
    assert ElectionInv(c) && LogInv(c) by { SafeParts(c); }
    AfterSuccess(c, m);
    SuccessFields(s, m);
    SuccessLog(c, m);
    OneCommit(c, m.dst);
    LeaderHasPrefix(c, s.log[..s.commitIndex], s.term, m.term);
    if Replaced(s.log, r, leader, m) {
      SpliceKeepsShared(s.log, leader, m.prevLogIndex, |m.entries|, s.commitIndex);
    }
  }

  lemma SafeParts(c: State)
    requires SafeInv(c)
    ensures ElectionInv(c) && LogInv(c)
  {
  }

  /** In every honest run, every message a node is handed is as the apply theorem wants it. */
  lemma AllowedTheorem(states: seq<State>, actions: seq<Action>, k: nat, m: Message)
    requires IsHonestRun(states, actions) && k < |actions| && actions[k] == DoDeliver(m)
    ensures Cut(states[k].nodes[m.dst], CallMessage(m)) && Allowed(states[k].nodes[m.dst], CallMessage(m))
  {
    hide ElectionInv, LogInv, RetentionInv, CommitInv, Apply, Init, HandleAppendEntries, Passes, Honest, WellCut,
      Reaches, SparesCommitted, AppendAll, BallotInv, KeepsCommitted;
    var c, s := states[k], states[k].nodes[m.dst];
    RunCommit(states, actions, k);
    if m.AppendEntries? && Passes(s, m) {
      PassesSucceeds(s, m);
      OneMsg(c, m);
      OneNode(c, m.dst);
      OneCommit(c, m.dst);
      NodeLogFacts(c, m.dst);
      MessageCut(c, m);
      CommittedStays(c, m);
      HandlerLog(s, m);
      AcceptIff(s, m);
    }
  }

  lemma MessageCut(c: State, m: Message)
    requires LogInv(c) && m in c.msgs && m.AppendEntries? && m.term in c.elections
    ensures WellCut(m)
  {
    hide LeadersCurrent, NodeLogsOk, Anchored, Sorted;
    OneLeaderLog(c, m.term);
    assert SliceOf(c.elections, m);
  }
}
