/** Log Matching and Leader Append-Only, in every run.
    The key invariant: every prefix of every log that ends in an entry of term t is a prefix of
    the log that the leader of t has had. */
module Matching {

  import opened RaftTypes
  import opened RaftLog
  import opened RaftStep
  import opened Cluster
  import opened ElectionSafety

  ghost predicate Anchored(els: Elections, log: Log) {
    forall k :: 0 <= k < |log| ==> log[k].term in els && log[..k + 1] <= els[log[k].term].log
  }

  ghost predicate Sorted(log: Log) {
    forall j, k :: 0 <= j <= k < |log| ==> log[j].term <= log[k].term
  }

  // The log of a term's leader: older entries, then at least the no-op of its own term.
  ghost predicate LeaderLogOk(els: Elections, t: nat, e: Election) {
    && t > 0 && e.base < |e.log|
    && WellIndexed(e.log, 0) && Anchored(els, e.log) && Sorted(e.log)
    && (forall k :: 0 <= k < e.base ==> e.log[k].term < t)
    && (forall k :: e.base <= k < |e.log| ==> e.log[k].term == t)
  }

  ghost predicate LeaderLogsOk(els: Elections) {
    forall t :: t in els ==> LeaderLogOk(els, t, els[t])
  }

  ghost predicate NodeLogOk(els: Elections, s: NodeState) {
    && WellIndexed(s.log, 0) && Anchored(els, s.log)
    && forall k :: 0 <= k < |s.log| ==> s.log[k].term <= s.term
  }

  ghost predicate NodeLogsOk(nodes: Nodes, els: Elections) {
    forall i :: i in nodes ==> NodeLogOk(els, nodes[i])
  }

  // Until its next term, an elected node has exactly the log recorded for it.
  ghost predicate LeadersCurrent(nodes: Nodes, els: Elections) {
    forall t :: t in els && els[t].leader in nodes && nodes[els[t].leader].term == t ==>
      nodes[els[t].leader].log == els[t].log
  }

  // AppendEntries carries a slice of its leader's log, or nothing from beyond that log's end.
  ghost predicate SliceOf(els: Elections, m: Message)
    requires m.AppendEntries?
  {
    m.term in els
    && var leader := els[m.term].log;
       || (m.entries == [] && m.prevLogIndex > 0 && m.prevLogTerm == 0)
       || (m.prevLogIndex + |m.entries| <= |leader|
           && m.prevLogTerm == TermAt(leader, 0, 0, m.prevLogIndex)
           && m.entries == leader[m.prevLogIndex..m.prevLogIndex + |m.entries|])
  }

  ghost predicate SlicesOk(els: Elections, msgs: set<Message>) {
    forall m :: m in msgs && m.AppendEntries? ==> SliceOf(els, m)
  }

  ghost predicate LogInv(c: State) {
    && LeaderLogsOk(c.elections) && NodeLogsOk(c.nodes, c.elections)
    && LeadersCurrent(c.nodes, c.elections) && SlicesOk(c.elections, c.msgs)
  }

  // Histories only grow.
  ghost predicate ElectionsGrow(els: Elections, els': Elections) {
    forall t :: t in els ==>
      && t in els' && els'[t].leader == els[t].leader && els'[t].quorum == els[t].quorum
      && els'[t].base == els[t].base && els[t].log <= els'[t].log
  }

  lemma AnchoredGrows(els: Elections, els': Elections, log: Log)
    requires ElectionsGrow(els, els') && Anchored(els, log)
    ensures Anchored(els', log)
  {
  }

  lemma AnchoredPrefix(els: Elections, log: Log, n: nat)
    requires Anchored(els, log) && n <= |log|
    ensures Anchored(els, log[..n])
  {
    forall k | 0 <= k < n
      ensures log[..n][k].term in els && log[..n][..k + 1] <= els[log[..n][k].term].log
    {
      assert log[..n][..k + 1] == log[..k + 1];
    }
  }

  /** Log Matching for two anchored logs. */
  lemma AnchoredMatch(els: Elections, a: Log, b: Log, k: nat)
    requires Anchored(els, a) && Anchored(els, b)
    requires k < |a| && k < |b| && a[k].term == b[k].term
    ensures a[..k + 1] == b[..k + 1]
  {
    var leader := els[a[k].term].log;
    assert a[..k + 1] == leader[..k + 1] == b[..k + 1];
  }

  lemma AnchoredSorted(els: Elections, log: Log)
    requires LeaderLogsOk(els) && Anchored(els, log)
    ensures Sorted(log)
    ensures forall k :: 0 <= k < |log| ==> log[k].term > 0
  {
    if log != [] {
      var n := |log| - 1;
      assert log[..n + 1] == log;
      assert LeaderLogOk(els, log[n].term, els[log[n].term]);
    }
  }

  lemma InitLog(c: State)
    requires Init(c)
    ensures LogInv(c)
  {
  }

  /** A node keeps its log while its term may rise. */
  lemma SameLog(c: State, i: NodeId, s: NodeState)
    requires ElectionInv(c) && LogInv(c) && i in c.nodes
    requires s.log == c.nodes[i].log && s.term >= c.nodes[i].term
    ensures LogInv(SetNode(c, i, s))
  {
    hide Anchored;
    forall t | t in c.elections && c.elections[t].leader == i && s.term == t ensures s.log == c.elections[t].log {
      ElectionFacts(c, t);
    }
    assert NodeLogOk(c.elections, c.nodes[i]);
  }

  lemma SendLog(c: State, out: seq<Message>)
    requires LogInv(c)
    requires forall m :: m in out && m.AppendEntries? ==> SliceOf(c.elections, m)
    ensures LogInv(Send(c, out))
  {
    hide LeaderLogsOk, NodeLogsOk, LeadersCurrent, SliceOf;
  }

  lemma SpliceAnchored(els: Elections, log: Log, leader: Log, at: nat, n: nat)
    requires Anchored(els, log) && Anchored(els, leader) && WellIndexed(leader, 0)
    requires at <= |log| && at + n <= |leader|
    requires at > 0 ==> log[at - 1].term == leader[at - 1].term
    ensures var r := AppendAll(log, 0, leader[at..at + n]);
            && r == Splice(log, at, leader[at..at + n]) && at + n <= |r|
            && r[..at + n] == leader[..at + n] && (r == log || r == leader[..at + n])
  {
    hide Splice, AppendAll, Agreement, Anchored;
    if at > 0 { AnchoredMatch(els, log, leader, at - 1); }
    AppendAllIsSplice(log, 0, at, leader[at..at + n]);
    forall j | at <= j < at + n && j < |log| && log[j].term == leader[j].term
      ensures log[..j + 1] == leader[..j + 1]
    {
      AnchoredMatch(els, log, leader, j);
    }
    SpliceOutcome(log, leader, at, n);
  }

  // The log after a successful AppendEntries, when the anchor is inside the old log.
  ghost predicate Replaced(log: Log, r: Log, leader: Log, m: Message)
    requires m.AppendEntries?
  {
    var end := m.prevLogIndex + |m.entries|;
    && m.prevLogIndex <= |log| && end <= |leader| && end <= |r|
    && r[..end] == leader[..end] && (r == log || r == leader[..end])
    && r == Splice(log, m.prevLogIndex, m.entries) && m.entries == leader[m.prevLogIndex..end]
  }

  /** What the consistency check lets through: the batch continues a shared prefix, so the new log
      is the old one or exactly the leader's up to the end of the batch.  With no entry at the
      anchor the check can pass only for an empty batch. */
  lemma Accepted(els: Elections, s: NodeState, m: Message)
    requires LeaderLogsOk(els) && NodeLogOk(els, s) && s.snapIndex == 0 && s.snapTerm == 0
    requires m.AppendEntries? && SliceOf(els, m) && Consistent(s, m)
    ensures var r := AppendAll(s.log, 0, m.entries);
            || (m.prevLogIndex > |s.log| && m.entries == [] && r == s.log)
            || Replaced(s.log, r, els[m.term].log, m)
  {
    hide Splice, AppendAll, AppendOne, Anchored, WellIndexed, Sorted;
    var log, leader, at, n := s.log, els[m.term].log, m.prevLogIndex, |m.entries|;
    assert LeaderLogOk(els, m.term, els[m.term]);
    AnchoredSorted(els, leader);
    AnchoredSorted(els, log);
    if at <= |log| {
      SpliceAnchored(els, log, leader, at, n);
    } else {
      AppendNothing(log, 0);
    }
  }

  lemma ReplacedOk(els: Elections, s: NodeState, u: NodeState, m: Message)
    requires LeaderLogsOk(els) && NodeLogOk(els, s) && u.term == s.term == m.term
    requires m.AppendEntries? && m.term in els && Replaced(s.log, u.log, els[m.term].log, m)
    ensures NodeLogOk(els, u)
  {
    hide Splice;
    var e := els[m.term];
    assert LeaderLogOk(els, m.term, e);
    AnchoredPrefix(els, e.log, m.prevLogIndex + |m.entries|);
  }

  lemma AcceptLog(c: State, i: NodeId, m: Message, u: NodeState)
    requires ElectionInv(c) && LogInv(c) && i in c.nodes && m in c.msgs && m.AppendEntries? && m.dst == i
    requires c.nodes[i].term == m.term == u.term && Consistent(c.nodes[i], m)
    requires u.log == AppendAll(c.nodes[i].log, 0, m.entries)
    ensures LogInv(SetNode(c, i, u))
  {
    hide Replaced, AppendAll, Consistent, LeaderLogsOk, Anchored, HasVote, HasVoteFrom;
    var s := c.nodes[i];
    OneNode(c, i);
    OneMsg(c, m);
    assert NodeLogOk(c.elections, s);
    Accepted(c.elections, s, m);
    if Replaced(s.log, u.log, c.elections[m.term].log, m) { ReplacedOk(c.elections, s, u, m); }
    assert NodeLogOk(c.elections, u);
  }

  lemma GrowsOk(els: Elections, els': Elections, nodes: Nodes, msgs: set<Message>)
    requires ElectionsGrow(els, els') && NodeLogsOk(nodes, els) && SlicesOk(els, msgs)
    ensures NodeLogsOk(nodes, els') && SlicesOk(els', msgs)
  {
    forall i | i in nodes ensures NodeLogOk(els', nodes[i]) {
      assert NodeLogOk(els, nodes[i]);
      AnchoredGrows(els, els', nodes[i].log);
    }
    forall m | m in msgs && m.AppendEntries? ensures SliceOf(els', m) {
      assert SliceOf(els, m);
    }
  }

  lemma LeaderLogsGrow(els: Elections, els': Elections, t: nat)
    requires ElectionsGrow(els, els') && LeaderLogsOk(els)
    requires forall u :: u in els' && u != t ==> u in els && els'[u] == els[u]
    requires t in els' ==> LeaderLogOk(els', t, els'[t])
    ensures LeaderLogsOk(els')
  {
    forall u | u in els' && u != t ensures LeaderLogOk(els', u, els'[u]) {
      assert LeaderLogOk(els, u, els[u]);
      AnchoredGrows(els, els', els[u].log);
    }
  }

  lemma AnchoredAppend(els: Elections, log: Log, e: LogEntry)
    requires Anchored(els, log) && e.term in els && els[e.term].log == log + [e]
    ensures Anchored(els, log + [e])
  {
    var r := log + [e];
    forall k | 0 <= k < |r| ensures r[k].term in els && r[..k + 1] <= els[r[k].term].log {
      if k < |log| {
        assert r[..k + 1] == log[..k + 1];
        assert log[k].term in els;
      } else {
        assert r[..k + 1] == r;
      }
    }
  }

  /** A leader appends to its log: the only log that grows by a new entry. */
  lemma SubmitLog(c: State, i: NodeId, data: Payload)
    requires ElectionInv(c) && LogInv(c) && i in c.nodes
    ensures LogInv(ApplySubmit(c, i, data))
    ensures ElectionsGrow(c.elections, ApplySubmit(c, i, data).elections)
  {
    hide ElectionInv, Anchored, LeaderLogsOk, NodeLogsOk, SlicesOk, WellIndexed;
    var s := c.nodes[i];
    if s.role == Leader {
      var t := Append(s, data);
      var e := t.log[|s.log|];
      LeaderFacts(c, i);
      LastIsEnd(s.log, 0);
      OneLeaderLog(c, s.term);
      assert ElectionsOk(c.nodes, c.elections, c.votes) by { ElectionParts(c); }
      var els := c.elections[s.term := c.elections[s.term].(log := t.log)];
      assert ElectionsGrow(c.elections, els);
      AppendedOk(c.elections, els, s.term, e);
      LeaderLogsGrow(c.elections, els, s.term);
      GrowsOk(c.elections, els, c.nodes, c.msgs);
      GrownInv(c, i, t, els);
    }
  }

  lemma ElectionParts(c: State)
    requires ElectionInv(c)
    ensures ElectionsOk(c.nodes, c.elections, c.votes)
  {
  }

  lemma OneLeaderLog(c: State, t: nat)
    requires LogInv(c) && t in c.elections
    ensures LeaderLogOk(c.elections, t, c.elections[t])
  {
  }

  lemma LeaderFacts(c: State, i: NodeId)
    requires ElectionInv(c) && LogInv(c) && i in c.nodes && c.nodes[i].role == Leader
    ensures c.nodes[i].term in c.elections && c.elections[c.nodes[i].term].leader == i
    ensures c.elections[c.nodes[i].term].log == c.nodes[i].log && NodeLogOk(c.elections, c.nodes[i])
    ensures c.nodes[i].snapIndex == 0 == c.nodes[i].snapTerm
  {
    OneNode(c, i);
  }

  lemma AppendedOk(els: Elections, els': Elections, t: nat, e: LogEntry)
    requires ElectionsGrow(els, els') && t in els && LeaderLogOk(els, t, els[t])
    requires e.term == t && e.index == |els[t].log| + 1
    requires els'[t] == els[t].(log := els[t].log + [e])
    ensures LeaderLogOk(els', t, els'[t])
  {
    AnchoredGrows(els, els', els[t].log);
    AnchoredAppend(els', els[t].log, e);
  }

  /** The node at the head of the new leader log takes it over. */
  lemma GrownInv(c: State, i: NodeId, t: NodeState, els: Elections)
    requires ElectionsOk(c.nodes, c.elections, c.votes) && LeadersCurrent(c.nodes, c.elections) && i in c.nodes
    requires ElectionsGrow(c.elections, els) && LeaderLogsOk(els)
    requires NodeLogsOk(c.nodes, els) && SlicesOk(els, c.msgs)
    requires t.term in els && els[t.term].leader == i && els[t.term].log == t.log && t.term == c.nodes[i].term
    requires forall u :: u in els && u != t.term ==> u in c.elections && els[u] == c.elections[u]
    ensures LogInv(SetNode(c, i, t).(elections := els))
  {
    hide Anchored, SliceOf, HasVote;
    assert LeaderLogOk(els, t.term, els[t.term]);
    var d := SetNode(c, i, t).(elections := els);
    forall u | u in els && els[u].leader in d.nodes && d.nodes[els[u].leader].term == u
      ensures d.nodes[els[u].leader].log == els[u].log
    {
      assert u != t.term ==> els[u].leader != i;
    }
    assert NodeLogOk(els, t);
  }

  /** A candidate becomes the leader of a term nobody has led. */
  lemma ElectLog(c: State, i: NodeId, t: NodeState, base: nat)
    requires ElectionInv(c) && LogInv(c) && i in c.nodes
    requires t.term == c.nodes[i].term && t.term !in c.elections && t.term > 0 && base == |c.nodes[i].log|
    requires t.log == c.nodes[i].log + [LogEntry(t.term, base + 1, 0, NOOP)]
    ensures LogInv(Elect(c, i, t, base))
    ensures ElectionsGrow(c.elections, Elect(c, i, t, base).elections)
  {
    hide NodesOk, VotesOk, ElectionsOk, MsgsOk, CandidatesOk, Anchored, WellIndexed, Sorted, SliceOf, LeadersCurrent;
    var s, e := c.nodes[i], LogEntry(t.term, base + 1, 0, NOOP);
    var els := c.elections[t.term := Election(i, Voters(i, t), base, t.log)];
    assert ElectionsGrow(c.elections, els);
    assert NodeLogOk(c.elections, s);
    FirstLogOk(c.elections, els, s, e);
    LeaderLogsGrow(c.elections, els, t.term);
    GrowsOk(c.elections, els, c.nodes, c.msgs);
    GrownInv(c, i, t, els);
  }

  lemma FirstLogOk(els: Elections, els': Elections, s: NodeState, e: LogEntry)
    requires ElectionsGrow(els, els') && LeaderLogsOk(els) && NodeLogOk(els, s) && s.term !in els && s.term > 0
    requires s.term in els' && els'[s.term].base == |s.log| && els'[s.term].log == s.log + [e]
    requires e.term == s.term && e.index == |s.log| + 1
    ensures LeaderLogOk(els', s.term, els'[s.term])
  {
    AnchoredSorted(els, s.log);
    assert forall k :: 0 <= k < |s.log| ==> s.log[k].term < s.term;
    assert Anchored(els', s.log + [e]) by {
      AnchoredGrows(els, els', s.log);
      AnchoredAppend(els', s.log, e);
    }
    hide Anchored, LeaderLogsOk, ElectionsGrow;
  }

  // Every action keeps the invariant, and recorded elections only ever extend their log.

  lemma SliceLog(c: State, i: NodeId, p: Peer, count: nat)
    requires ElectionInv(c) && LogInv(c) && i in c.nodes && c.nodes[i].role == Leader
    requires p.nextIndex > 0 && CanSlice(c.nodes[i], p, count)
    ensures SliceOf(c.elections, Slice(c.nodes[i], p, count))
  {
    hide ElectionInv, LogInv;
    LeaderFacts(c, i);
  }

  lemma HeartbeatLog(c: State, i: NodeId, due: bool)
    requires ElectionInv(c) && LogInv(c) && i in c.nodes && c.nodes[i].role == Leader
    ensures LogInv(ApplyTick(c, i, due))
  {
    hide ElectionInv, LogInv, SliceOf;
    var s, o := c.nodes[i], Tick(c.nodes[i], due);
    ApplyFrame(LeaderTick(s, due).node);
    SameLog(c, i, o.node);
    OneNode(c, i);
    forall m | m in o.sent ensures m.AppendEntries? ==> SliceOf(c.elections, m) {
      var k :| 0 <= k < |s.peers| && m == Slice(s, s.peers[k], 0);
      SliceLog(c, i, s.peers[k], 0);
    }
    SendLog(SetNode(c, i, o.node), o.sent);
  }

  lemma FollowerTickLog(c: State, i: NodeId, due: bool)
    requires ElectionInv(c) && LogInv(c) && i in c.nodes && c.nodes[i].role != Leader
    ensures LogInv(ApplyTick(c, i, due))
  {
    hide ElectionInv, LogInv;
    var s, o := c.nodes[i], Tick(c.nodes[i], due);
    ApplyFrame(if due then BecomeCandidate(s).node else s);
    SameLog(c, i, o.node);
    SendLog(SetNode(c, i, o.node), o.sent);
    VotesLog(Send(SetNode(c, i, o.node), o.sent), ApplyTick(c, i, due).votes);
  }

  lemma VotesLog(c: State, votes: set<Vote>)
    requires LogInv(c)
    ensures LogInv(c.(votes := votes))
  {
    hide LeaderLogsOk, NodeLogsOk, LeadersCurrent, SlicesOk;
  }

  lemma RequestVoteLog(c: State, m: Message)
    requires ElectionInv(c) && LogInv(c) && m in c.msgs && m.RequestVote? && m.dst in c.nodes
    ensures LogInv(ApplyRequestVote(c, m))
  {
    hide ElectionInv, LogInv;
    var o := HandleRequestVote(c.nodes[m.dst], m);
    SameLog(c, m.dst, o.node);
    SendLog(SetNode(c, m.dst, o.node), o.sent);
    VotesLog(Send(SetNode(c, m.dst, o.node), o.sent), ApplyRequestVote(c, m).votes);
  }

  lemma VoteReplyLog(c: State, m: Message)
    requires ElectionInv(c) && LogInv(c) && m in c.msgs && m.VoteReply? && m.dst in c.nodes
    ensures LogInv(ApplyVoteReply(c, m))
    ensures ElectionsGrow(c.elections, ApplyVoteReply(c, m).elections)
  {
    hide ElectionInv, LogInv;
    var i, s, t := m.dst, c.nodes[m.dst], HandleVoteReply(c.nodes[m.dst], m);
    if t.role == Leader && s.role != Leader {
      var k := PeerIndex(s.peers, m.src);
      GrantIsExact(c, m);
      WinElection(c, i, k);
      OneNode(c, i);
      assert WellIndexed(s.log, 0) by { assert NodeLogOk(c.elections, s) by { NodeLogFacts(c, i); } }
      LastIsEnd(s.log, 0);
      ElectLog(c, i, t, |s.log|);
    } else {
      SameLog(c, i, t);
    }
  }

  lemma NodeLogFacts(c: State, i: NodeId)
    requires LogInv(c) && i in c.nodes
    ensures NodeLogOk(c.elections, c.nodes[i]) && LeaderLogsOk(c.elections)
  {
  }

  lemma AppendEntriesLog(c: State, m: Message)
    requires ElectionInv(c) && LogInv(c) && m in c.msgs && m.AppendEntries? && m.dst in c.nodes
    ensures LogInv(ApplyAppendEntries(c, m))
  {
    hide ElectionInv, LogInv;
    var i, s := m.dst, c.nodes[m.dst];
    var o := HandleAppendEntries(s, m);
    var d := SetNode(c, i, o.node);
    assert LogInv(d) by {
      if m.term < s.term {
        assert d == c;
      } else {
        var t := Recognise(s, m);
        var c1 := SetNode(c, i, t);
        RecogniseElection(c, m);
        SameLog(c, i, t);
        OneNode(c1, i);
        if Consistent(t, m) { AcceptLog(c1, i, m, o.node); }
        assert SetNode(c1, i, o.node) == d;
      }
    }
    SendLog(d, o.sent);
    AckLog(Send(d, o.sent), ApplyAppendEntries(c, m).acks);
  }

  lemma AckLog(c: State, acks: set<Ack>)
    requires LogInv(c)
    ensures LogInv(c.(acks := acks))
  {
    hide LeaderLogsOk, NodeLogsOk, LeadersCurrent, SlicesOk;
  }

  lemma StepLog(c: State, a: Action)
    requires ElectionInv(c) && LogInv(c) && Enabled(c, a)
    ensures LogInv(Apply(c, a))
    ensures ElectionsGrow(c.elections, Apply(c, a).elections)
  {
    hide ElectionInv, LogInv, SliceOf;
    match a
    case DoTick(i, due) =>
      if c.nodes[i].role == Leader { HeartbeatLog(c, i, due); } else { FollowerTickLog(c, i, due); }
    case DoSubmit(i, data) => SubmitLog(c, i, data);
    case DoSend(i, k, count) =>
      OneNode(c, i);
      SliceLog(c, i, c.nodes[i].peers[k], count);
      SendLog(c, [Slice(c.nodes[i], c.nodes[i].peers[k], count)]);
    case DoRestart(i) =>
      OneNode(c, i);
      SameLog(c, i, Restart(c.nodes[i]));
    case DoDeliver(m) =>
      match m {
        case RequestVote(_, _, _, _, _) => RequestVoteLog(c, m);
        case VoteReply(_, _, _, _) => VoteReplyLog(c, m);
        case AppendEntries(_, _, _, _, _, _, _) => AppendEntriesLog(c, m);
        case AppendReply(_, _, _, _, _) => SameLog(c, m.dst, HandleAppendReply(c.nodes[m.dst], m));
      }
  }

  lemma {:induction false} RunLog(states: seq<State>, actions: seq<Action>, k: nat)
    requires IsRun(states, actions) && k < |states|
    ensures ElectionInv(states[k]) && LogInv(states[k])
  {
    hide ElectionInv, LogInv;
    if k == 0 {
      InitElection(states[0]);
      InitLog(states[0]);
    } else {
      RunLog(states, actions, k - 1);
      StepElection(states[k - 1], actions[k - 1]);
      StepLog(states[k - 1], actions[k - 1]);
    }
  }

  lemma GrowsOn(a: Elections, b: Elections, c: Elections)
    requires ElectionsGrow(a, b) && ElectionsGrow(b, c)
    ensures ElectionsGrow(a, c)
  {
  }

  lemma {:induction false} RunGrows(states: seq<State>, actions: seq<Action>, j: nat, k: nat)
    requires IsRun(states, actions) && j <= k < |states|
    ensures ElectionsGrow(states[j].elections, states[k].elections)
  {
    hide ElectionInv, LogInv, Apply, Enabled, Init;
    if j < k {
      RunGrows(states, actions, j, k - 1);
      RunLog(states, actions, k - 1);
      StepLog(states[k - 1], actions[k - 1]);
      assert states[(k - 1) + 1] == Apply(states[k - 1], actions[k - 1]);
      hide ElectionsGrow;
      GrowsOn(states[j].elections, states[k - 1].elections, states[k].elections);
    }
  }

  // The theorems

  /** Election Safety: whenever a node is leader of a term, no other node ever is, or was. */
  lemma ElectionSafetyTheorem(states: seq<State>, actions: seq<Action>, j: nat, k: nat, a: NodeId, b: NodeId)
    requires IsRun(states, actions) && j < |states| && k < |states|
    requires a in states[j].nodes && b in states[k].nodes
    requires states[j].nodes[a].role == Leader && states[k].nodes[b].role == Leader
    requires states[j].nodes[a].term == states[k].nodes[b].term
    ensures a == b
  {
    RunElection(states, actions, j);
    RunElection(states, actions, k);
    if j <= k { RunGrows(states, actions, j, k); } else { RunGrows(states, actions, k, j); }
  }

  /** Log Matching: logs of any two nodes at any two times that have an entry of the same term at
      the same position are identical, terms and payloads, up to that position. */
  lemma LogMatchingTheorem(states: seq<State>, actions: seq<Action>, j: nat, k: nat, a: NodeId, b: NodeId, n: nat)
    requires IsRun(states, actions) && j <= k < |states|
    requires a in states[j].nodes && b in states[k].nodes
    requires n < |states[j].nodes[a].log| && n < |states[k].nodes[b].log|
    requires states[j].nodes[a].log[n].term == states[k].nodes[b].log[n].term
    ensures states[j].nodes[a].log[..n + 1] == states[k].nodes[b].log[..n + 1]
  {
    RunLog(states, actions, j);
    RunLog(states, actions, k);
    RunGrows(states, actions, j, k);
    NodeLogFacts(states[j], a);
    NodeLogFacts(states[k], b);
    AnchoredGrows(states[j].elections, states[k].elections, states[j].nodes[a].log);
    AnchoredMatch(states[k].elections, states[j].nodes[a].log, states[k].nodes[b].log, n);
  }

  /** Leader Append-Only: from the moment a node leads term t until its term changes, even across a
      restart, its log only gets longer. */
  lemma LeaderAppendOnlyTheorem(states: seq<State>, actions: seq<Action>, j: nat, k: nat, a: NodeId)
    requires IsRun(states, actions) && j <= k < |states|
    requires a in states[j].nodes && a in states[k].nodes
    requires states[j].nodes[a].role == Leader && states[k].nodes[a].term == states[j].nodes[a].term
    ensures states[j].nodes[a].log <= states[k].nodes[a].log
  {
    RunLog(states, actions, j);
    RunLog(states, actions, k);
    RunGrows(states, actions, j, k);
    LeaderFacts(states[j], a);
  }
}
