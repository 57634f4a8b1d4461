/** The runs of the source as it stands: its leaders send empty batches only.  In them no entry ever reaches a second
    node, so whatever is committed or applied was acknowledged falsely; what each node applies is its own log. */
module PlainRuns {

  import opened Numbers
  import opened RaftTypes
  import opened RaftLog
  import opened RaftStep
  import opened Cluster
  import opened ElectionSafety
  import opened Matching
  import Quorums
  import opened Retention
  import opened Commitment
  import opened Applying
  import opened Honesty

  // Losses, duplicates, delays and restarts, but every AppendEntries is empty.
  ghost predicate IsPlainRun(states: seq<State>, actions: seq<Action>) {
    IsRun(states, actions) && forall k :: 0 <= k < |actions| ==> Plain(actions[k])
  }

  predicate Plain(a: Action) {
    a.DoSend? ==> a.count == 0
  }

  // Every entry of node i's log is of a term that i led.
  ghost predicate Own(els: Elections, i: NodeId, log: Log) {
    forall n :: 0 <= n < |log| ==> log[n].term in els && els[log[n].term].leader == i
  }

  ghost predicate Empty(msgs: set<Message>) {
    forall m :: m in msgs && m.AppendEntries? ==> m.entries == []
  }

  ghost predicate PlainInv(c: State) {
    && Empty(c.msgs)
    && (forall i :: i in c.nodes ==> Own(c.elections, i, c.nodes[i].log) && ApplyInv(c.nodes[i]))
    && (forall t :: t in c.elections ==> Own(c.elections, c.elections[t].leader, c.elections[t].log))
  }

  function CallOf(a: Action): Call
    requires a.DoTick? || a.DoSubmit? || a.DoDeliver?
  {
    match a
    case DoTick(_, due) => CallTick(due)
    case DoSubmit(_, data) => CallSubmit(data)
    case DoDeliver(m) => CallMessage(m)
  }

  predicate Acting(a: Action, i: NodeId) {
    Actor(a) == i && (a.DoTick? || a.DoSubmit? || a.DoDeliver?)
  }

  // An action changes the node that takes it and no other.
  lemma StepNode(c: State, a: Action, i: NodeId)
    requires Enabled(c, a) && i in c.nodes
    ensures Apply(c, a).nodes.Keys == c.nodes.Keys
    ensures Apply(c, a).nodes[i] == if Acting(a, i) then Do(c.nodes[i], CallOf(a))
      else if a == DoRestart(i) then Restart(c.nodes[i]) else c.nodes[i]
  {
    hide Tick, HandleRequestVote, HandleVoteReply, HandleAppendEntries, HandleAppendReply, Elements;
  }

  // A log stays, or a leader has added one entry of its own term.
  ghost predicate Grew(s: NodeState, t: NodeState) {
    || t.log == s.log
    || (t.role == Leader && |t.log| == |s.log| + 1 && t.log[..|s.log|] == s.log && t.log[|s.log|].term == t.term)
  }

  lemma DoGrew(s: NodeState, call: Call)
    requires s.snapIndex == 0 && (call.CallMessage? && call.msg.AppendEntries? ==> call.msg.entries == [])
    ensures Grew(s, Do(s, call))
  {
    hide ApplyCommitted, AppendAll;
    match call
    case CallTick(due) =>
      ApplyFrame(if s.role == Leader then LeaderTick(s, due).node else if due then BecomeCandidate(s).node else s);
    case CallSubmit(_) =>
    case CallMessage(m) =>
      if m.AppendEntries? {
        HandlerLog(s, m);
        AppendNothing(s.log, 0);
      }
  }

  lemma GrewOwn(els: Elections, els': Elections, i: NodeId, s: NodeState, t: NodeState)
    requires ElectionsGrow(els, els') && Own(els, i, s.log) && Grew(s, t)
    requires t.role == Leader ==> t.term in els' && els'[t.term].leader == i
    ensures Own(els', i, t.log)
  {
    forall n | 0 <= n < |t.log| ensures t.log[n].term in els' && els'[t.log[n].term].leader == i {
      assert n < |s.log| ==> t.log[n] == s.log[n];
    }
  }

  lemma RestartApplied(s: NodeState)
    requires ApplyInv(s) && s.disk.log == s.log
    ensures ApplyInv(Restart(s))
  {
    assert s.log[..0] == [];
  }

  // What an empty request asks of the apply theorem is nothing.
  lemma EmptyAllowed(s: NodeState, call: Call)
    requires call.CallMessage? && call.msg.AppendEntries? ==> call.msg.entries == []
    ensures Cut(s, call) && Allowed(s, call)
  {
    hide Passes;
  }

  lemma NodeStep(c: State, a: Action, i: NodeId)
    requires ElectionInv(c) && LogInv(c) && PlainInv(c) && Enabled(c, a) && i in c.nodes
    ensures i in Apply(c, a).nodes && Grew(c.nodes[i], Apply(c, a).nodes[i]) && ApplyInv(Apply(c, a).nodes[i])
  {
    hide ElectionInv, LogInv, Apply, Do, Own, AppliedOk, Cut, Allowed;
    var s := c.nodes[i];
    StepNode(c, a, i);
    OneNode(c, i);
    if Actor(a) == i && a.DoRestart? {
      RestartApplied(s);
    } else if Actor(a) == i && !a.DoSend? {
      DoGrew(s, CallOf(a));
      EmptyAllowed(s, CallOf(a));
      DoApplied(s, CallOf(a));
    }
  }

  lemma SentEmpty(c: State, a: Action)
    requires Enabled(c, a) && Plain(a) && Empty(c.msgs)
    ensures Empty(Apply(c, a).msgs)
  {
    hide ApplyCommitted, HandleVoteReply, HandleAppendReply, Accept, Grants, Consistent, AppendAll;
  }

  // A record changes only while its leader is still in that term.
  lemma RecordStep(c: State, a: Action, t: nat)
    requires Enabled(c, a) && t in Apply(c, a).elections
    ensures var d := Apply(c, a);
      || (t in c.elections && d.elections[t] == c.elections[t])
      || (a.DoSubmit? && a.node in d.nodes && d.nodes[a.node].role == Leader && d.nodes[a.node].term == t)
      || (a.DoDeliver? && a.msg.dst in d.nodes && d.nodes[a.msg.dst].role == Leader && d.nodes[a.msg.dst].term == t)
  {
    hide Tick, HandleRequestVote, HandleVoteReply, HandleAppendEntries, HandleAppendReply, Elements;
  }

  lemma OwnGrows(els: Elections, els': Elections, i: NodeId, log: Log)
    requires ElectionsGrow(els, els') && Own(els, i, log)
    ensures Own(els', i, log)
  {
  }

  lemma RecordOwn(c: State, a: Action, t: nat)
    requires PlainInv(c) && Enabled(c, a) && t in Apply(c, a).elections
    requires ElectionInv(Apply(c, a)) && LogInv(Apply(c, a)) && ElectionsGrow(c.elections, Apply(c, a).elections)
    requires forall i :: i in Apply(c, a).nodes ==> Own(Apply(c, a).elections, i, Apply(c, a).nodes[i].log)
    ensures var d := Apply(c, a); Own(d.elections, d.elections[t].leader, d.elections[t].log)
  {
    hide ElectionInv, LogInv, Apply, Own, ApplyInv, Empty, ElectionsGrow;
    var d := Apply(c, a);
    RecordStep(c, a, t);
    if t in c.elections && d.elections[t] == c.elections[t] {
      OwnGrows(c.elections, d.elections, c.elections[t].leader, c.elections[t].log);
    } else {
      LeaderFacts(d, if a.DoSubmit? then a.node else a.msg.dst);
    }
  }

  lemma StepPlain(c: State, a: Action)
    requires ElectionInv(c) && LogInv(c) && PlainInv(c) && Enabled(c, a) && Plain(a)
    ensures PlainInv(Apply(c, a))
  {
    hide ElectionInv, LogInv, Apply, Own, ApplyInv, Grew, Empty;
    var d := Apply(c, a);
    StepElection(c, a);
    StepLog(c, a);
    StepHistory(c, a);
    SentEmpty(c, a);
    forall i | i in d.nodes ensures Own(d.elections, i, d.nodes[i].log) && ApplyInv(d.nodes[i]) {
      StepNode(c, a, i);
      NodeStep(c, a, i);
      if d.nodes[i].role == Leader { LeaderFacts(d, i); }
      GrewOwn(c.elections, d.elections, i, c.nodes[i], d.nodes[i]);
    }
    forall t | t in d.elections ensures Own(d.elections, d.elections[t].leader, d.elections[t].log) {
      RecordOwn(c, a, t);
    }
  }

  lemma InitPlain(c: State)
    requires Init(c)
    ensures PlainInv(c)
  {
  }

  lemma {:induction false} RunPlain(states: seq<State>, actions: seq<Action>, k: nat)
    requires IsPlainRun(states, actions) && k < |states|
    ensures ElectionInv(states[k]) && LogInv(states[k]) && PlainInv(states[k])
  {
    hide ElectionInv, LogInv, PlainInv, Apply, Enabled, Init, Plain;
    RunLog(states, actions, k);
    if k == 0 {
      InitPlain(states[0]);
    } else {
      RunPlain(states, actions, k - 1);
      assert states[(k - 1) + 1] == Apply(states[k - 1], actions[k - 1]);
      StepPlain(states[k - 1], actions[k - 1]);
    }
  }

  // The theorems

  lemma OneOwn(c: State, i: NodeId)
    requires PlainInv(c) && i in c.nodes
    ensures Own(c.elections, i, c.nodes[i].log) && ApplyInv(c.nodes[i])
  {
  }

  /** No two nodes ever hold an entry of the same term, at any positions and any two moments: entries do not travel. */
  lemma EntriesStayHome(states: seq<State>, actions: seq<Action>, j: nat, k: nat, a: NodeId, b: NodeId, n: nat, m: nat)
    requires IsPlainRun(states, actions) && j <= k < |states| && a in states[j].nodes && b in states[k].nodes && a != b
    requires n < |states[j].nodes[a].log| && m < |states[k].nodes[b].log|
    ensures states[j].nodes[a].log[n].term != states[k].nodes[b].log[m].term
  {
    hide ElectionInv, LogInv, PlainInv, Apply, Enabled, Init, Plain, ApplyInv;
    RunPlain(states, actions, j);
    RunPlain(states, actions, k);
    RunGrows(states, actions, j, k);
    OneOwn(states[j], a);
    OneOwn(states[k], b);
  }

  /** Honest or not, what a node has applied is exactly its own log up to last_applied. */
  lemma AppliesOwnLog(states: seq<State>, actions: seq<Action>, k: nat, i: NodeId)
    requires IsPlainRun(states, actions) && k < |states| && i in states[k].nodes
    ensures var s := states[k].nodes[i];
      && s.lastApplied <= s.commitIndex <= |s.log| && s.applied == Payloads(s.log[..s.lastApplied])
      && (forall n :: 0 <= n < |s.log| ==>
          s.log[n].term in states[k].elections && states[k].elections[s.log[n].term].leader == i)
  {
    hide ElectionInv, LogInv, PlainInv, IsPlainRun;
    RunPlain(states, actions, k);
    OneOwn(states[k], i);
  }

  /** So State Machine Safety of two nodes at one index comes down to chance: it holds there if and only if two entries
      that were submitted separately, in different terms, happen to carry the same payload. */
  lemma AgreementByChance(states: seq<State>, actions: seq<Action>, j: nat, k: nat, a: NodeId, b: NodeId, n: nat)
    requires IsPlainRun(states, actions) && j <= k < |states| && a in states[j].nodes && b in states[k].nodes && a != b
    requires n < |states[j].nodes[a].applied| && n < |states[k].nodes[b].applied|
    ensures n < |states[j].nodes[a].log| && n < |states[k].nodes[b].log|
    ensures var e, f := states[j].nodes[a].log[n], states[k].nodes[b].log[n];
      && e.term != f.term
      && (states[j].nodes[a].applied[n] == states[k].nodes[b].applied[n] <==> e.data == f.data)
  {
    hide ElectionInv, LogInv, PlainInv, IsPlainRun;
    AppliesOwnLog(states, actions, j, a);
    AppliesOwnLog(states, actions, k, b);
    EntriesStayHome(states, actions, j, k, a, b, n, n);
  }

  // A second node that has acknowledged an entry of the leader's, and still has it.
  lemma TwoHolders(c: State, t: nat, n: nat) returns (p: NodeId)
    requires Committed(c, t, n) && |c.nodes| >= 2
    ensures p in c.nodes && p != c.elections[t].leader && Held(c.elections, c.acks, p, t, n)
  {
    hide Held;
    var others := Holders(c, t, n) - {c.elections[t].leader};
    assert |others| > 0 by {
      if others == {} {
        assert Holders(c, t, n) <= {c.elections[t].leader};
        Quorums.SubsetSize(Holders(c, t, n), {c.elections[t].leader});
      }
    }
    p :| p in others;
  }

  lemma StillHolds(c: State, t: nat, n: nat, p: NodeId)
    requires SafeInv(c) && RetentionInv(c) && Committed(c, t, n) && p in c.nodes && Held(c.elections, c.acks, p, t, n)
    ensures Holds(c.nodes[p].log, c.elections[t].log, n)
  {
    hide SafeInv, Held, Holds, AcksOk, VotersKept, LeadersProgress, TrafficOk, Committed;
    assert Kept(c.elections, c.nodes[p].log, t, n, c.nodes[p].term);
    if !Holds(c.nodes[p].log, c.elections[t].log, n) {
      var u :| t < u <= c.nodes[p].term && Deviates(c.elections, u, t, n);
      LeaderCompleteness(c, t, n, u);
      assert false;
    }
  }

  lemma HolderIsLeader(els: Elections, t: nat, n: nat, p: NodeId, log: Log)
    requires Own(els, p, log) && t in els && LeaderLogOk(els, t, els[t])
    requires els[t].base < n <= |els[t].log| && Holds(log, els[t].log, n)
    ensures els[t].leader == p
  {
    hide Anchored, WellIndexed, Sorted;
    assert log[n - 1] == log[..n][n - 1] == els[t].log[..n][n - 1] == els[t].log[n - 1];
  }

  lemma NothingCommitted(c: State, t: nat, n: nat)
    requires SafeInv(c) && RetentionInv(c) && PlainInv(c) && |c.nodes| >= 2
    ensures !Committed(c, t, n)
  {
    hide SafeInv, RetentionInv, PlainInv, Held, ApplyInv, Empty, Own, Holds, LeaderLogOk, LogInv, ElectionInv;
    if Committed(c, t, n) {
      var p := TwoHolders(c, t, n);
      StillHolds(c, t, n, p);
      OneOwn(c, p);
      SafeParts(c);
      OneLeaderLog(c, t);
      HolderIsLeader(c.elections, t, n, p, c.nodes[p].log);
      assert false;
    }
  }

  /** An honest run of the source as it stands commits and applies nothing, in any cluster of two nodes or more: every
      commit it ever makes rests on a false acknowledgement. */
  lemma HonestRunsAreIdle(states: seq<State>, actions: seq<Action>, k: nat, i: NodeId)
    requires IsPlainRun(states, actions) && IsHonestRun(states, actions) && k < |states|
    requires i in states[k].nodes && |states[k].nodes| >= 2
    ensures states[k].nodes[i].commitIndex == 0 && states[k].nodes[i].applied == []
  {
    hide SafeInv, RetentionInv, PlainInv, CommitInv, IsHonestRun, IsPlainRun, Committed;
    var c, s := states[k], states[k].nodes[i];
    RunCommit(states, actions, k);
    RunPlain(states, actions, k);
    OneCommit(c, i);
    if s.commitIndex > 0 {
      assert s.log[..s.commitIndex] != [];
      var t: nat, n: nat :| PrefixOf(c, s.log[..s.commitIndex], s.term, t, n);
      NothingCommitted(c, t, n);
      assert false;
    }
  }

  lemma NoSharedTerm(c: State, m: Message, n: nat)
    requires PlainInv(c) && m.AppendEntries? && m.dst in c.nodes && m.term in c.elections
    requires c.elections[m.term].leader == m.src != m.dst && 0 < n
    ensures !SameTermAt(c.nodes[m.dst].log, c.elections[m.term].log, n)
  {
    hide ApplyInv, Empty;
  }

  lemma EmptyBatch(c: State, m: Message)
    requires PlainInv(c) && m in c.msgs && m.AppendEntries?
    ensures m.entries == [] && forall log: Log :: !Overwrites(log, m)
  {
  }

  /** The guards of honesty, for the source as it stands: a success is honest if and only if it will not be counted or
      comes from an empty log, and does not raise the commit index. */
  lemma PlainGuards(states: seq<State>, actions: seq<Action>, k: nat)
    requires IsPlainRun(states, actions) && k < |actions| && Succeeds(states[k], actions[k])
    ensures var s, m := states[k].nodes[actions[k].msg.dst], actions[k].msg;
      && (HonestReport(states[k], actions[k]) <==> m.term > s.term || s.log == [])
      && (HonestCommit(states[k], actions[k]) <==> Min(m.leaderCommit, |s.log|) <= s.commitIndex)
  {
    hide ElectionInv, LogInv, PlainInv, Apply, HandleAppendEntries, HonestReport, HonestCommit, Overwrites, SameTermAt, Plain;
    var c, m := states[k], actions[k].msg;
    var s := c.nodes[m.dst];
    RunPlain(states, actions, k);
    HonestGuards(states, actions, k);
    OneMsg(c, m);
    EmptyBatch(c, m);
    var n := Min(m.leaderCommit, |s.log|);
    NoTerm(s.log, c.elections[m.term].log);
    if s.log != [] { NoSharedTerm(c, m, |s.log|); }
    if n > 0 { NoSharedTerm(c, m, n); }
  }

  lemma NoTerm(log: Log, leader: Log)
    ensures SameTermAt(log, leader, 0)
  {
  }

  // Success number k comes from an empty log, or will not be counted, and raises nothing.
  ghost predicate Harmless(c: State, a: Action) {
    Succeeds(c, a) ==>
      var s := c.nodes[a.msg.dst];
      (a.msg.term > s.term || s.log == []) && Min(a.msg.leaderCommit, |s.log|) <= s.commitIndex
  }

  /** Which of its runs are honest. */
  lemma PlainHonestIff(states: seq<State>, actions: seq<Action>)
    requires IsPlainRun(states, actions)
    ensures IsHonestRun(states, actions) <==> forall k :: 0 <= k < |actions| ==> Harmless(states[k], actions[k])
  {
    hide Apply, Init, Enabled, HandleAppendEntries, HonestReport, HonestCommit, Plain;
    forall k | 0 <= k < |actions| ensures Honest(states[k], actions[k]) <==> Harmless(states[k], actions[k]) {
      if Succeeds(states[k], actions[k]) {
        PlainGuards(states, actions, k);
      } else {
        NothingToReport(states[k], actions[k]);
      }
    }
  }
}
