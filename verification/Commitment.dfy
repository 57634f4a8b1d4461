/** State Machine Safety, in every honest run (what a follower reports, and what it newly commits, it shares
    with its leader): no two nodes ever apply different payloads at the same index. */
module Commitment {

  import opened RaftTypes
  import opened RaftLog
  import opened RaftStep
  import opened Cluster
  import opened Quorums
  import opened ElectionSafety
  import opened Matching
  import opened Ballots
  import opened Retention

  // s is the beginning of a committed log, known to be so by term `bound`.
  ghost predicate PrefixOf(c: State, s: Log, bound: nat, t: nat, n: nat) {
    Committed(c, t, n) && t <= bound && |s| <= n && s == c.elections[t].log[..|s|]
  }

  ghost predicate CommittedPrefix(c: State, s: Log, bound: nat) {
    s == [] || exists t: nat, n: nat :: PrefixOf(c, s, bound, t, n)
  }

  function Payloads(log: Log): seq<Payload> {
    seq(|log|, k requires 0 <= k < |log| => log[k].data)
  }

  // Applying is in order, gap-free and exactly once.
  ghost predicate AppliedOk(s: NodeState) {
    s.lastApplied <= s.commitIndex <= |s.log| && s.applied == Payloads(s.log[..s.lastApplied])
  }

  ghost predicate NodeCommitOk(c: State, s: NodeState) {
    AppliedOk(s) && CommittedPrefix(c, s.log[..s.commitIndex], s.term)
  }

  ghost predicate MsgCommitOk(c: State, m: Message) {
    m.AppendEntries? ==>
      && m.term in c.elections && m.leaderCommit <= |c.elections[m.term].log|
      && CommittedPrefix(c, c.elections[m.term].log[..m.leaderCommit], m.term)
  }

  ghost predicate CommitInv(c: State) {
    && (forall i :: i in c.nodes ==> NodeCommitOk(c, c.nodes[i]))
    && (forall m :: m in c.msgs ==> MsgCommitOk(c, m))
  }

  // Nothing recorded is ever taken back.
  ghost predicate HistoryGrows(c: State, d: State) {
    c.nodes.Keys == d.nodes.Keys && ElectionsGrow(c.elections, d.elections) && c.acks <= d.acks
  }

  lemma InitCommit(c: State)
    requires Init(c)
    ensures CommitInv(c)
  {
  }

  lemma CommittedGrows(c: State, d: State, t: nat, n: nat)
    requires HistoryGrows(c, d) && Committed(c, t, n)
    ensures Committed(d, t, n)
  {
    forall p | p in Holders(c, t, n) ensures p in Holders(d, t, n) { assert Held(c.elections, c.acks, p, t, n); }
    SubsetSize(Holders(c, t, n), Holders(d, t, n));
    assert |d.nodes| == |d.nodes.Keys| == |c.nodes.Keys| == |c.nodes|;
  }

  lemma PrefixGrows(c: State, d: State, s: Log, bound: nat, bound': nat)
    requires HistoryGrows(c, d) && CommittedPrefix(c, s, bound) && bound <= bound'
    ensures CommittedPrefix(d, s, bound')
  {
    hide Committed, HistoryGrows;
    if s != [] {
      var t: nat, n: nat :| PrefixOf(c, s, bound, t, n);
      CommittedGrows(c, d, t, n);
      GrownPrefix(c, d, s, bound, t, n);
      assert PrefixOf(d, s, bound', t, n);
    }
  }

  lemma GrownPrefix(c: State, d: State, s: Log, bound: nat, t: nat, n: nat)
    requires HistoryGrows(c, d) && PrefixOf(c, s, bound, t, n)
    ensures t in d.elections && n <= |d.elections[t].log| && s == d.elections[t].log[..|s|]
  {
  }

  lemma ShorterPrefix(c: State, s: Log, r: Log, bound: nat)
    requires CommittedPrefix(c, s, bound) && r <= s
    ensures CommittedPrefix(c, r, bound)
  {
    hide Committed;
    if r != [] {
      var t: nat, n: nat :| PrefixOf(c, s, bound, t, n);
      CommittedFacts(c, t, n);
      assert r == s[..|r|] == c.elections[t].log[..|r|];
      assert PrefixOf(c, r, bound, t, n);
    }
  }

  lemma CommittedFacts(c: State, t: nat, n: nat)
    requires Committed(c, t, n)
    ensures t in c.elections && n <= |c.elections[t].log|
  {
  }

  /** Every later leader's log, and the same leader's, begins with what was committed. */
  lemma LeaderHasPrefix(c: State, s: Log, bound: nat, u: nat)
    requires SafeInv(c) && RetentionInv(c) && CommittedPrefix(c, s, bound) && bound <= u && u in c.elections
    ensures s <= c.elections[u].log
    ensures bound < u ==> c.elections[u].base <= |c.elections[u].log| && s <= c.elections[u].log[..c.elections[u].base]
  {
    hide SafeInv, RetentionInv, Committed;
    if s == [] {
      LeaderBase(c, u);
    } else {
      var t: nat, n: nat :| PrefixOf(c, s, bound, t, n);
      CommittedFacts(c, t, n);
      if t < u {
        LeaderCompleteness(c, t, n, u);
        var mine := c.elections[u].log[..c.elections[u].base];
        assert mine[..|s|] == mine[..n][..|s|] == c.elections[t].log[..n][..|s|] == s;
        assert c.elections[u].log[..|s|] == mine[..|s|];
      }
    }
  }

  lemma LeaderBase(c: State, u: nat)
    requires SafeInv(c) && u in c.elections
    ensures c.elections[u].base <= |c.elections[u].log|
  {
    assert LeaderLogOk(c.elections, u, c.elections[u]);
  }

  /** Any two committed prefixes agree where both are defined. */
  lemma PrefixesAgree(c: State, s: Log, r: Log, b1: nat, b2: nat, k: nat)
    requires SafeInv(c) && RetentionInv(c) && CommittedPrefix(c, s, b1) && CommittedPrefix(c, r, b2)
    requires k < |s| && k < |r|
    ensures s[k] == r[k]
  {
    hide SafeInv, RetentionInv, Committed, CommittedPrefix, PrefixOf;
    var t, n := PrefixWitness(c, s, b1);
    var u, m := PrefixWitness(c, r, b2);
    var top := if t < u then u else t;
    assert CommittedPrefix(c, s, t) && CommittedPrefix(c, r, u);
    LeaderHasPrefix(c, s, t, top);
    LeaderHasPrefix(c, r, u, top);
  }

  lemma PrefixWitness(c: State, s: Log, bound: nat) returns (t: nat, n: nat)
    requires CommittedPrefix(c, s, bound) && s != []
    ensures t in c.elections && CommittedPrefix(c, s, t)
  {
    t, n :| PrefixOf(c, s, bound, t, n);
    assert PrefixOf(c, s, t, t, n);
  }

  /** A step that changes one node and adds messages. */
  lemma ChangeCommit(c: State, d: State, i: NodeId)
    requires CommitInv(c) && HistoryGrows(c, d) && i in d.nodes
    requires forall j :: j in d.nodes && j != i ==> d.nodes[j] == c.nodes[j]
    requires NodeCommitOk(d, d.nodes[i])
    requires forall m :: m in d.msgs && m !in c.msgs ==> MsgCommitOk(d, m)
    ensures CommitInv(d)
  {
    hide CommittedPrefix, Payloads;
    forall j | j in d.nodes && j != i ensures NodeCommitOk(d, d.nodes[j]) {
      var s := c.nodes[j];
      assert NodeCommitOk(c, s);
      PrefixGrows(c, d, s.log[..s.commitIndex], s.term, s.term);
    }
    forall m | m in c.msgs ensures MsgCommitOk(d, m) {
      assert MsgCommitOk(c, m);
      if m.AppendEntries? {
        var lc := m.leaderCommit;
        PrefixGrows(c, d, c.elections[m.term].log[..lc], m.term, m.term);
        assert d.elections[m.term].log[..lc] == c.elections[m.term].log[..lc];
      }
    }
  }

  // What each kind of update does to a node's commit state

  /** The log up to the commit index survives, and nothing else about it changes. */
  lemma KeepsCommit(c: State, d: State, s: NodeState, u: NodeState)
    requires HistoryGrows(c, d) && NodeCommitOk(c, s)
    requires u.commitIndex == s.commitIndex && u.lastApplied == s.lastApplied && u.applied == s.applied
    requires u.term >= s.term && s.commitIndex <= |u.log| && u.log[..s.commitIndex] == s.log[..s.commitIndex]
    ensures NodeCommitOk(d, u)
  {
    hide CommittedPrefix, Payloads, HistoryGrows;
    PrefixGrows(c, d, s.log[..s.commitIndex], s.term, u.term);
    assert u.log[..s.lastApplied] == u.log[..s.commitIndex][..s.lastApplied] == s.log[..s.lastApplied];
  }

  /** apply_committed_entries catches up exactly. */
  lemma {:induction false} ApplyCatchesUp(s: NodeState)
    requires AppliedOk(s) && s.snapIndex == 0
    ensures AppliedOk(ApplyCommitted(s)) && ApplyCommitted(s).lastApplied == s.commitIndex
    decreases s.commitIndex - s.lastApplied
  {
    if s.lastApplied < s.commitIndex {
      var next := s.lastApplied + 1;
      var t := s.(lastApplied := next, applied := s.applied + [s.log[next - 1].data]);
      assert t.applied == Payloads(s.log[..next]);
      ApplyCatchesUp(t);
    }
  }

  ghost function MatchSet(peers: seq<Peer>, n: nat): set<NodeId> {
    set k | 0 <= k < |peers| && peers[k].matchIndex >= n :: peers[k].id
  }

  lemma MatchSetSplit(init: seq<Peer>, p: Peer, n: nat)
    ensures MatchSet(init + [p], n) == MatchSet(init, n) + (if p.matchIndex >= n then {p.id} else {})
  {
    var peers := init + [p];
    assert forall k :: 0 <= k < |init| ==> peers[k] == init[k];
    assert peers[|init|] == p;
    forall x | x in MatchSet(init, n) ensures x in MatchSet(peers, n) {
      var k :| 0 <= k < |init| && init[k].matchIndex >= n && init[k].id == x;
      assert peers[k].matchIndex >= n && peers[k].id == x;
    }
  }

  /** With distinct ids, the replica count is the size of the set of replicas. */
  lemma {:induction false} CountIsSize(peers: seq<Peer>, n: nat)
    requires forall j, k :: 0 <= j < k < |peers| ==> peers[j].id != peers[k].id
    ensures |MatchSet(peers, n)| == CountMatches(peers, n)
  {
    if peers != [] {
      var init, p := peers[..|peers| - 1], peers[|peers| - 1];
      CountIsSize(init, n);
      assert p.id !in MatchSet(init, n);
      MatchSetSplit(init, p, n);
      assert init + [p] == peers;
    }
  }

  /** What the commit loop counts is a majority of nodes that had the entry. */
  lemma CommitLoopSound(c: State, i: NodeId, n: nat)
    requires ElectionInv(c) && LogInv(c) && RetentionInv(c) && i in c.nodes && c.nodes[i].role == Leader
    requires 0 < n <= |c.nodes[i].log| && Committable(c.nodes[i], n)
    ensures Committed(c, c.nodes[i].term, n)
  {
    hide ElectionInv, LogInv, RetentionInv, CountMatches, MatchSet;
    var s := c.nodes[i];
    LeaderFacts(c, i);
    OneNode(c, i);
    OneLeaderLog(c, s.term);
    var q := MatchSet(s.peers, n) + {i};
    MatchersHold(c, i, n);
    CountIsSize(s.peers, n);
    SubsetSize(q, Holders(c, s.term, n));
  }

  lemma MatchersHold(c: State, i: NodeId, n: nat)
    requires ElectionInv(c) && LogInv(c) && RetentionInv(c) && i in c.nodes && c.nodes[i].role == Leader
    requires 0 < n <= |c.nodes[i].log| && c.nodes[i].log[n - 1].term == c.nodes[i].term
    ensures MatchSet(c.nodes[i].peers, n) + {i} <= Holders(c, c.nodes[i].term, n)
    ensures i !in MatchSet(c.nodes[i].peers, n)
  {
    hide ElectionInv, LogInv, RetentionInv;
    var s := c.nodes[i];
    LeaderFacts(c, i);
    OneNode(c, i);
    OneProgress(c, i);
    OneLeaderLog(c, s.term);
    forall x | x in MatchSet(s.peers, n) ensures x in Holders(c, s.term, n) && x != i {
      var k :| 0 <= k < |s.peers| && s.peers[k].matchIndex >= n && s.peers[k].id == x;
      var a :| a in c.acks && a.node == x && a.term == s.term && a.index >= s.peers[k].matchIndex;
      assert HasAck(c.acks, x, s.term, n);
    }
  }

  // Every honest action keeps the invariant.

  lemma OneCommit(c: State, i: NodeId)
    requires CommitInv(c) && i in c.nodes
    ensures NodeCommitOk(c, c.nodes[i])
  {
  }

  lemma AppliedCommit(c: State, s: NodeState)
    requires NodeCommitOk(c, s) && s.snapIndex == 0
    ensures NodeCommitOk(c, ApplyCommitted(s))
  {
    hide CommittedPrefix;
    ApplyCatchesUp(s);
    ApplyFrame(s);
  }

  lemma LeaderCommits(c: State, i: NodeId)
    requires SafeInv(c) && RetentionInv(c) && CommitInv(c) && i in c.nodes && c.nodes[i].role == Leader
    ensures NodeCommitOk(c, LeaderTick(c.nodes[i], false).node)
  {
    hide ElectionInv, LogInv, BallotInv, RetentionInv, CommitInv, Committable, Committed;
    var s := c.nodes[i];
    var n := LeaderTick(s, false).node.commitIndex;
    OneCommit(c, i);
    OneNode(c, i);
    NodeLogFacts(c, i);
    LastIsEnd(s.log, 0);
    if n > s.commitIndex {
      CommitLoopSound(c, i, n);
      LeaderFacts(c, i);
      assert PrefixOf(c, s.log[..n], s.term, s.term, n);
    }
  }

  lemma MyCommitSent(c: State, i: NodeId, m: Message)
    requires ElectionInv(c) && LogInv(c) && CommitInv(c) && i in c.nodes && c.nodes[i].role == Leader
    requires m.AppendEntries? && m.term == c.nodes[i].term && m.leaderCommit == c.nodes[i].commitIndex
    ensures MsgCommitOk(c, m)
  {
    hide ElectionInv, LogInv, CommitInv, CommittedPrefix;
    LeaderFacts(c, i);
    OneCommit(c, i);
  }

  lemma MsgCommitGrows(c: State, d: State, m: Message)
    requires HistoryGrows(c, d) && MsgCommitOk(c, m)
    ensures MsgCommitOk(d, m)
  {
    hide CommittedPrefix;
    if m.AppendEntries? {
      var lc := m.leaderCommit;
      PrefixGrows(c, d, c.elections[m.term].log[..lc], m.term, m.term);
      assert d.elections[m.term].log[..lc] == c.elections[m.term].log[..lc];
    }
  }

  lemma LeaderTickCommit(c: State, i: NodeId, due: bool)
    requires SafeInv(c) && RetentionInv(c) && CommitInv(c) && i in c.nodes && c.nodes[i].role == Leader
    ensures CommitInv(ApplyTick(c, i, due))
  {
    hide ElectionInv, LogInv, BallotInv, RetentionInv, CommitInv, NodeCommitOk, MsgCommitOk, GreatestCommittable;
    var s, d := c.nodes[i], ApplyTick(c, i, due);
    var t := LeaderTick(s, due).node;
    LeaderCommits(c, i);
    OneNode(c, i);
    AppliedCommit(c, t);
    ApplyFrame(t);
    assert HistoryGrows(c, d);
    SameHistory(c, d, ApplyCommitted(t));
    forall m | m in d.msgs && m !in c.msgs ensures MsgCommitOk(d, m) {
      MyCommitSent(c, i, m);
      MsgCommitGrows(c, d, m);
    }
    ChangeCommit(c, d, i);
  }

  lemma SameHistory(c: State, d: State, s: NodeState)
    requires HistoryGrows(c, d) && NodeCommitOk(c, s)
    ensures NodeCommitOk(d, s)
  {
    hide CommittedPrefix, Payloads, HistoryGrows;
    KeepsCommit(c, d, s, s);
  }

  /** Any other action on one node that keeps its log up to the commit index. */
  lemma QuietCommit(c: State, d: State, i: NodeId, s: NodeState)
    requires CommitInv(c) && HistoryGrows(c, d) && i in c.nodes && d.nodes == c.nodes[i := s]
    requires s.commitIndex == c.nodes[i].commitIndex && s.lastApplied == c.nodes[i].lastApplied
    requires s.applied == c.nodes[i].applied && s.term >= c.nodes[i].term && c.nodes[i].log <= s.log
    requires forall m :: m in d.msgs && m !in c.msgs ==> !m.AppendEntries?
    ensures CommitInv(d)
  {
    hide CommitInv, CommittedPrefix, Payloads, HistoryGrows, PrefixOf;
    OneCommit(c, i);
    var n := s.commitIndex;
    assert n <= |c.nodes[i].log|;
    assert s.log[..n] == c.nodes[i].log[..n];
    KeepsCommit(c, d, c.nodes[i], s);
    ChangeCommit(c, d, i);
  }

  lemma FollowerTickCommit(c: State, i: NodeId, due: bool)
    requires ElectionInv(c) && CommitInv(c) && i in c.nodes && c.nodes[i].role != Leader
    ensures CommitInv(ApplyTick(c, i, due))
  {
    hide ElectionInv, CommitInv, NodeCommitOk;
    var s, d := c.nodes[i], ApplyTick(c, i, due);
    var t := if due then BecomeCandidate(s).node else s;
    OneNode(c, i);
    OneCommit(c, i);
    assert HistoryGrows(c, d);
    CandidateCommit(c, d, s, t);
    AppliedCommit(d, t);
    ChangeCommit(c, d, i);
  }

  lemma CandidateCommit(c: State, d: State, s: NodeState, t: NodeState)
    requires HistoryGrows(c, d) && NodeCommitOk(c, s) && (t == s || t == BecomeCandidate(s).node)
    ensures NodeCommitOk(d, t)
  {
    hide CommittedPrefix, Payloads, HistoryGrows;
    KeepsCommit(c, d, s, t);
  }

  /** A follower that accepts a batch keeps its committed prefix, and commits only what its leader
      had committed and it has just been checked against. */
  lemma AcceptCommit(c: State, i: NodeId, m: Message, u: NodeState)
    requires Accepts(c, i, m, u) && CommitInv(c) && u == Accept(c.nodes[i], m)
    requires WellIndexed(u.log, 0) && u.snapIndex == 0 && m.term in c.elections
    requires u.commitIndex > c.nodes[i].commitIndex ==> Holds(u.log, c.elections[m.term].log, u.commitIndex)
    ensures NodeCommitOk(c, u)
  {
    hide Accepts, CommitInv, CommittedPrefix, Payloads, AppendAll, ElectionInv, RetentionInv, WellIndexed, Holds;
    AcceptKeepsCommit(c, i, m, u);
    AcceptParts(c, i, m, u);
    LastIsEnd(u.log, 0);
    if u.commitIndex > c.nodes[i].commitIndex {
      AcceptAdvances(c, i, m, u);
    }
  }

  lemma Unchanged(c: State)
    ensures HistoryGrows(c, c)
  {
  }

  // What was committed before is still there.
  lemma AcceptKeepsCommit(c: State, i: NodeId, m: Message, u: NodeState)
    requires Accepts(c, i, m, u) && CommitInv(c) && u == Accept(c.nodes[i], m)
    ensures NodeCommitOk(c, c.nodes[i].(log := u.log, disk := u.disk))
  {
    hide Accepts, CommitInv, RetentionInv, SafeInv, CommittedPrefix, Payloads, Spliced, LeaderLogsOk, Accept, ElectionInv, ElectionsGrow;
    AcceptFacts(c, i, m, u);
    AcceptParts(c, i, m, u);
    var s, leader := c.nodes[i], c.elections[m.term].log;
    OneCommit(c, i);
    assert SafeInv(c) && m in c.msgs by { AcceptSafe(c, i, m, u); }
    LeaderHasPrefix(c, s.log[..s.commitIndex], s.term, m.term);
    SplicedHolds(s.log, u.log, leader, m, s.commitIndex);
    Unchanged(c);
    KeepsCommit(c, c, s, s.(log := u.log, disk := u.disk));
  }

  // The follower's new commit index is within what the leader had committed.
  lemma AcceptAdvances(c: State, i: NodeId, m: Message, u: NodeState)
    requires Accepts(c, i, m, u) && CommitInv(c) && u == Accept(c.nodes[i], m)
    requires WellIndexed(u.log, 0) && u.snapIndex == 0 && u.commitIndex > c.nodes[i].commitIndex
    requires m.term in c.elections && Holds(u.log, c.elections[m.term].log, u.commitIndex)
    ensures u.commitIndex <= |u.log| && CommittedPrefix(c, u.log[..u.commitIndex], u.term)
  {
    hide Accepts, CommitInv, RetentionInv, SafeInv, CommittedPrefix, Payloads, Spliced, PrefixOf, AppendAll, LeaderLogsOk;
    AcceptFacts(c, i, m, u);
    AcceptParts(c, i, m, u);
    AcceptSafe(c, i, m, u);
    LastIsEnd(u.log, 0);
    var s, leader, n := c.nodes[i], c.elections[m.term].log, u.commitIndex;
    OneMsgCommit(c, m);
    assert u.log[..n] == leader[..n] <= leader[..m.leaderCommit];
    ShorterPrefix(c, leader[..m.leaderCommit], u.log[..n], m.term);
  }

  lemma AcceptSafe(c: State, i: NodeId, m: Message, u: NodeState)
    requires Accepts(c, i, m, u)
    ensures SafeInv(c) && m in c.msgs
  {
  }

  lemma OneMsgCommit(c: State, m: Message)
    requires CommitInv(c) && m in c.msgs
    ensures MsgCommitOk(c, m)
  {
  }

  // The handler of an AppendEntries that passes its checks.
  lemma AcceptIsHandler(s: NodeState, m: Message)
    requires m.AppendEntries? && m.term >= s.term && Consistent(Recognise(s, m), m)
    ensures HandleAppendEntries(s, m).node == Accept(Recognise(s, m), m) && HandleAppendEntries(s, m).sent[0].success
    ensures HandleAppendEntries(s, m).sent[0].term == s.term
    ensures Recognise(s, m).commitIndex == s.commitIndex && Recognise(s, m).log == s.log
    ensures Recognise(s, m).lastApplied == s.lastApplied && Recognise(s, m).applied == s.applied
    ensures Recognise(s, m).term == m.term && Recognise(s, m).role == Follower
  {
    hide Consistent, AppendAll;
  }

  lemma AcceptedCommit(c: State, m: Message)
    requires SafeInv(c) && RetentionInv(c) && CommitInv(c) && m in c.msgs && m.AppendEntries? && m.dst in c.nodes
    requires Honest(c, DoDeliver(m)) && m.term >= c.nodes[m.dst].term && Consistent(Recognise(c.nodes[m.dst], m), m)
    ensures CommitInv(ApplyAppendEntries(c, m))
  {
    hide ElectionInv, LogInv, BallotInv, RetentionInv, CommitInv, NodeCommitOk, Consistent, AppendAll, LeaderLogsOk, Recognise;
    var i, s, d := m.dst, c.nodes[m.dst], ApplyAppendEntries(c, m);
    var u, t := HandleAppendEntries(s, m).node, Recognise(s, m);
    var c1 := SetNode(c, i, t);
    AcceptIsHandler(s, m);
    OneMsg(c, m);
    OneNode(c, i);
    RecogniseSafe(c, m);
    NodeLogFacts(c, i);
    SameLogRetention(c, i, t);
    QuietCommit(c, c1, i, t);
    OneNode(c1, i);
    AcceptLog(c1, i, m, u);
    NodeLogFacts(SetNode(c1, i, u), i);
    AcceptCommit(c1, i, m, u);
    SameHistory(c1, d, u);
    assert d.nodes == c1.nodes[i := u];
    ChangeCommit(c1, d, i);
  }

  lemma AppendEntriesCommit(c: State, m: Message)
    requires SafeInv(c) && RetentionInv(c) && CommitInv(c) && m in c.msgs && m.AppendEntries? && m.dst in c.nodes
    requires Honest(c, DoDeliver(m))
    ensures CommitInv(ApplyAppendEntries(c, m))
  {
    hide SafeInv, RetentionInv, CommitInv, NodeCommitOk, Consistent, AppendAll, Honest;
    var s := c.nodes[m.dst];
    if m.term >= s.term && Consistent(Recognise(s, m), m) {
      AcceptedCommit(c, m);
    } else {
      assert HistoryGrows(c, ApplyAppendEntries(c, m));
      QuietCommit(c, ApplyAppendEntries(c, m), m.dst, HandleAppendEntries(s, m).node);
    }
  }

  lemma FreshCommit(c: State, s: NodeState)
    requires s.commitIndex == 0 && s.lastApplied == 0 && s.applied == []
    ensures NodeCommitOk(c, s)
  {
    hide PrefixOf;
    assert s.log[..0] == [];
  }

  lemma RestartCommit(c: State, i: NodeId)
    requires CommitInv(c) && i in c.nodes
    ensures CommitInv(SetNode(c, i, Restart(c.nodes[i])))
  {
    hide CommitInv, NodeCommitOk;
    FreshCommit(SetNode(c, i, Restart(c.nodes[i])), Restart(c.nodes[i]));
    ChangeCommit(c, SetNode(c, i, Restart(c.nodes[i])), i);
  }

  lemma StepHistory(c: State, a: Action)
    requires ElectionInv(c) && LogInv(c) && Enabled(c, a)
    ensures HistoryGrows(c, Apply(c, a))
  {
    hide ElectionInv, LogInv, ElectionsGrow;
    StepLog(c, a);
  }

  lemma StepCommit(c: State, a: Action)
    requires SafeInv(c) && RetentionInv(c) && CommitInv(c) && Enabled(c, a) && Honest(c, a)
    ensures CommitInv(Apply(c, a))
  {
    hide ElectionInv, LogInv, BallotInv, RetentionInv, CommitInv, HonestReport, HonestCommit, HistoryGrows, MsgCommitOk;
    var d := Apply(c, a);
    StepHistory(c, a);
    match a
    case DoTick(i, due) =>
      if c.nodes[i].role == Leader { LeaderTickCommit(c, i, due); } else { FollowerTickCommit(c, i, due); }
    case DoSubmit(i, data) =>
      if c.nodes[i].role == Leader { QuietCommit(c, d, i, d.nodes[i]); }
    case DoSend(i, k, count) =>
      var m := Slice(c.nodes[i], c.nodes[i].peers[k], count);
      MyCommitSent(c, i, m);
      MsgCommitGrows(c, d, m);
      OneCommit(c, i);
      SameHistory(c, d, c.nodes[i]);
      ChangeCommit(c, d, i);
    case DoRestart(i) => RestartCommit(c, i);
    case DoDeliver(m) =>
      match m {
        case RequestVote(_, _, _, _, _) => QuietCommit(c, d, m.dst, d.nodes[m.dst]);
        case VoteReply(_, _, _, _) => QuietCommit(c, d, m.dst, d.nodes[m.dst]);
        case AppendEntries(_, _, _, _, _, _, _) => AppendEntriesCommit(c, m);
        case AppendReply(_, _, _, _, _) => QuietCommit(c, d, m.dst, d.nodes[m.dst]);
      }
  }

  // The theorems

  ghost predicate IsHonestRun(states: seq<State>, actions: seq<Action>) {
    IsRun(states, actions) && forall k :: 0 <= k < |actions| ==> Honest(states[k], actions[k])
  }

  lemma {:induction false} RunCommit(states: seq<State>, actions: seq<Action>, k: nat)
    requires IsHonestRun(states, actions) && k < |states|
    ensures SafeInv(states[k]) && RetentionInv(states[k]) && CommitInv(states[k])
  {
    hide ElectionInv, LogInv, BallotInv, RetentionInv, CommitInv, Init, HonestReport, HonestCommit, Enabled, Apply;
    if k == 0 {
      var c := states[0];
      InitElection(c);
      InitLog(c);
      InitBallot(c);
      InitRetention(c);
      InitCommit(c);
    } else {
      RunCommit(states, actions, k - 1);
      var c, a := states[k - 1], actions[k - 1];
      StepElection(c, a);
      StepLog(c, a);
      StepBallot(c, a);
      StepRetention(c, a);
      StepCommit(c, a);
    }
  }

  lemma {:induction false} RunHistory(states: seq<State>, actions: seq<Action>, j: nat, k: nat)
    requires IsHonestRun(states, actions) && j <= k < |states|
    ensures HistoryGrows(states[j], states[k])
  {
    hide ElectionInv, LogInv, BallotInv, RetentionInv, CommitInv, Init, HonestReport, HonestCommit, Enabled, Apply;
    if j < k {
      RunHistory(states, actions, j, k - 1);
      RunCommit(states, actions, k - 1);
      StepHistory(states[k - 1], actions[k - 1]);
    }
  }

  /** Leader Completeness: whatever a node has committed by the end of any step, every leader of a
      later term, at any time of the run, has it. */
  lemma LeaderCompletenessTheorem(states: seq<State>, actions: seq<Action>, j: nat, k: nat, a: NodeId, b: NodeId)
    requires IsHonestRun(states, actions) && j < |states| && k < |states|
    requires a in states[j].nodes && b in states[k].nodes
    requires states[k].nodes[b].role == Leader && states[k].nodes[b].term > states[j].nodes[a].term
    ensures states[j].nodes[a].commitIndex <= |states[j].nodes[a].log|
    ensures states[j].nodes[a].log[..states[j].nodes[a].commitIndex] <= states[k].nodes[b].log
  {
    hide ElectionInv, LogInv, BallotInv, RetentionInv, CommitInv, CommittedPrefix, IsHonestRun;
    var s, r, top := states[j].nodes[a], states[k].nodes[b], |states| - 1;
    RunCommit(states, actions, j);
    RunCommit(states, actions, k);
    RunCommit(states, actions, top);
    RunHistory(states, actions, j, top);
    RunHistory(states, actions, k, top);
    OneCommit(states[j], a);
    LeaderFacts(states[k], b);
    OneLeaderLog(states[k], r.term);
    var p := s.log[..s.commitIndex];
    PrefixGrows(states[j], states[top], p, s.term, s.term);
    LeaderHasPrefix(states[top], p, s.term, r.term);
    var base := states[k].elections[r.term].base;
    assert states[top].elections[r.term].log[..base] == r.log[..base];
  }

  /** State Machine Safety: the payloads any two nodes have applied at the same index, at any two
      times of the run and across restarts, are the same. */
  lemma StateMachineSafetyTheorem(states: seq<State>, actions: seq<Action>, j: nat, k: nat, a: NodeId, b: NodeId, n: nat)
    requires IsHonestRun(states, actions) && j < |states| && k < |states|
    requires a in states[j].nodes && b in states[k].nodes
    requires n < |states[j].nodes[a].applied| && n < |states[k].nodes[b].applied|
    ensures states[j].nodes[a].applied[n] == states[k].nodes[b].applied[n]
  {
    hide ElectionInv, LogInv, BallotInv, RetentionInv, CommitInv, CommittedPrefix, IsHonestRun;
    var s, r, top := states[j].nodes[a], states[k].nodes[b], |states| - 1;
    RunCommit(states, actions, j);
    RunCommit(states, actions, k);
    RunCommit(states, actions, top);
    RunHistory(states, actions, j, top);
    RunHistory(states, actions, k, top);
    OneCommit(states[j], a);
    OneCommit(states[k], b);
    PrefixGrows(states[j], states[top], s.log[..s.commitIndex], s.term, s.term);
    PrefixGrows(states[k], states[top], r.log[..r.commitIndex], r.term, r.term);
    PrefixesAgree(states[top], s.log[..s.commitIndex], r.log[..r.commitIndex], s.term, r.term, n);
  }
}
