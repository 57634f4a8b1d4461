/** Leader Completeness, in every run in which what a follower reports and the leader counts is shared with the leader.
    An acknowledged entry stays in its follower's log unless the leader of some later term, not
    above the follower's, was elected without it; and a voter's log at the time of its vote has it
    unless such a leader existed below the term voted for. */
module Retention {

  import opened RaftTypes
  import opened RaftLog
  import opened RaftStep
  import opened Cluster
  import opened Quorums
  import opened ElectionSafety
  import opened Matching
  import opened Ballots

  ghost predicate SafeInv(c: State) { ElectionInv(c) && LogInv(c) && BallotInv(c) }

  ghost predicate Holds(log: Log, leader: Log, n: nat) {
    n <= |log| && n <= |leader| && log[..n] == leader[..n]
  }

  // a delivers an AppendEntries of a known leader, and the answer is success.
  ghost predicate Succeeds(c: State, a: Action) {
    && a.DoDeliver? && a.msg.AppendEntries? && a.msg.dst in c.nodes && a.msg.term in c.elections
    && HandleAppendEntries(c.nodes[a.msg.dst], a.msg).sent[0].success
  }

  // The prefix reported, if the leader will count the report, is shared with the leader.
  ghost predicate HonestReport(c: State, a: Action) {
    Succeeds(c, a) ==>
      var o := HandleAppendEntries(c.nodes[a.msg.dst], a.msg);
      o.sent[0].term == a.msg.term ==> Holds(o.node.log, c.elections[a.msg.term].log, o.sent[0].matchIndex)
  }

  // So is the prefix newly committed.
  ghost predicate HonestCommit(c: State, a: Action) {
    Succeeds(c, a) ==>
      var s, o := c.nodes[a.msg.dst], HandleAppendEntries(c.nodes[a.msg.dst], a.msg);
      o.node.commitIndex > s.commitIndex ==> Holds(o.node.log, c.elections[a.msg.term].log, o.node.commitIndex)
  }

  /** The run hypothesis, for one step. */
  ghost predicate Honest(c: State, a: Action) {
    HonestReport(c, a) && HonestCommit(c, a)
  }

  /** A stronger one: the index a success reports is the one just checked. */
  ghost predicate Tight(c: State, a: Action) {
    a.DoDeliver? && a.msg.AppendEntries? && a.msg.dst in c.nodes ==>
      var o := HandleAppendEntries(c.nodes[a.msg.dst], a.msg);
      o.sent[0].success ==> |o.node.log| <= a.msg.prevLogIndex + |a.msg.entries|
  }

  ghost predicate HasAck(acks: set<Ack>, p: NodeId, t: nat, n: nat) {
    exists a :: a in acks && a.node == p && a.term == t && a.index >= n
  }

  // p has had the n first entries of the log of t's leader, the n-th being t's own.
  ghost predicate Held(els: Elections, acks: set<Ack>, p: NodeId, t: nat, n: nat) {
    && t in els && els[t].base < n <= |els[t].log|
    && (p == els[t].leader || HasAck(acks, p, t, n))
  }

  // The leader of u was elected without the n first entries of t's leader.
  ghost predicate Deviates(els: Elections, u: nat, t: nat, n: nat) {
    && u in els && t in els && els[u].base <= |els[u].log|
    && !Holds(els[u].log[..els[u].base], els[t].log, n)
  }

  ghost predicate Excused(els: Elections, t: nat, n: nat, bound: nat) {
    exists u :: t < u <= bound && Deviates(els, u, t, n)
  }

  ghost predicate Kept(els: Elections, log: Log, t: nat, n: nat, bound: nat) {
    t in els && (Holds(log, els[t].log, n) || Excused(els, t, n, bound))
  }

  ghost predicate NodesKeep(nodes: Nodes, els: Elections, acks: set<Ack>) {
    forall p, t: nat, n: nat :: p in nodes && Held(els, acks, p, t, n) ==> Kept(els, nodes[p].log, t, n, nodes[p].term)
  }

  ghost predicate VotersKept(els: Elections, acks: set<Ack>, votes: set<Vote>) {
    forall v, t: nat, n: nat :: v in votes && !v.late && Held(els, acks, v.voter, t, n) && t < v.term ==>
      Kept(els, v.log, t, n, v.term - 1)
  }

  ghost predicate AckOk(nodes: Nodes, els: Elections, a: Ack) {
    && a.node in nodes && a.term in els && a.index <= |els[a.term].log|
    && a.term <= nodes[a.node].term
    && (a.term == nodes[a.node].term ==> Holds(nodes[a.node].log, els[a.term].log, a.index))
  }

  ghost predicate AcksOk(nodes: Nodes, els: Elections, acks: set<Ack>) {
    forall a :: a in acks ==> AckOk(nodes, els, a)
  }

  // A leader's view of a peer: never beyond its own log, and backed by an acknowledgement.
  ghost predicate ProgressOk(acks: set<Ack>, s: NodeState) {
    s.role == Leader ==> forall k :: 0 <= k < |s.peers| ==>
      && s.peers[k].nextIndex <= |s.log| + 1
      && (s.peers[k].matchIndex > 0 ==> HasAck(acks, s.peers[k].id, s.term, s.peers[k].matchIndex))
  }

  ghost predicate LeadersProgress(nodes: Nodes, acks: set<Ack>) {
    forall i :: i in nodes ==> ProgressOk(acks, nodes[i])
  }

  ghost predicate InsideLeader(els: Elections, m: Message)
    requires m.AppendEntries?
  {
    m.term in els && m.prevLogIndex + |m.entries| <= |els[m.term].log|
    && m.prevLogTerm == TermAt(els[m.term].log, 0, 0, m.prevLogIndex)
  }

  ghost predicate ReplyBacked(els: Elections, acks: set<Ack>, m: Message)
    requires m.AppendReply?
  {
    m.success ==> Overtaken(els, m.dst, m.term) || Acknowledged(els, acks, m)
  }

  ghost predicate Acknowledged(els: Elections, acks: set<Ack>, m: Message)
    requires m.AppendReply?
  {
    m.term in els && els[m.term].leader == m.dst && Ack(m.src, m.term, m.matchIndex) in acks
  }

  // The addressee has led a later term, so it throws this reply away.
  ghost predicate Overtaken(els: Elections, dst: NodeId, term: nat) {
    exists t :: t in els && t > term && els[t].leader == dst
  }

  ghost predicate TrafficOk(els: Elections, acks: set<Ack>, msgs: set<Message>) {
    && (forall m :: m in msgs && m.AppendEntries? ==> InsideLeader(els, m))
    && (forall m :: m in msgs && m.AppendReply? ==> ReplyBacked(els, acks, m))
  }

  ghost predicate RetentionInv(c: State) {
    && NodesKeep(c.nodes, c.elections, c.acks) && VotersKept(c.elections, c.acks, c.votes)
    && AcksOk(c.nodes, c.elections, c.acks) && LeadersProgress(c.nodes, c.acks)
    && TrafficOk(c.elections, c.acks, c.msgs)
  }

  lemma InitRetention(c: State)
    requires Init(c)
    ensures RetentionInv(c)
  {
  }

  // Leader Completeness from the invariant

  ghost function Holders(c: State, t: nat, n: nat): set<NodeId> {
    set p | p in c.nodes && Held(c.elections, c.acks, p, t, n)
  }

  /** Entry n of t's leader, of its own term, is on a majority. */
  ghost predicate Committed(c: State, t: nat, n: nat) {
    && t in c.elections && c.elections[t].base < n <= |c.elections[t].log|
    && 2 * |Holders(c, t, n)| > |c.nodes|
  }

  /** Every later leader was elected with the whole committed prefix. */
  lemma {:induction false} LeaderCompleteness(c: State, t: nat, n: nat, u: nat)
    requires SafeInv(c) && RetentionInv(c) && Committed(c, t, n)
    requires u in c.elections && t < u
    ensures c.elections[u].base <= |c.elections[u].log|
    ensures Holds(c.elections[u].log[..c.elections[u].base], c.elections[t].log, n)
  {
    hide MsgsOk, CandidatesOk, NodesOk, VotesOk, TrafficOk, LeadersProgress, AcksOk, NodesKeep, SlicesOk,
      LeadersCurrent, NodeLogsOk, Held, HasVote, Anchored, Holds;
    var e := c.elections[u];
    assert LeaderLogOk(c.elections, u, e);
    assert ElectionOk(c.nodes, c.votes, u, e);
    var p := MajoritiesMeet(Holders(c, t, n), e.quorum, c.nodes.Keys);
    assert HasEarlyVote(c.votes, p, e.leader, u);
    var v :| v in c.votes && v.voter == p && v.cand == e.leader && v.term == u && !v.late;
    assert Kept(c.elections, v.log, t, n, u - 1);
    forall w | t < w < u ensures !Deviates(c.elections, w, t, n) {
      if w in c.elections { LeaderCompleteness(c, t, n, w); }
    }
    assert RequestOk(c.nodes, c.elections, e.leader, u, v.lastIndex, v.lastTerm);
    VotedWith(c, t, n, u, v);
  }

  /** The voter had the prefix, and the candidate's log was at least as up to date. */
  lemma VotedWith(c: State, t: nat, n: nat, u: nat, v: Vote)
    requires LogInv(c) && t in c.elections && u in c.elections && t < u
    requires c.elections[t].base < n <= |c.elections[t].log|
    requires VoteLogOk(c.elections, v) && !v.late && v.term == u && Holds(v.log, c.elections[t].log, n)
    requires c.elections[u].base <= |c.elections[u].log|
    requires v.lastIndex == c.elections[u].base
    requires v.lastTerm == LastTerm(c.elections[u].log[..c.elections[u].base], 0)
    requires forall w :: t < w < u ==> !Deviates(c.elections, w, t, n)
    ensures Holds(c.elections[u].log[..c.elections[u].base], c.elections[t].log, n)
  {
    hide SlicesOk, LeadersCurrent, NodeLogsOk, Holds;
    var els := c.elections;
    var mine := els[u].log[..els[u].base];
    assert LeaderLogOk(els, u, els[u]);
    AtLeastTerm(els, t, n, v.log);
    AnchoredPrefix(els, els[u].log, els[u].base);
    if v.lastTerm == LastTerm(v.log, 0) {
      SameLastTerm(els, mine, v.log, els[t].log, n);
    } else {
      assert !Deviates(els, v.lastTerm, t, n);
      HigherLastTerm(els, mine, els[t].log, n);
    }
  }

  lemma AtLeastTerm(els: Elections, t: nat, n: nat, log: Log)
    requires LeaderLogsOk(els) && Anchored(els, log) && t in els
    requires els[t].base < n <= |els[t].log| && Holds(log, els[t].log, n)
    ensures LastTerm(log, 0) >= t > 0
  {
    AnchoredSorted(els, log);
    assert LeaderLogOk(els, t, els[t]);
    assert log[n - 1] == log[..n][n - 1] == els[t].log[..n][n - 1] == els[t].log[n - 1];
  }

  lemma SameLastTerm(els: Elections, mine: Log, log: Log, leader: Log, n: nat)
    requires Anchored(els, mine) && Anchored(els, log) && Holds(log, leader, n)
    requires LastTerm(mine, 0) == LastTerm(log, 0) > 0 && |mine| >= |log|
    ensures Holds(mine, leader, n)
  {
    LastAnchored(els, mine);
    LastAnchored(els, log);
    var w := LastTerm(log, 0);
    assert mine[..n] == els[w].log[..n] == log[..n];
  }

  lemma HigherLastTerm(els: Elections, mine: Log, leader: Log, n: nat)
    requires LeaderLogsOk(els) && Anchored(els, mine) && mine != []
    requires var w := LastTerm(mine, 0);
             w in els && els[w].base <= |els[w].log| && Holds(els[w].log[..els[w].base], leader, n)
    ensures Holds(mine, leader, n)
  {
    var w := LastTerm(mine, 0);
    LastAnchored(els, mine);
    assert LeaderLogOk(els, w, els[w]);
    assert els[w].log[|mine| - 1].term == w;
    assert els[w].log[..els[w].base][..n] == els[w].log[..n] == mine[..n];
  }

  lemma LastAnchored(els: Elections, log: Log)
    requires Anchored(els, log) && log != []
    ensures LastTerm(log, 0) in els && log <= els[LastTerm(log, 0)].log
  {
    assert log[..|log| - 1 + 1] == log;
  }

  // What each update keeps

  lemma KeptGrows(els: Elections, els': Elections, log: Log, t: nat, n: nat, bound: nat, bound': nat)
    requires ElectionsGrow(els, els') && LeaderLogsOk(els) && bound <= bound'
    requires t in els && n <= |els[t].log| && Kept(els, log, t, n, bound)
    ensures Kept(els', log, t, n, bound')
  {
    assert els'[t].log[..n] == els[t].log[..n];
    if !Holds(log, els[t].log, n) {
      var u :| t < u <= bound && Deviates(els, u, t, n);
      assert LeaderLogOk(els, u, els[u]);
      assert els'[u].log[..els[u].base] == els[u].log[..els[u].base];
      assert Deviates(els', u, t, n);
    }
  }

  lemma AckFacts(c: State, p: NodeId, t: nat, n: nat)
    requires ElectionInv(c) && AcksOk(c.nodes, c.elections, c.acks) && p in c.nodes
    requires Held(c.elections, c.acks, p, t, n)
    ensures t <= c.nodes[p].term
    ensures p != c.elections[t].leader && t == c.nodes[p].term ==> Holds(c.nodes[p].log, c.elections[t].log, n)
  {
    ElectionFacts(c, t);
    if p != c.elections[t].leader {
      var a :| a in c.acks && a.node == p && a.term == t && a.index >= n;
      assert AckOk(c.nodes, c.elections, a);
      HoldsLess(c.nodes[p].log, c.elections[t].log, a.index, n);
    }
  }

  lemma HoldsLess(log: Log, leader: Log, n: nat, m: nat)
    requires m <= n
    ensures Holds(log, leader, n) ==> Holds(log, leader, m)
  {
    if Holds(log, leader, n) { assert log[..m] == log[..n][..m] == leader[..n][..m] == leader[..m]; }
  }

  /** A node keeps its log while its term may rise. */
  lemma SameLogRetention(c: State, i: NodeId, s: NodeState)
    requires LeaderLogsOk(c.elections) && RetentionInv(c) && i in c.nodes
    requires s.log == c.nodes[i].log && s.term >= c.nodes[i].term && ProgressOk(c.acks, s)
    ensures RetentionInv(SetNode(c, i, s))
  {
    hide Kept, Held, TrafficOk, VotersKept, ProgressOk, Holds;
    var d := SetNode(c, i, s);
    forall p, t: nat, n: nat | p in d.nodes && Held(d.elections, d.acks, p, t, n)
      ensures Kept(d.elections, d.nodes[p].log, t, n, d.nodes[p].term)
    {
      assert Kept(c.elections, c.nodes[p].log, t, n, c.nodes[p].term);
      HeldFacts(c.elections, c.acks, p, t, n);
      KeptGrows(c.elections, c.elections, c.nodes[p].log, t, n, c.nodes[p].term, d.nodes[p].term);
    }
    forall a | a in c.acks ensures AckOk(d.nodes, d.elections, a) { assert AckOk(c.nodes, c.elections, a); }
  }

  lemma HeldFacts(els: Elections, acks: set<Ack>, p: NodeId, t: nat, n: nat)
    requires Held(els, acks, p, t, n)
    ensures t in els && els[t].base < n <= |els[t].log| && ElectionsGrow(els, els)
  {
  }

  lemma SendRetention(c: State, out: seq<Message>)
    requires RetentionInv(c)
    requires forall m :: m in out ==>
      (m.AppendEntries? ==> InsideLeader(c.elections, m)) && (m.AppendReply? ==> ReplyBacked(c.elections, c.acks, m))
    ensures RetentionInv(Send(c, out))
  {
    hide NodesKeep, VotersKept, AcksOk, LeadersProgress, InsideLeader, ReplyBacked;
  }

  /** A vote is recorded with the voter's current log and term. */
  lemma VoteRetention(c: State, voter: NodeId, cand: NodeId, term: nat, li: nat, lt: nat, log: Log)
    requires RetentionInv(c) && voter in c.nodes && c.nodes[voter].term == term && c.nodes[voter].log == log
    ensures RetentionInv(AddVote(c, voter, cand, term, li, lt, log))
  {
    hide Held, TrafficOk, AcksOk, LeadersProgress, Holds;
    var d := AddVote(c, voter, cand, term, li, lt, log);
    var added := Vote(voter, cand, term, li, lt, log, term in c.elections);
    forall v, t: nat, n: nat | v in d.votes && !v.late && Held(d.elections, d.acks, v.voter, t, n) && t < v.term
      ensures Kept(d.elections, v.log, t, n, v.term - 1)
    {
      if v == added {
        assert Kept(c.elections, log, t, n, term);
        forall u | t < u <= term && Deviates(c.elections, u, t, n) ensures u <= term - 1 { assert u in c.elections; }
      }
    }
  }

  // r is the log after a success.
  ghost predicate Spliced(log: Log, r: Log, leader: Log, m: Message) {
    && m.AppendEntries? && m.prevLogIndex <= |log| && m.prevLogIndex + |m.entries| <= |leader|
    && m.entries == leader[m.prevLogIndex..m.prevLogIndex + |m.entries|]
    && r == Splice(log, m.prevLogIndex, m.entries)
  }

  lemma SplicedLog(els: Elections, s: NodeState, m: Message, r: Log)
    requires LeaderLogsOk(els) && NodeLogOk(els, s) && s.snapIndex == 0 && s.snapTerm == 0
    requires m.AppendEntries? && SliceOf(els, m) && InsideLeader(els, m) && Consistent(s, m)
    requires r == AppendAll(s.log, 0, m.entries)
    ensures Spliced(s.log, r, els[m.term].log, m)
  {
    hide AppendAll, Splice;
    Accepted(els, s, m);
    assert LeaderLogOk(els, m.term, els[m.term]);
    AnchoredSorted(els, els[m.term].log);
    AnchoredSorted(els, s.log);
  }

  lemma SplicedHolds(log: Log, r: Log, leader: Log, m: Message, n: nat)
    requires Spliced(log, r, leader, m)
    ensures Holds(log, leader, n) ==> Holds(r, leader, n)
  {
    if Holds(log, leader, n) { SpliceKeepsShared(log, leader, m.prevLogIndex, |m.entries|, n); }
  }

  /** Whatever the follower still owed to earlier terms, it owes now, or its new leader is the excuse. */
  lemma AcceptKeeps(els: Elections, log: Log, r: Log, m: Message, t: nat, n: nat)
    requires LeaderLogsOk(els) && m.AppendEntries? && m.term in els && t in els && t <= m.term
    requires Spliced(log, r, els[m.term].log, m)
    requires n <= |els[t].log| && Kept(els, log, t, n, m.term)
    ensures Kept(els, r, t, n, m.term)
  {
    hide Spliced;
    var e := els[m.term];
    assert LeaderLogOk(els, m.term, e);
    if Holds(log, els[t].log, n) {
      if t < m.term && Deviates(els, m.term, t, n) {
        assert Excused(els, t, n, m.term);
      } else {
        assert Holds(e.log, els[t].log, n) by {
          if t < m.term { assert e.log[..e.base][..n] == e.log[..n]; }
        }
        SplicedHolds(log, r, e.log, m, n);
      }
    }
  }

  // Node i accepts m, which leaves it in state u.
  ghost predicate Accepts(c: State, i: NodeId, m: Message, u: NodeState) {
    && SafeInv(c) && RetentionInv(c) && i in c.nodes && m in c.msgs && m.AppendEntries? && m.dst == i
    && c.nodes[i].term == m.term == u.term && Consistent(c.nodes[i], m) && u.role == Follower
    && u.log == AppendAll(c.nodes[i].log, 0, m.entries)
  }

  // The acknowledgements after that: one more, if the answer counts.
  ghost predicate NewAcks(c: State, i: NodeId, m: Message, u: NodeState, acks: set<Ack>) {
    || acks == c.acks
    || (&& acks == c.acks + {Ack(i, m.term, |u.log|)} && m.term in c.elections
        && Holds(u.log, c.elections[m.term].log, |u.log|))
  }

  lemma AcceptFacts(c: State, i: NodeId, m: Message, u: NodeState)
    requires Accepts(c, i, m, u)
    ensures m.term in c.elections && c.elections[m.term].leader == m.src != i
    ensures Spliced(c.nodes[i].log, u.log, c.elections[m.term].log, m)
    ensures LeaderLogsOk(c.elections)
  {
    hide Spliced, AppendAll, LeaderLogOk, MsgsOk, BallotInv, NodesKeep, VotersKept, AcksOk, LeadersProgress;
    OneMsg(c, m);
    OneNode(c, i);
    NodeLogFacts(c, i);
    SplicedLog(c.elections, c.nodes[i], m, u.log);
  }

  lemma AcceptParts(c: State, i: NodeId, m: Message, u: NodeState)
    requires Accepts(c, i, m, u)
    ensures ElectionInv(c) && RetentionInv(c) && i in c.nodes && m.AppendEntries?
    ensures c.nodes[i].term == m.term == u.term && u.role == Follower
  {
  }

  lemma OldHeld(els: Elections, acks: set<Ack>, a: Ack, p: NodeId, t: nat, n: nat)
    requires Held(els, acks + {a}, p, t, n)
    ensures Held(els, acks, p, t, n) || (p == a.node && t == a.term && n <= a.index)
  {
  }

  lemma AcceptKept(c: State, i: NodeId, m: Message, u: NodeState, acks: set<Ack>, p: NodeId, t: nat, n: nat)
    requires Accepts(c, i, m, u) && NewAcks(c, i, m, u, acks) && p in c.nodes && Held(c.elections, acks, p, t, n)
    ensures Kept(c.elections, c.nodes[i := u][p].log, t, n, c.nodes[i := u][p].term)
  {
    hide Accepts, ElectionInv, LeaderLogsOk, TrafficOk, VotersKept, LeadersProgress, AcksOk, Held, Kept, Spliced;
    AcceptFacts(c, i, m, u);
    AcceptParts(c, i, m, u);
    var els := c.elections;
    HeldFacts(els, acks, p, t, n);
    if Held(els, c.acks, p, t, n) {
      assert Kept(els, c.nodes[p].log, t, n, c.nodes[p].term);
      if p == i {
        AckFacts(c, i, t, n);
        AcceptKeeps(els, c.nodes[i].log, u.log, m, t, n);
      }
    } else {
      OldHeld(els, c.acks, Ack(i, m.term, |u.log|), p, t, n);
      assert u.log[..n] == u.log[..|u.log|][..n];
      HoldsIsKept(els, u.log, t, n, u.term);
    }
  }

  lemma HoldsIsKept(els: Elections, log: Log, t: nat, n: nat, bound: nat)
    requires t in els && Holds(log, els[t].log, n)
    ensures Kept(els, log, t, n, bound)
  {
  }

  lemma AcceptNodes(c: State, i: NodeId, m: Message, u: NodeState, acks: set<Ack>)
    requires Accepts(c, i, m, u) && NewAcks(c, i, m, u, acks)
    ensures NodesKeep(c.nodes[i := u], c.elections, acks)
  {
    var els, nodes := c.elections, c.nodes[i := u];
    forall p, t: nat, n: nat | p in nodes && Held(els, acks, p, t, n)
      ensures Kept(els, nodes[p].log, t, n, nodes[p].term)
    {
      hide *;
      AcceptKept(c, i, m, u, acks, p, t, n);
    }
  }

  lemma AcceptVotes(c: State, i: NodeId, m: Message, u: NodeState, acks: set<Ack>)
    requires Accepts(c, i, m, u) && NewAcks(c, i, m, u, acks)
    ensures VotersKept(c.elections, acks, c.votes)
  {
    hide AppendAll, LogInv, BallotInv, Consistent, LeaderLogOk, AcksOk, TrafficOk, NodesKeep, LeadersProgress, Kept,
      NodesOk, MsgsOk, ElectionsOk, CandidatesOk, Holds;
    var els := c.elections;
    forall v, t: nat, n: nat | v in c.votes && !v.late && Held(els, acks, v.voter, t, n) && t < v.term
      ensures Kept(els, v.log, t, n, v.term - 1)
    {
      assert VoteOk(c.nodes, els, v);
      assert Held(els, c.acks, v.voter, t, n);
    }
  }

  lemma AcceptAcks(c: State, i: NodeId, m: Message, u: NodeState, acks: set<Ack>)
    requires AcksOk(c.nodes, c.elections, c.acks) && i in c.nodes && m.AppendEntries?
    requires c.nodes[i].term == m.term == u.term && NewAcks(c, i, m, u, acks)
    requires m.term in c.elections && Spliced(c.nodes[i].log, u.log, c.elections[m.term].log, m)
    ensures AcksOk(c.nodes[i := u], c.elections, acks)
  {
    hide Spliced;
    var els := c.elections;
    forall a | a in acks ensures AckOk(c.nodes[i := u], els, a) {
      assert a in c.acks ==> AckOk(c.nodes, els, a);
      SplicedHolds(c.nodes[i].log, u.log, els[m.term].log, m, a.index);
    }
  }

  lemma AcceptProgress(nodes: Nodes, acks: set<Ack>, more: set<Ack>, i: NodeId, u: NodeState)
    requires LeadersProgress(nodes, acks) && acks <= more && i in nodes && u.role == Follower
    ensures LeadersProgress(nodes[i := u], more)
  {
    forall j | j in nodes && j != i ensures ProgressOk(more, nodes[j]) { MoreAcks(acks, more, nodes[j]); }
  }

  lemma AcceptTraffic(els: Elections, acks: set<Ack>, more: set<Ack>, msgs: set<Message>)
    requires TrafficOk(els, acks, msgs) && acks <= more
    ensures TrafficOk(els, more, msgs)
  {
    forall r | r in msgs && r.AppendReply? ensures ReplyBacked(els, more, r) { assert ReplyBacked(els, acks, r); }
  }

  lemma MoreAcks(acks: set<Ack>, more: set<Ack>, s: NodeState)
    requires acks <= more && ProgressOk(acks, s)
    ensures ProgressOk(more, s)
  {
  }

  lemma AcceptRetention(c: State, i: NodeId, m: Message, u: NodeState, acks: set<Ack>)
    requires Accepts(c, i, m, u) && NewAcks(c, i, m, u, acks)
    ensures RetentionInv(SetNode(c, i, u).(acks := acks))
    ensures m.term in c.elections && c.elections[m.term].leader == m.src
  {
    hide Accepts, NodesKeep, VotersKept, AcksOk, LeadersProgress, TrafficOk, Spliced, LeaderLogsOk, Holds;
    assert RetentionInv(c) && i in c.nodes && m.AppendEntries? && c.nodes[i].term == m.term == u.term
           && u.role == Follower by { AcceptParts(c, i, m, u); }
    AcceptFacts(c, i, m, u);
    AcceptNodes(c, i, m, u, acks);
    AcceptVotes(c, i, m, u, acks);
    AcceptAcks(c, i, m, u, acks);
    AcceptProgress(c.nodes, c.acks, acks, i, u);
    AcceptTraffic(c.elections, c.acks, acks, c.msgs);
  }

  // Node i, at term T, leads T and takes the longer log t.log, recorded in els.
  ghost predicate Grown(c: State, i: NodeId, t: NodeState, els: Elections) {
    && ElectionsGrow(c.elections, els) && i in c.nodes
    && t.term == c.nodes[i].term && t.term in els && els[t.term].leader == i && els[t.term].log == t.log
    && c.nodes[i].log <= t.log
    && (forall u :: u in els && u != t.term ==> u in c.elections && els[u] == c.elections[u])
  }

  lemma GrownHeld(c: State, i: NodeId, t: NodeState, els: Elections, p: NodeId, u: nat, n: nat)
    requires Grown(c, i, t, els) && AcksOk(c.nodes, c.elections, c.acks) && Held(els, c.acks, p, u, n)
    requires !(p == i && u == t.term)
    ensures Held(c.elections, c.acks, p, u, n)
  {
    if u == t.term {
      var a :| a in c.acks && a.node == p && a.term == u && a.index >= n;
      assert AckOk(c.nodes, c.elections, a);
    }
  }

  lemma GrownKept(c: State, i: NodeId, t: NodeState, els: Elections, p: NodeId, u: nat, n: nat)
    requires Grown(c, i, t, els) && LeaderLogsOk(c.elections) && AcksOk(c.nodes, c.elections, c.acks)
    requires NodesKeep(c.nodes, c.elections, c.acks) && p in c.nodes && Held(els, c.acks, p, u, n)
    ensures Kept(els, c.nodes[i := t][p].log, u, n, c.nodes[i := t][p].term)
  {
    hide LeaderLogsOk, AcksOk, Excused;
    if p == i && u == t.term {
      assert Holds(t.log, els[u].log, n);
    } else {
      GrownHeld(c, i, t, els, p, u, n);
      var s := c.nodes[p];
      assert Kept(c.elections, s.log, u, n, s.term);
      KeptGrows(c.elections, els, s.log, u, n, s.term, s.term);
      if p == i && Holds(s.log, els[u].log, n) { assert t.log[..n] == s.log[..n]; }
    }
  }

  lemma GrownVoters(c: State, i: NodeId, t: NodeState, els: Elections)
    requires Grown(c, i, t, els) && LeaderLogsOk(c.elections) && AcksOk(c.nodes, c.elections, c.acks)
    requires VotersKept(c.elections, c.acks, c.votes) && VotesOk(c.nodes, c.elections, c.votes)
    ensures VotersKept(els, c.acks, c.votes)
  {
    hide Grown, LeaderLogsOk, AcksOk, Held, Kept;
    forall v, u: nat, n: nat | v in c.votes && !v.late && Held(els, c.acks, v.voter, u, n) && u < v.term
      ensures Kept(els, v.log, u, n, v.term - 1)
    {
      assert VoteOk(c.nodes, c.elections, v);
      assert i in c.nodes && t.term == c.nodes[i].term && ElectionsGrow(c.elections, els) by { GrownParts(c, i, t, els); }
      GrownHeld(c, i, t, els, v.voter, u, n);
      HeldFacts(c.elections, c.acks, v.voter, u, n);
      KeptGrows(c.elections, els, v.log, u, n, v.term - 1, v.term - 1);
    }
  }

  lemma GrownParts(c: State, i: NodeId, t: NodeState, els: Elections)
    requires Grown(c, i, t, els)
    ensures i in c.nodes && t.term == c.nodes[i].term && ElectionsGrow(c.elections, els)
  {
  }

  lemma GrownRest(c: State, i: NodeId, t: NodeState, els: Elections)
    requires Grown(c, i, t, els) && AcksOk(c.nodes, c.elections, c.acks) && TrafficOk(c.elections, c.acks, c.msgs)
    requires LeadersProgress(c.nodes, c.acks) && ProgressOk(c.acks, t)
    ensures AcksOk(c.nodes[i := t], els, c.acks) && TrafficOk(els, c.acks, c.msgs)
    ensures LeadersProgress(c.nodes[i := t], c.acks)
  {
    hide ProgressOk;
    forall a | a in c.acks ensures AckOk(c.nodes[i := t], els, a) {
      assert AckOk(c.nodes, c.elections, a);
      var idx := a.index;
      assert els[a.term].log[..idx] == c.elections[a.term].log[..idx];
    }
    forall m | m in c.msgs && m.AppendEntries? ensures InsideLeader(els, m) { assert InsideLeader(c.elections, m); }
    forall m | m in c.msgs && m.AppendReply? ensures ReplyBacked(els, c.acks, m) {
      assert ReplyBacked(c.elections, c.acks, m);
    }
  }

  lemma GrownRetention(c: State, i: NodeId, t: NodeState, els: Elections)
    requires ElectionInv(c) && LogInv(c) && RetentionInv(c) && Grown(c, i, t, els) && ProgressOk(c.acks, t)
    ensures RetentionInv(SetNode(c, i, t).(elections := els))
  {
    hide Grown, NodesKeep, VotersKept, AcksOk, LeadersProgress, TrafficOk, LeaderLogsOk, VotesOk, ProgressOk;
    GrownRest(c, i, t, els);
    GrownVoters(c, i, t, els);
    assert NodesKeep(c.nodes[i := t], els, c.acks) by { GrownNodes(c, i, t, els); }
  }

  lemma GrownNodes(c: State, i: NodeId, t: NodeState, els: Elections)
    requires Grown(c, i, t, els) && LeaderLogsOk(c.elections) && AcksOk(c.nodes, c.elections, c.acks)
    requires NodesKeep(c.nodes, c.elections, c.acks)
    ensures NodesKeep(c.nodes[i := t], els, c.acks)
  {
    forall p, u: nat, n: nat | p in c.nodes[i := t] && Held(els, c.acks, p, u, n)
      ensures Kept(els, c.nodes[i := t][p].log, u, n, c.nodes[i := t][p].term)
    {
      GrownParts(c, i, t, els);
      hide *;
      GrownKept(c, i, t, els, p, u, n);
    }
  }

  // Every action with an honest report keeps the invariant.

  lemma OneProgress(c: State, i: NodeId)
    requires RetentionInv(c) && i in c.nodes
    ensures ProgressOk(c.acks, c.nodes[i])
  {
  }

  lemma SliceInside(c: State, i: NodeId, k: nat, count: nat)
    requires ElectionInv(c) && LogInv(c) && RetentionInv(c) && i in c.nodes && c.nodes[i].role == Leader
    requires k < |c.nodes[i].peers| && CanSlice(c.nodes[i], c.nodes[i].peers[k], count)
    ensures InsideLeader(c.elections, Slice(c.nodes[i], c.nodes[i].peers[k], count))
  {
    hide ElectionInv, LogInv, RetentionInv;
    LeaderFacts(c, i);
    OneNode(c, i);
    OneProgress(c, i);
  }

  lemma LeaderTickRetention(c: State, i: NodeId, due: bool)
    requires ElectionInv(c) && LogInv(c) && RetentionInv(c) && i in c.nodes && c.nodes[i].role == Leader
    ensures RetentionInv(ApplyTick(c, i, due))
  {
    hide ElectionInv, LogInv, RetentionInv, InsideLeader, LeaderLogsOk;
    var s, o := c.nodes[i], Tick(c.nodes[i], due);
    ApplyFrame(LeaderTick(s, due).node);
    NodeLogFacts(c, i);
    OneProgress(c, i);
    SameLogRetention(c, i, o.node);
    forall m | m in o.sent ensures m.AppendEntries? && InsideLeader(c.elections, m) {
      var k :| 0 <= k < |s.peers| && m == Slice(s, s.peers[k], 0);
      SliceInside(c, i, k, 0);
    }
    SendRetention(SetNode(c, i, o.node), o.sent);
  }

  lemma FollowerTickRetention(c: State, i: NodeId, due: bool)
    requires LogInv(c) && RetentionInv(c) && i in c.nodes && c.nodes[i].role != Leader
    ensures RetentionInv(ApplyTick(c, i, due))
  {
    hide LogInv, RetentionInv, LeaderLogsOk;
    var s, o := c.nodes[i], Tick(c.nodes[i], due);
    ApplyFrame(if due then BecomeCandidate(s).node else s);
    NodeLogFacts(c, i);
    SameLogRetention(c, i, o.node);
    var c1 := SetNode(c, i, o.node);
    SendRetention(c1, o.sent);
    if due { VoteRetention(Send(c1, o.sent), i, i, o.node.term, MyLastIndex(s), MyLastTerm(s), s.log); }
  }

  lemma RequestVoteRetention(c: State, m: Message)
    requires LogInv(c) && RetentionInv(c) && m.RequestVote? && m.dst in c.nodes
    ensures RetentionInv(ApplyRequestVote(c, m))
  {
    hide LogInv, RetentionInv, LeaderLogsOk;
    var o := HandleRequestVote(c.nodes[m.dst], m);
    NodeLogFacts(c, m.dst);
    OneProgress(c, m.dst);
    SameLogRetention(c, m.dst, o.node);
    var c1 := Send(SetNode(c, m.dst, o.node), o.sent);
    SendRetention(SetNode(c, m.dst, o.node), o.sent);
    if o.sent[0].granted {
      VoteRetention(c1, m.dst, m.src, m.term, m.lastLogIndex, m.lastLogTerm, o.node.log);
    }
  }

  lemma VoteReplyRetention(c: State, m: Message)
    requires SafeInv(c) && RetentionInv(c) && m in c.msgs && m.VoteReply? && m.dst in c.nodes
    ensures RetentionInv(ApplyVoteReply(c, m))
  {
    hide ElectionInv, LogInv, BallotInv, RetentionInv, LeaderLogsOk;
    var i, s, t := m.dst, c.nodes[m.dst], HandleVoteReply(c.nodes[m.dst], m);
    NodeLogFacts(c, i);
    OneProgress(c, i);
    if t.role == Leader && s.role != Leader {
      var k := PeerIndex(s.peers, m.src);
      GrantIsExact(c, m);
      WinElection(c, i, k);
      OneNode(c, i);
      LastIsEnd(s.log, 0);
      GrownRetention(c, i, t, ApplyVoteReply(c, m).elections);
    } else {
      SameLogRetention(c, i, t);
    }
  }

  lemma SubmitRetention(c: State, i: NodeId, data: Payload)
    requires ElectionInv(c) && LogInv(c) && RetentionInv(c) && i in c.nodes
    ensures RetentionInv(ApplySubmit(c, i, data))
  {
    hide ElectionInv, LogInv, RetentionInv, LeaderLogsOk;
    var t := Submit(c.nodes[i], data);
    if t.role == Leader {
      LeaderFacts(c, i);
      OneProgress(c, i);
      GrownRetention(c, i, t, ApplySubmit(c, i, data).elections);
    }
  }

  lemma RecogniseSafe(c: State, m: Message)
    requires SafeInv(c) && m in c.msgs && m.AppendEntries? && m.dst in c.nodes && m.term >= c.nodes[m.dst].term
    ensures SafeInv(SetNode(c, m.dst, Recognise(c.nodes[m.dst], m)))
  {
    hide ElectionInv, LogInv, BallotInv;
    var t := Recognise(c.nodes[m.dst], m);
    RecogniseElection(c, m);
    SameLog(c, m.dst, t);
    QuietBallot(c, m.dst, t);
  }

  lemma AppendEntriesRetention(c: State, m: Message)
    requires SafeInv(c) && RetentionInv(c) && m in c.msgs && m.AppendEntries? && m.dst in c.nodes
    requires HonestReport(c, DoDeliver(m))
    ensures RetentionInv(ApplyAppendEntries(c, m))
  {
    hide ElectionInv, LogInv, BallotInv, RetentionInv, LeaderLogsOk, Consistent, AppendAll;
    var i, s := m.dst, c.nodes[m.dst];
    var o := HandleAppendEntries(s, m);
    OneNode(c, i);
    if m.term < s.term {
      SendRetention(c, o.sent);
      assert SetNode(c, i, o.node) == c;
    } else {
      var t := Recognise(s, m);
      var c1 := SetNode(c, i, t);
      RecogniseSafe(c, m);
      NodeLogFacts(c, i);
      SameLogRetention(c, i, t);
      if !Consistent(t, m) {
        SendRetention(c1, o.sent);
      } else {
        AcceptLog(c1, i, m, o.node);
        var d := SetNode(c1, i, o.node);
        NodeLogFacts(d, i);
        LastIsEnd(o.node.log, 0);
        var acks := ApplyAppendEntries(c, m).acks;
        OneMsg(c, m);
        AcceptRetention(c1, i, m, o.node, acks);
        var d' := d.(acks := acks);
        assert ReplyBacked(c.elections, acks, o.sent[0]);
        SendRetention(d', o.sent);
        assert Send(d', o.sent) == ApplyAppendEntries(c, m);
      }
    }
  }

  /** A success that a leader does not discard acknowledges its own term, although the reply
      carries the follower's term from before it stepped up. */
  lemma AckIsExact(c: State, m: Message)
    requires ElectionInv(c) && LogInv(c) && RetentionInv(c) && m in c.msgs && m.AppendReply? && m.success
    requires m.dst in c.nodes && c.nodes[m.dst].role == Leader && m.term == c.nodes[m.dst].term
    ensures HasAck(c.acks, m.src, m.term, m.matchIndex) && m.matchIndex <= |c.nodes[m.dst].log|
  {
    assert ReplyBacked(c.elections, c.acks, m);
    if Overtaken(c.elections, m.dst, m.term) {
      var t :| t in c.elections && t > m.term && c.elections[t].leader == m.dst;
      ElectionFacts(c, t);
      assert false;
    }
    LeaderFacts(c, m.dst);
    assert AckOk(c.nodes, c.elections, Ack(m.src, m.term, m.matchIndex));
  }

  lemma AppendReplyRetention(c: State, m: Message)
    requires ElectionInv(c) && LogInv(c) && RetentionInv(c) && m in c.msgs && m.AppendReply? && m.dst in c.nodes
    ensures RetentionInv(SetNode(c, m.dst, HandleAppendReply(c.nodes[m.dst], m)))
  {
    hide ElectionInv, LogInv, RetentionInv, LeaderLogsOk, HasAck;
    var s := c.nodes[m.dst];
    NodeLogFacts(c, m.dst);
    OneProgress(c, m.dst);
    if m.term == s.term && s.role == Leader && m.success { AckIsExact(c, m); }
    SameLogRetention(c, m.dst, HandleAppendReply(s, m));
  }

  lemma StepRetention(c: State, a: Action)
    requires SafeInv(c) && RetentionInv(c) && Enabled(c, a) && HonestReport(c, a)
    ensures RetentionInv(Apply(c, a))
  {
    hide ElectionInv, LogInv, BallotInv, RetentionInv, InsideLeader, HonestReport;
    match a
    case DoTick(i, due) =>
      if c.nodes[i].role == Leader { LeaderTickRetention(c, i, due); } else { FollowerTickRetention(c, i, due); }
    case DoSubmit(i, data) => SubmitRetention(c, i, data);
    case DoSend(i, k, count) =>
      SliceInside(c, i, k, count);
      SendRetention(c, [Slice(c.nodes[i], c.nodes[i].peers[k], count)]);
    case DoRestart(i) =>
      OneNode(c, i);
      NodeLogFacts(c, i);
      SameLogRetention(c, i, Restart(c.nodes[i]));
    case DoDeliver(m) =>
      match m {
        case RequestVote(_, _, _, _, _) => RequestVoteRetention(c, m);
        case VoteReply(_, _, _, _) => VoteReplyRetention(c, m);
        case AppendEntries(_, _, _, _, _, _, _) => AppendEntriesRetention(c, m);
        case AppendReply(_, _, _, _, _) => AppendReplyRetention(c, m);
      }
  }
}
