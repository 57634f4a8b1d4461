/** What every run keeps besides the classical safety properties: votes are counted exactly, the disk is
    up to date at every step, terms never go back, and an absent anchor lets only empty batches through. */
module RunTheorems {

  import opened RaftTypes
  import opened RaftLog
  import opened RaftStep
  import opened Cluster
  import opened ElectionSafety
  import opened Matching
  import opened Applying
  import PlainRuns

  // In state c, action a is the delivery of a vote request of cand to voter, who grants it.
  ghost predicate GrantedAt(c: State, a: Action, voter: NodeId, cand: NodeId, term: nat) {
    && a.DoDeliver? && a.msg.RequestVote? && a.msg.src == cand && a.msg.dst == voter && a.msg.term == term
    && voter in c.nodes && Grants(StepUp(c.nodes[voter], term), a.msg)
  }

  ghost predicate GrantedBefore(states: seq<State>, actions: seq<Action>, k: nat, voter: NodeId, cand: NodeId, term: nat)
    requires IsRun(states, actions) && k < |states|
  {
    exists j :: 0 <= j < k && GrantedAt(states[j], actions[j], voter, cand, term)
  }

  lemma StepVotes(c: State, a: Action, v: Vote)
    requires Enabled(c, a) && v in Apply(c, a).votes && v !in c.votes && v.voter != v.cand
    ensures GrantedAt(c, a, v.voter, v.cand, v.term)
  {
    hide Tick, Submit, HandleVoteReply, HandleAppendEntries, HandleAppendReply, Elements;
  }

  // The history is faithful: a recorded vote for another node was granted at some step.
  lemma {:induction false} VoteHappened(states: seq<State>, actions: seq<Action>, k: nat, v: Vote)
    requires IsRun(states, actions) && k < |states| && v in states[k].votes && v.voter != v.cand
    ensures GrantedBefore(states, actions, k, v.voter, v.cand, v.term)
  {
    hide Apply, GrantedAt;
    if k == 0 {
      assert false;
    } else if v in states[k - 1].votes {
      VoteHappened(states, actions, k - 1, v);
    } else {
      StepVotes(states[k - 1], actions[k - 1], v);
    }
  }

  lemma HasVoteHappened(states: seq<State>, actions: seq<Action>, k: nat, voter: NodeId, cand: NodeId, term: nat)
    requires IsRun(states, actions) && k < |states| && HasVote(states[k].votes, voter, cand, term) && voter != cand
    ensures GrantedBefore(states, actions, k, voter, cand, term)
  {
    var v :| v in states[k].votes && v.voter == voter && v.cand == cand && v.term == term;
    VoteHappened(states, actions, k, v);
  }

  /** Vote counting is exact, although some grants answer with an old term and are thrown away. */
  lemma VoteCountTheorem(states: seq<State>, actions: seq<Action>, k: nat, i: NodeId)
    requires IsRun(states, actions) && k < |states| && i in states[k].nodes && states[k].nodes[i].role == Candidate
    ensures var s := states[k].nodes[i];
      && s.votesReceived == 1 + |FlaggedPeers(s.peers)|
      && forall p :: p in FlaggedPeers(s.peers) ==> GrantedBefore(states, actions, k, p, i, s.term)
  {
    hide IsRun, GrantedBefore, ElectionInv;
    RunElection(states, actions, k);
    OneNode(states[k], i);
    var s := states[k].nodes[i];
    forall p | p in FlaggedPeers(s.peers)
      ensures GrantedBefore(states, actions, k, p, i, s.term)
    {
      HasVoteHappened(states, actions, k, p, i, s.term);
    }
  }

  /** Who leads a term has had the grants, for that very term, of a strict majority, itself included. */
  lemma MajorityTheorem(states: seq<State>, actions: seq<Action>, k: nat, i: NodeId) returns (quorum: set<NodeId>)
    requires IsRun(states, actions) && k < |states| && i in states[k].nodes && states[k].nodes[i].role == Leader
    ensures quorum <= states[k].nodes.Keys && 2 * |quorum| > |states[k].nodes|
    ensures forall p :: p in quorum && p != i ==> GrantedBefore(states, actions, k, p, i, states[k].nodes[i].term)
  {
    hide IsRun, GrantedBefore, VotesOk, MsgsOk, NodesOk, CandidatesOk, LeadersGrantNone;
    var c, term := states[k], states[k].nodes[i].term;
    RunElection(states, actions, k);
    ElectionFacts(c, term);
    quorum := c.elections[term].quorum;
    forall p | p in quorum && p != i
      ensures GrantedBefore(states, actions, k, p, i, term)
    {
      HasVoteHappened(states, actions, k, p, i, term);
    }
  }

  /** Persist before reply: after every step, what is on disk is what is in memory, so a restart keeps it. */
  lemma PersistTheorem(states: seq<State>, actions: seq<Action>, k: nat, i: NodeId)
    requires IsRun(states, actions) && k < |states| && i in states[k].nodes
    ensures var s := states[k].nodes[i];
      && s.disk == Durable(s.term, s.votedFor, s.log)
      && Restart(s).term == s.term && Restart(s).votedFor == s.votedFor && Restart(s).log == s.log
  {
    hide ElectionInv;
    RunElection(states, actions, k);
    OneNode(states[k], i);
  }

  lemma NodeTermRises(s: NodeState, a: Action)
    requires a.DoDeliver?
    ensures a.msg.RequestVote? ==> HandleRequestVote(s, a.msg).node.term >= s.term
    ensures a.msg.VoteReply? ==> HandleVoteReply(s, a.msg).term >= s.term
    ensures a.msg.AppendEntries? ==> HandleAppendEntries(s, a.msg).node.term >= s.term
    ensures a.msg.AppendReply? ==> HandleAppendReply(s, a.msg).term >= s.term
  {
    hide AppendAll;
  }

  lemma StepTerms(c: State, a: Action, i: NodeId)
    requires ElectionInv(c) && Enabled(c, a) && i in c.nodes
    ensures Apply(c, a).nodes.Keys == c.nodes.Keys && Apply(c, a).nodes[i].term >= c.nodes[i].term
  {
    hide ElectionInv, HandleRequestVote, HandleVoteReply, HandleAppendEntries, HandleAppendReply, ApplyCommitted, Elements;
    OneNode(c, i);
    match a
    case DoTick(j, due) =>
      var s := c.nodes[j];
      ApplyFrame(if s.role == Leader then LeaderTick(s, due).node else if due then BecomeCandidate(s).node else s);
    case DoDeliver(m) => NodeTermRises(c.nodes[m.dst], a);
    case _ =>
  }

  /** Terms never go backwards, restarts included. */
  lemma {:induction false} TermsTheorem(states: seq<State>, actions: seq<Action>, j: nat, k: nat, i: NodeId)
    requires IsRun(states, actions) && j <= k < |states| && i in states[j].nodes
    ensures i in states[k].nodes && states[j].nodes[i].term <= states[k].nodes[i].term
  {
    hide ElectionInv, Apply;
    if j < k {
      TermsTheorem(states, actions, j, k - 1, i);
      RunElection(states, actions, k - 1);
      StepTerms(states[k - 1], actions[k - 1], i);
    }
  }

  /** Logs have no gaps: the entry at position n has index n + 1, at every node and every moment. */
  lemma GapFreeTheorem(states: seq<State>, actions: seq<Action>, k: nat, i: NodeId)
    requires IsRun(states, actions) && k < |states| && i in states[k].nodes
    ensures WellIndexed(states[k].nodes[i].log, 0)
  {
    RunLog(states, actions, k);
    NodeLogFacts(states[k], i);
  }

  lemma AbsentAnchor(els: Elections, s: NodeState, m: Message)
    requires LeaderLogsOk(els) && NodeLogOk(els, s) && s.snapIndex == 0 && s.snapTerm == 0
    requires m.AppendEntries? && SliceOf(els, m) && m.prevLogIndex > |s.log|
    ensures var o := HandleAppendEntries(s, m); o.sent[0].success ==> m.entries == [] && o.node.log == s.log
  {
    hide AppendAll, Splice, Anchored, LeaderLogsOk, SliceOf, WellIndexed;
    if m.term >= s.term && Consistent(Recognise(s, m), m) {
      Accepted(els, Recognise(s, m), m);
    }
  }

  /** A request whose anchor is beyond the receiver's log can pass the consistency check, since an absent entry
      reads as term 0, but only with no entries, and it leaves the log alone. */
  lemma AbsentAnchorTheorem(states: seq<State>, actions: seq<Action>, k: nat, m: Message)
    requires IsRun(states, actions) && k < |actions| && actions[k] == DoDeliver(m) && m.AppendEntries?
    requires m.prevLogIndex > |states[k].nodes[m.dst].log|
    ensures var o := HandleAppendEntries(states[k].nodes[m.dst], m);
      o.sent[0].success ==> m.entries == [] && o.node.log == states[k].nodes[m.dst].log
  {
    hide HandleAppendEntries, ElectionInv, LeaderLogsOk, NodeLogOk, LeadersCurrent, SliceOf;
    var c := states[k];
    RunLog(states, actions, k);
    OneNode(c, m.dst);
    NodeLogFacts(c, m.dst);
    AbsentAnchor(c.elections, c.nodes[m.dst], m);
  }

  lemma SliceWellCut(els: Elections, m: Message)
    requires LeaderLogsOk(els) && m.AppendEntries? && SliceOf(els, m)
    ensures WellCut(m) && forall k :: 0 <= k < |m.entries| ==> m.entries[k].term > 0
  {
    hide Anchored, Sorted;
    var leader := els[m.term].log;
    assert LeaderLogOk(els, m.term, els[m.term]);
    AnchoredSorted(els, leader);
  }

  /** Every AppendEntries that any run ever sends is a contiguous batch with non-zero terms. */
  lemma WellCutTheorem(states: seq<State>, actions: seq<Action>, k: nat, m: Message)
    requires IsRun(states, actions) && k < |states| && m in states[k].msgs && m.AppendEntries?
    ensures WellCut(m) && forall j :: 0 <= j < |m.entries| ==> m.entries[j].term > 0
  {
    hide ElectionInv, LeaderLogsOk, SliceOf, WellCut, IsRun;
    RunLog(states, actions, k);
    SliceWellCut(states[k].elections, m);
  }

  // The leader a node knows is the one elected in its term.
  ghost predicate Known(els: Elections, s: NodeState) {
    s.leaderId == NOBODY || (s.term in els && els[s.term].leader == s.leaderId)
  }

  ghost predicate AllKnown(c: State) {
    forall i :: i in c.nodes ==> Known(c.elections, c.nodes[i])
  }

  lemma KnownAfter(s: NodeState, call: Call)
    ensures var t := Do(s, call);
      || t.leaderId == NOBODY
      || (t.leaderId == s.leaderId && t.term == s.term)
      || (t.leaderId == s.id && t.role == Leader)
      || (call.CallMessage? && call.msg.AppendEntries? && t.leaderId == call.msg.src && t.term == call.msg.term)
  {
    hide AppendAll, UpToDate, Consistent, ApplyCommitted, GreatestCommittable;
    if call.CallTick? {
      ApplyFrame(if s.role == Leader then LeaderTick(s, call.due).node else if call.due then BecomeCandidate(s).node else s);
    }
  }

  lemma KnownStep(c: State, a: Action, i: NodeId)
    requires ElectionInv(c) && LogInv(c) && AllKnown(c) && Enabled(c, a) && i in c.nodes
    requires ElectionInv(Apply(c, a)) && LogInv(Apply(c, a)) && ElectionsGrow(c.elections, Apply(c, a).elections)
    ensures i in Apply(c, a).nodes && Known(Apply(c, a).elections, Apply(c, a).nodes[i])
  {
    hide ElectionInv, LogInv, Apply, Do;
    var d := Apply(c, a);
    PlainRuns.StepNode(c, a, i);
    OneNode(c, i);
    if PlainRuns.Acting(a, i) {
      KnownAfter(c.nodes[i], PlainRuns.CallOf(a));
      if d.nodes[i].role == Leader { LeaderFacts(d, i); }
      if a.DoDeliver? { OneMsg(c, a.msg); }
    }
  }

  lemma StepKnown(c: State, a: Action)
    requires ElectionInv(c) && LogInv(c) && AllKnown(c) && Enabled(c, a)
    ensures AllKnown(Apply(c, a))
  {
    hide ElectionInv, LogInv, Apply, Known;
    StepElection(c, a);
    StepLog(c, a);
    forall i | i in Apply(c, a).nodes ensures Known(Apply(c, a).elections, Apply(c, a).nodes[i]) {
      SameNodes(c, a);
      KnownStep(c, a, i);
    }
  }

  lemma SameNodes(c: State, a: Action)
    requires Enabled(c, a)
    ensures Apply(c, a).nodes.Keys == c.nodes.Keys
  {
    hide Tick, HandleRequestVote, HandleVoteReply, HandleAppendEntries, HandleAppendReply, Elements;
  }

  /** raft_get_leader_id never names a wrong node: at every moment it is empty or the leader elected in the node's term. */
  lemma {:induction false} LeaderIdTheorem(states: seq<State>, actions: seq<Action>, k: nat)
    requires IsRun(states, actions) && k < |states|
    ensures AllKnown(states[k])
  {
    hide ElectionInv, LogInv, Apply, Enabled, Known;
    if k == 0 {
      InitKnown(states[0]);
    } else {
      LeaderIdTheorem(states, actions, k - 1);
      RunLog(states, actions, k - 1);
      assert states[(k - 1) + 1] == Apply(states[k - 1], actions[k - 1]);
      StepKnown(states[k - 1], actions[k - 1]);
    }
  }

  lemma InitKnown(c: State)
    requires Init(c)
    ensures AllKnown(c)
  {
  }
}
