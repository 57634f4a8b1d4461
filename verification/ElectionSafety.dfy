/** Election Safety: at most one leader per term, in every run.
    Each handler is a sequence of smaller updates (step up, step down, grant, ...); every update
    keeps ElectionInv. */
module ElectionSafety {

  import opened RaftTypes
  import opened RaftStep
  import opened Cluster
  import opened Quorums

  ghost predicate NodeOk(ids: set<NodeId>, i: NodeId, s: NodeState) {
    && s.id == i && PeersAre(ids, i, s.peers)
    && s.snapIndex == 0 && s.snapTerm == 0
    && s.disk == Durable(s.term, s.votedFor, s.log)
    && (s.role != Follower ==> s.votedFor == i && s.term > 0)
    && (s.role == Leader ==> forall k :: 0 <= k < |s.peers| ==> s.peers[k].nextIndex > 0)
  }

  type Nodes = map<NodeId, NodeState>
  type Elections = map<nat, Election>

  ghost predicate NodesOk(nodes: Nodes) {
    NOBODY !in nodes && forall i :: i in nodes ==> NodeOk(nodes.Keys, i, nodes[i])
  }

  // A granted vote stays recorded, and its voter a follower, until the voter's next term.
  ghost predicate VoteOk(nodes: Nodes, els: Elections, v: Vote) {
    && v.voter in nodes && v.cand in nodes
    && v.term <= nodes[v.voter].term && v.term <= nodes[v.cand].term
    && (v.voter != v.cand && v.term == nodes[v.voter].term ==>
          nodes[v.voter].role == Follower && nodes[v.voter].votedFor == v.cand)
    && (v.late ==> v.term in els)
  }

  ghost predicate VotesOk(nodes: Nodes, els: Elections, votes: set<Vote>) {
    forall v :: v in votes ==> VoteOk(nodes, els, v)
  }

  ghost predicate GrantsUnique(votes: set<Vote>) {
    forall v, w :: (v in votes && w in votes && v.voter == w.voter && v.term == w.term
                    && v.voter != v.cand && w.voter != w.cand) ==> v.cand == w.cand
  }

  ghost predicate HasVote(votes: set<Vote>, voter: NodeId, cand: NodeId, term: nat) {
    exists v :: v in votes && v.voter == voter && v.cand == cand && v.term == term
  }

  // A vote of this term or a later one.
  ghost predicate HasVoteFrom(votes: set<Vote>, voter: NodeId, cand: NodeId, term: nat) {
    exists v :: v in votes && v.voter == voter && v.cand == cand && v.term >= term
  }

  // The votes a candidate has counted are real, of exactly its term, and not yet a majority.
  ghost predicate CandidateOk(size: nat, votes: set<Vote>, i: NodeId, s: NodeState) {
    s.role == Candidate ==>
      && s.votesReceived == 1 + |FlaggedPeers(s.peers)|
      && (s.votesReceived > 1 ==> 2 * s.votesReceived <= size)
      && HasVote(votes, i, i, s.term)
      && forall p :: p in FlaggedPeers(s.peers) ==> HasVote(votes, p, i, s.term)
  }

  ghost predicate CandidatesOk(nodes: Nodes, votes: set<Vote>) {
    forall i :: i in nodes ==> CandidateOk(|nodes|, votes, i, nodes[i])
  }

  ghost predicate QuorumVoted(votes: set<Vote>, term: nat, e: Election) {
    forall p :: p in e.quorum ==> HasVote(votes, p, e.leader, term)
  }

  ghost predicate ElectionOk(nodes: Nodes, votes: set<Vote>, term: nat, e: Election) {
    && e.leader in nodes
    && e.quorum <= nodes.Keys && 2 * |e.quorum| > |nodes|
    && QuorumVoted(votes, term, e)
    && term <= nodes[e.leader].term
    && (term == nodes[e.leader].term ==>
          nodes[e.leader].votedFor == e.leader && nodes[e.leader].role != Candidate)
  }

  ghost predicate ElectionsOk(nodes: Nodes, els: Elections, votes: set<Vote>) {
    forall t :: t in els ==> ElectionOk(nodes, votes, t, els[t])
  }

  // An elected leader has granted its vote to nobody else in that term.
  ghost predicate LeadersGrantNone(els: Elections, votes: set<Vote>) {
    forall v :: v in votes && v.term in els && v.voter == els[v.term].leader ==> v.cand == v.voter
  }

  ghost predicate LeadersElected(nodes: Nodes, els: Elections) {
    forall i :: i in nodes && nodes[i].role == Leader ==>
      nodes[i].term in els && els[nodes[i].term].leader == i
  }

  ghost predicate MsgOk(nodes: Nodes, els: Elections, votes: set<Vote>, m: Message) {
    && m.src in nodes && m.dst in nodes && m.src != m.dst
    && (m.RequestVote? ==> m.term <= nodes[m.src].term)
    && (m.VoteReply? && m.granted ==> HasVoteFrom(votes, m.src, m.dst, m.term))
    && (m.AppendEntries? ==> m.term in els && els[m.term].leader == m.src)
  }

  ghost predicate MsgsOk(nodes: Nodes, els: Elections, votes: set<Vote>, msgs: set<Message>) {
    forall m :: m in msgs ==> MsgOk(nodes, els, votes, m)
  }

  ghost predicate ElectionInv(c: State) {
    && NodesOk(c.nodes) && VotesOk(c.nodes, c.elections, c.votes) && GrantsUnique(c.votes)
    && CandidatesOk(c.nodes, c.votes) && ElectionsOk(c.nodes, c.elections, c.votes)
    && LeadersGrantNone(c.elections, c.votes) && LeadersElected(c.nodes, c.elections)
    && MsgsOk(c.nodes, c.elections, c.votes, c.msgs)
  }

  lemma InitElection(c: State)
    requires Init(c)
    ensures ElectionInv(c)
  {
  }

  // What a node's new state must respect, the history being unchanged.
  ghost predicate Fits(c: State, i: NodeId, s: NodeState)
    requires i in c.nodes
  {
    && NodeOk(c.nodes.Keys, i, s) && s.term >= c.nodes[i].term
    && (forall v :: v in c.votes && v.voter == i && v.cand != i && v.term == s.term ==>
          s.role == Follower && s.votedFor == v.cand)
    && (s.term in c.elections && c.elections[s.term].leader == i ==> s.votedFor == i && s.role != Candidate)
    && (s.role == Leader ==> s.term in c.elections && c.elections[s.term].leader == i)
    && CandidateOk(|c.nodes|, c.votes, i, s)
  }

  lemma ChangeVotes(c: State, i: NodeId, s: NodeState)
    requires i in c.nodes && Fits(c, i, s) && VotesOk(c.nodes, c.elections, c.votes)
    ensures VotesOk(c.nodes[i := s], c.elections, c.votes)
  {
    forall v | v in c.votes ensures VoteOk(c.nodes[i := s], c.elections, v) {
      assert VoteOk(c.nodes, c.elections, v);
    }
  }

  lemma ChangeElections(c: State, i: NodeId, s: NodeState)
    requires i in c.nodes && Fits(c, i, s) && ElectionsOk(c.nodes, c.elections, c.votes)
    ensures ElectionsOk(c.nodes[i := s], c.elections, c.votes)
  {
    hide HasVote;
    SameSize(c.nodes, i, s);
    forall t | t in c.elections ensures ElectionOk(c.nodes[i := s], c.votes, t, c.elections[t]) {
      assert ElectionOk(c.nodes, c.votes, t, c.elections[t]);
    }
  }

  lemma SameSize(nodes: Nodes, i: NodeId, s: NodeState)
    requires i in nodes
    ensures nodes[i := s].Keys == nodes.Keys && |nodes[i := s]| == |nodes|
  {
    assert nodes[i := s].Keys == nodes.Keys;
  }

  lemma ChangeMsgs(c: State, i: NodeId, s: NodeState)
    requires i in c.nodes && Fits(c, i, s) && MsgsOk(c.nodes, c.elections, c.votes, c.msgs)
    ensures MsgsOk(c.nodes[i := s], c.elections, c.votes, c.msgs)
  {
    hide HasVoteFrom, HasVote;
    forall m | m in c.msgs ensures MsgOk(c.nodes[i := s], c.elections, c.votes, m) {
      assert MsgOk(c.nodes, c.elections, c.votes, m);
    }
  }

  lemma ChangeNodes(c: State, i: NodeId, s: NodeState)
    requires i in c.nodes && Fits(c, i, s)
    requires NodesOk(c.nodes) && CandidatesOk(c.nodes, c.votes) && LeadersElected(c.nodes, c.elections)
    ensures NodesOk(c.nodes[i := s]) && CandidatesOk(c.nodes[i := s], c.votes)
    ensures LeadersElected(c.nodes[i := s], c.elections)
  {
    hide NodeOk, CandidateOk;
    SameSize(c.nodes, i, s);
  }

  /** Any change of one node that fits the history keeps the invariant. */
  lemma ChangeElection(c: State, i: NodeId, s: NodeState)
    requires ElectionInv(c) && i in c.nodes && Fits(c, i, s)
    ensures ElectionInv(SetNode(c, i, s))
  {
    hide Fits, NodesOk, VotesOk, GrantsUnique, CandidatesOk, ElectionsOk, LeadersGrantNone, LeadersElected, MsgsOk;
    ChangeNodes(c, i, s);
    ChangeVotes(c, i, s);
    ChangeElections(c, i, s);
    ChangeMsgs(c, i, s);
  }

  lemma SendElection(c: State, out: seq<Message>)
    requires ElectionInv(c)
    requires forall m :: m in out ==> MsgOk(c.nodes, c.elections, c.votes, m)
    ensures ElectionInv(Send(c, out))
  {
  }

  /** Seeing a higher term. */
  lemma StepUpElection(c: State, i: NodeId, term: nat)
    requires ElectionInv(c) && i in c.nodes && term > c.nodes[i].term
    ensures ElectionInv(SetNode(c, i, BecomeFollower(c.nodes[i], term)))
  {
    ChangeElection(c, i, BecomeFollower(c.nodes[i], term));
  }

  /** A candidate that steps down in its own term, forgetting its vote for itself. */
  lemma StepDownElection(c: State, i: NodeId)
    requires ElectionInv(c) && i in c.nodes && c.nodes[i].role == Candidate
    ensures ElectionInv(SetNode(c, i, BecomeFollower(c.nodes[i], c.nodes[i].term)))
  {
    ChangeElection(c, i, BecomeFollower(c.nodes[i], c.nodes[i].term));
  }

  lemma RestartElection(c: State, i: NodeId)
    requires ElectionInv(c) && i in c.nodes
    ensures ElectionInv(SetNode(c, i, Restart(c.nodes[i])))
  {
    ChangeElection(c, i, Restart(c.nodes[i]));
  }

  // A change that touches nothing Election Safety looks at.
  ghost predicate SameBallot(s: NodeState, t: NodeState) {
    && t.id == s.id && t.term == s.term && t.votedFor == s.votedFor && t.role == s.role
    && t.votesReceived == s.votesReceived && t.snapIndex == s.snapIndex && t.snapTerm == s.snapTerm
    && t.disk == Durable(t.term, t.votedFor, t.log)
    && |t.peers| == |s.peers|
    && (forall k :: 0 <= k < |s.peers| ==>
          t.peers[k].id == s.peers[k].id && t.peers[k].voteGranted == s.peers[k].voteGranted)
    && (s.role == Leader ==> forall k :: 0 <= k < |t.peers| ==> t.peers[k].nextIndex > 0)
  }

  lemma SameBallotElection(c: State, i: NodeId, t: NodeState)
    requires ElectionInv(c) && i in c.nodes && SameBallot(c.nodes[i], t)
    ensures ElectionInv(SetNode(c, i, t))
  {
    assert FlaggedPeers(t.peers) == FlaggedPeers(c.nodes[i].peers);
    assert CandidateOk(|c.nodes|, c.votes, i, c.nodes[i]);
    ChangeElection(c, i, t);
  }

  /** Recording a vote (the node's new state is already in place). */
  lemma AddVoteElection(c: State, voter: NodeId, cand: NodeId, term: nat, li: nat, lt: nat, log: Log)
    requires ElectionInv(c) && voter in c.nodes && cand in c.nodes
    requires c.nodes[voter].term == term <= c.nodes[cand].term
    requires voter != cand ==> c.nodes[voter].role == Follower && c.nodes[voter].votedFor == cand
    ensures ElectionInv(AddVote(c, voter, cand, term, li, lt, log))
  {
    hide NodesOk, CandidatesOk, ElectionsOk, LeadersElected, MsgsOk;
    MoreVotes(c, AddVote(c, voter, cand, term, li, lt, log).votes);
    assert NOBODY !in c.nodes && NodeOk(c.nodes.Keys, voter, c.nodes[voter]) by { NodeFacts(c, voter); }
    assert term in c.elections ==> ElectionOk(c.nodes, c.votes, term, c.elections[term]) by { ElectionFacts(c, term); }
  }

  lemma NodeFacts(c: State, i: NodeId)
    requires NodesOk(c.nodes) && i in c.nodes
    ensures NOBODY !in c.nodes && NodeOk(c.nodes.Keys, i, c.nodes[i])
  {
  }

  lemma ElectionFacts(c: State, term: nat)
    requires ElectionsOk(c.nodes, c.elections, c.votes)
    ensures term in c.elections ==> ElectionOk(c.nodes, c.votes, term, c.elections[term])
  {
  }

  lemma MoreVotes(c: State, votes: set<Vote>)
    requires c.votes <= votes
    requires CandidatesOk(c.nodes, c.votes) && ElectionsOk(c.nodes, c.elections, c.votes)
    requires MsgsOk(c.nodes, c.elections, c.votes, c.msgs)
    ensures CandidatesOk(c.nodes, votes) && ElectionsOk(c.nodes, c.elections, votes)
    ensures MsgsOk(c.nodes, c.elections, votes, c.msgs)
  {
    forall j | j in c.nodes ensures CandidateOk(|c.nodes|, votes, j, c.nodes[j]) {
      assert CandidateOk(|c.nodes|, c.votes, j, c.nodes[j]);
    }
    forall t | t in c.elections ensures ElectionOk(c.nodes, votes, t, c.elections[t]) {
      assert ElectionOk(c.nodes, c.votes, t, c.elections[t]);
    }
    forall m | m in c.msgs ensures MsgOk(c.nodes, c.elections, votes, m) {
      assert MsgOk(c.nodes, c.elections, c.votes, m);
    }
  }

  /** An election timeout: a new term and a vote for itself. */
  lemma CandidacyElection(c: State, i: NodeId)
    requires ElectionInv(c) && i in c.nodes && c.nodes[i].role != Leader
    ensures var s := c.nodes[i];
            ElectionInv(AddVote(SetNode(c, i, BecomeCandidate(s).node), i, i, s.term + 1, MyLastIndex(s), MyLastTerm(s), s.log))
  {
    hide ElectionInv, Fits;
    var s := c.nodes[i];
    var t := BecomeCandidate(s).node;
    StepUpElection(c, i, s.term + 1);
    var c1 := SetNode(c, i, BecomeFollower(s, s.term + 1));
    AddVoteElection(c1, i, i, s.term + 1, MyLastIndex(s), MyLastTerm(s), s.log);
    var c2 := AddVote(c1, i, i, s.term + 1, MyLastIndex(s), MyLastTerm(s), s.log);
    assert Vote(i, i, s.term + 1, MyLastIndex(s), MyLastTerm(s), s.log, s.term + 1 in c.elections) in c2.votes;
    assert NodeOk(c.nodes.Keys, i, s) by { OneNode(c, i); }
    SameSize(c.nodes, i, c1.nodes[i]);
    CandidateFits(c2, i, t);
    ChangeElection(c2, i, t);
    assert c2.nodes[i := t] == c.nodes[i := t];
  }

  lemma OneNode(c: State, i: NodeId)
    requires ElectionInv(c) && i in c.nodes
    ensures NodeOk(c.nodes.Keys, i, c.nodes[i]) && CandidateOk(|c.nodes|, c.votes, i, c.nodes[i])
  {
  }

  lemma CandidateFits(c: State, i: NodeId, s: NodeState)
    requires ElectionInv(c) && i in c.nodes && HasVote(c.votes, i, i, s.term)
    requires c.nodes[i].term == s.term && c.nodes[i].votedFor == NOBODY
    requires NodeOk(c.nodes.Keys, i, s) && s.role == Candidate && s.votesReceived == 1
    requires forall k :: 0 <= k < |s.peers| ==> !s.peers[k].voteGranted
    ensures Fits(c, i, s)
  {
    assert FlaggedPeers(s.peers) == {};
    forall v | v in c.votes && v.voter == i && v.cand != i ensures v.term != s.term {
      assert VoteOk(c.nodes, c.elections, v);
    }
    assert s.term in c.elections ==> ElectionOk(c.nodes, c.votes, s.term, c.elections[s.term]);
  }

  // The voters a candidate has counted, itself included.
  function Voters(i: NodeId, s: NodeState): set<NodeId> { FlaggedPeers(s.peers) + {i} }

  /** A candidate with a majority is the first of its term: election safety, at the moment of election. */
  lemma NoRival(c: State, i: NodeId, s: NodeState)
    requires ElectionInv(c) && i in c.nodes
    requires c.nodes[i].role == Candidate && c.nodes[i].term == s.term
    requires Voters(i, s) <= c.nodes.Keys && 2 * |Voters(i, s)| > |c.nodes|
    requires forall p :: p in Voters(i, s) ==> HasVote(c.votes, p, i, s.term)
    ensures s.term !in c.elections
  {
    hide MsgsOk, NodesOk, CandidatesOk, LeadersElected;
    if s.term in c.elections {
      ElectionFacts(c, s.term);
      hide ElectionsOk;
      var _ := MajoritiesMeet(c.elections[s.term].quorum, Voters(i, s), c.nodes.Keys);
      assert false;
    }
  }

  /** Counting a new flag: one more vote, the rest as before. */
  lemma FlagPeer(ids: set<NodeId>, i: NodeId, peers: seq<Peer>, k: nat)
    requires PeersAre(ids, i, peers) && k < |peers| && !peers[k].voteGranted
    ensures var q := peers[k := peers[k].(voteGranted := true)];
            FlaggedPeers(q) == FlaggedPeers(peers) + {peers[k].id} && peers[k].id !in FlaggedPeers(peers)
            && PeersAre(ids, i, q) && FlaggedPeers(q) <= ids - {i}
  {
    var q := peers[k := peers[k].(voteGranted := true)];
    assert forall j :: 0 <= j < |q| ==> q[j].id == peers[j].id;
    assert peers[k].id in FlaggedPeers(q);
    forall x | x in FlaggedPeers(q) ensures x in FlaggedPeers(peers) + {peers[k].id} {
      var j :| 0 <= j < |q| && q[j].voteGranted && q[j].id == x;
    }
    forall x | x in FlaggedPeers(peers) ensures x in FlaggedPeers(q) && x != peers[k].id {
      var j :| 0 <= j < |peers| && peers[j].voteGranted && peers[j].id == x;
      assert q[j].voteGranted;
    }
  }

  /** A grant of exactly this term reaches a candidate that has not counted it: count it, without a majority yet. */
  lemma CountElection(c: State, i: NodeId, k: nat)
    requires ElectionInv(c) && i in c.nodes && c.nodes[i].role == Candidate
    requires k < |c.nodes[i].peers| && !c.nodes[i].peers[k].voteGranted
    requires HasVote(c.votes, c.nodes[i].peers[k].id, i, c.nodes[i].term)
    requires c.nodes[i].votesReceived + 1 <= (|c.nodes[i].peers| + 1) / 2
    ensures ElectionInv(SetNode(c, i, Counted(c.nodes[i], k)))
  {
    hide FlaggedPeers, ElectionInv;
    var s := c.nodes[i];
    var t := Counted(s, k);
    OneNode(c, i);
    FlagPeer(c.nodes.Keys, i, s.peers, k);
    CountedFits(c, i, t);
    ChangeElection(c, i, t);
  }

  lemma CountedFits(c: State, i: NodeId, t: NodeState)
    requires ElectionInv(c) && i in c.nodes && c.nodes[i].role == Candidate && t.role == Candidate
    requires t.term == c.nodes[i].term && NodeOk(c.nodes.Keys, i, t) && CandidateOk(|c.nodes|, c.votes, i, t)
    ensures Fits(c, i, t)
  {
    hide NodeOk, CandidateOk, MsgsOk;
    ElectionFacts(c, t.term);
  }

  function Counted(s: NodeState, k: nat): NodeState
    requires k < |s.peers|
  {
    s.(peers := s.peers[k := s.peers[k].(voteGranted := true)], votesReceived := s.votesReceived + 1)
  }

  function Elect(c: State, i: NodeId, t: NodeState, base: nat): State {
    var d := SetNode(c, i, t);
    d.(elections := d.elections[t.term := Election(i, Voters(i, t), base, t.log)])
  }

  lemma ResetKeepsFlags(ids: set<NodeId>, i: NodeId, peers: seq<Peer>, next: nat)
    requires PeersAre(ids, i, peers)
    ensures PeersAre(ids, i, ResetProgress(peers, next))
    ensures FlaggedPeers(ResetProgress(peers, next)) == FlaggedPeers(peers)
  {
    var q := ResetProgress(peers, next);
    assert forall j :: 0 <= j < |q| ==> q[j].id == peers[j].id && q[j].voteGranted == peers[j].voteGranted;
  }

  lemma VotersAfterCount(ids: set<NodeId>, votes: set<Vote>, i: NodeId, s: NodeState, k: nat)
    requires NodeOk(ids, i, s) && CandidateOk(|ids|, votes, i, s) && s.role == Candidate && i in ids
    requires k < |s.peers| && !s.peers[k].voteGranted && HasVote(votes, s.peers[k].id, i, s.term)
    ensures var t := BecomeLeader(Counted(s, k));
            && |Voters(i, t)| == s.votesReceived + 1 && Voters(i, t) <= ids
            && (forall p :: p in Voters(i, t) ==> HasVote(votes, p, i, s.term))
            && NodeOk(ids, i, t) && t.role == Leader && t.term == s.term
  {
    hide FlaggedPeers;
    var q := Counted(s, k).peers;
    FlagPeer(ids, i, s.peers, k);
    ResetKeepsFlags(ids, i, q, MyLastIndex(s) + 1);
  }

  /** The counted vote makes a majority: the candidate becomes the first and only leader of its term. */
  lemma WinElection(c: State, i: NodeId, k: nat)
    requires ElectionInv(c) && i in c.nodes && c.nodes[i].role == Candidate
    requires k < |c.nodes[i].peers| && !c.nodes[i].peers[k].voteGranted
    requires HasVote(c.votes, c.nodes[i].peers[k].id, i, c.nodes[i].term)
    requires c.nodes[i].votesReceived + 1 > (|c.nodes[i].peers| + 1) / 2
    ensures c.nodes[i].term !in c.elections
    ensures ElectionInv(Elect(c, i, BecomeLeader(Counted(c.nodes[i], k)), |c.nodes[i].log|))
  {
    VotersAfterCount(c.nodes.Keys, c.votes, i, c.nodes[i], k);
    LeadElection(c, i, BecomeLeader(Counted(c.nodes[i], k)), |c.nodes[i].log|);
  }

  lemma LeadElection(c: State, i: NodeId, t: NodeState, base: nat)
    requires ElectionInv(c) && i in c.nodes && c.nodes[i].role == Candidate && t.term == c.nodes[i].term
    requires NodeOk(c.nodes.Keys, i, t) && t.role == Leader && c.nodes[i].votedFor == i
    requires Voters(i, t) <= c.nodes.Keys && 2 * |Voters(i, t)| > |c.nodes|
    requires forall p :: p in Voters(i, t) ==> HasVote(c.votes, p, i, t.term)
    ensures t.term !in c.elections
    ensures ElectionInv(Elect(c, i, t, base))
  {
    hide ElectionInv, Fits;
    NoRival(c, i, t);
    var u := t.(role := Follower);
    LeaderFits(c, i, u);
    ChangeElection(c, i, u);
    var e := Election(i, Voters(i, t), base, t.log);
    var c1 := SetNode(c, i, u);
    SameSize(c.nodes, i, u);
    NewElection(c1, t.term, e);
    var c2 := c1.(elections := c1.elections[t.term := e]);
    LeaderFits(c2, i, t);
    ChangeElection(c2, i, t);
    assert c2.nodes[i := t] == c.nodes[i := t];
  }

  lemma LeaderFits(c: State, i: NodeId, t: NodeState)
    requires ElectionInv(c) && i in c.nodes && t.term == c.nodes[i].term
    requires NodeOk(c.nodes.Keys, i, t) && t.votedFor == i && c.nodes[i].votedFor == i
    requires t.role == Follower || (t.role == Leader && t.term in c.elections && c.elections[t.term].leader == i)
    ensures Fits(c, i, t)
  {
    forall v | v in c.votes && v.voter == i && v.cand != i ensures v.term != t.term {
      assert VoteOk(c.nodes, c.elections, v);
    }
  }

  lemma NewElection(c: State, term: nat, e: Election)
    requires ElectionInv(c) && term !in c.elections && ElectionOk(c.nodes, c.votes, term, e)
    requires term == c.nodes[e.leader].term
    ensures ElectionInv(c.(elections := c.elections[term := e]))
  {
    hide HasVote, HasVoteFrom, CandidateOk, NodeOk, QuorumVoted;
    var d := c.(elections := c.elections[term := e]);
    forall v | v in c.votes ensures VoteOk(d.nodes, d.elections, v) {
      assert VoteOk(c.nodes, c.elections, v);
    }
    forall m | m in c.msgs ensures MsgOk(d.nodes, d.elections, d.votes, m) {
      assert MsgOk(c.nodes, c.elections, c.votes, m);
    }
  }

  // Every action keeps the invariant.

  lemma HeartbeatElection(c: State, i: NodeId, due: bool)
    requires ElectionInv(c) && i in c.nodes && c.nodes[i].role == Leader
    ensures ElectionInv(ApplyTick(c, i, due))
  {
    hide ElectionInv;
    var s := c.nodes[i];
    var o := LeaderTick(s, due);
    ApplyFrame(o.node);
    assert SameBallot(s, Tick(s, due).node) by { OneNode(c, i); }
    SameBallotElection(c, i, Tick(s, due).node);
    var d := SetNode(c, i, Tick(s, due).node);
    forall m | m in o.sent ensures MsgOk(d.nodes, d.elections, d.votes, m) {
      OneNode(c, i);
      SliceOk(d, i, m);
    }
    SendElection(d, o.sent);
  }

  lemma SliceOk(c: State, i: NodeId, m: Message)
    requires ElectionInv(c) && i in c.nodes && c.nodes[i].role == Leader
    requires m.AppendEntries? && m.term == c.nodes[i].term && m.src == i
    requires m.dst in c.nodes && m.dst != i
    ensures MsgOk(c.nodes, c.elections, c.votes, m)
  {
  }

  lemma TimeoutElection(c: State, i: NodeId)
    requires ElectionInv(c) && i in c.nodes && c.nodes[i].role != Leader
    ensures ElectionInv(ApplyTick(c, i, true))
  {
    hide ElectionInv;
    var s := c.nodes[i];
    var o := BecomeCandidate(s);
    CandidacyElection(c, i);
    var c1 := AddVote(SetNode(c, i, o.node), i, i, s.term + 1, MyLastIndex(s), MyLastTerm(s), s.log);
    ApplyFrame(o.node);
    SameBallotElection(c1, i, ApplyCommitted(o.node));
    var c2 := SetNode(c1, i, ApplyCommitted(o.node));
    forall m | m in o.sent ensures MsgOk(c2.nodes, c2.elections, c2.votes, m) { OneNode(c, i); }
    SendElection(c2, o.sent);
    assert c1.nodes[i := ApplyCommitted(o.node)] == c.nodes[i := ApplyCommitted(o.node)];
  }

  lemma IdleElection(c: State, i: NodeId)
    requires ElectionInv(c) && i in c.nodes && c.nodes[i].role != Leader
    ensures ElectionInv(ApplyTick(c, i, false))
  {
    hide ElectionInv, ApplyCommitted;
    var s := c.nodes[i];
    OneNode(c, i);
    ApplyFrame(s);
    assert SameBallot(s, ApplyCommitted(s));
    SameBallotElection(c, i, ApplyCommitted(s));
    assert Send(SetNode(c, i, ApplyCommitted(s)), []) == SetNode(c, i, ApplyCommitted(s));
  }

  lemma SubmitElection(c: State, i: NodeId, data: Payload)
    requires ElectionInv(c) && i in c.nodes
    ensures ElectionInv(ApplySubmit(c, i, data))
  {
    hide ElectionInv;
    var s := c.nodes[i];
    if s.role == Leader {
      assert SameBallot(s, Append(s, data)) by { OneNode(c, i); }
      SameBallotElection(c, i, Append(s, data));
      GrowLogElection(SetNode(c, i, Append(s, data)), Append(s, data));
    }
  }

  /** The leader's own log is not part of what Election Safety rests on. */
  lemma GrowLogElection(c: State, s: NodeState)
    requires ElectionInv(c)
    ensures ElectionInv(SetLeaderLog(c, s))
  {
    hide HasVote, HasVoteFrom, CandidateOk, NodeOk, FlaggedPeers;
    var d := SetLeaderLog(c, s);
    forall t | t in d.elections ensures ElectionOk(d.nodes, d.votes, t, d.elections[t]) {
      assert ElectionOk(c.nodes, c.votes, t, c.elections[t]);
    }
    forall m | m in c.msgs ensures MsgOk(d.nodes, d.elections, d.votes, m) {
      assert MsgOk(c.nodes, c.elections, c.votes, m);
    }
  }

  lemma RequestVoteElection(c: State, m: Message)
    requires ElectionInv(c) && m in c.msgs && m.RequestVote? && m.dst in c.nodes
    ensures ElectionInv(ApplyRequestVote(c, m))
  {
    hide ElectionInv;
    var i, s := m.dst, c.nodes[m.dst];
    var t := StepUp(s, m.term);
    var c1 := SetNode(c, i, t);
    assert ElectionInv(c1) by {
      if m.term > s.term { StepUpElection(c, i, m.term); } else { assert c1.nodes == c.nodes; }
    }
    OneMsg(c, m);
    if Grants(t, m) {
      OneNode(c1, i);
      var u := Persist(t.(votedFor := m.src));
      GrantElection(c1, m, u);
      var c2 := SetNode(c1, i, u);
      assert c2.nodes == c.nodes[i := u];
      AddVoteElection(c2, i, m.src, m.term, m.lastLogIndex, m.lastLogTerm, u.log);
      var c3 := AddVote(c2, i, m.src, m.term, m.lastLogIndex, m.lastLogTerm, u.log);
      var v := Vote(i, m.src, m.term, m.lastLogIndex, m.lastLogTerm, u.log, m.term in c.elections);
      assert v in c3.votes;
      SendElection(c3, [VoteReply(s.id, m.src, s.term, true)]) by { OneNode(c, i); }
    } else {
      SendElection(c1, [VoteReply(s.id, m.src, s.term, false)]) by { OneNode(c, i); }
    }
  }

  lemma OneMsg(c: State, m: Message)
    requires ElectionInv(c) && m in c.msgs
    ensures MsgOk(c.nodes, c.elections, c.votes, m)
  {
  }

  /** Granting: only a follower can, so only a follower's record changes. */
  lemma GrantElection(c: State, m: Message, u: NodeState)
    requires ElectionInv(c) && m.RequestVote? && MsgOk(c.nodes, c.elections, c.votes, m)
    requires m.term == c.nodes[m.dst].term
    requires c.nodes[m.dst].votedFor == NOBODY || c.nodes[m.dst].votedFor == m.src
    requires u == Persist(c.nodes[m.dst].(votedFor := m.src))
    ensures c.nodes[m.dst].role == Follower
    ensures ElectionInv(SetNode(c, m.dst, u))
  {
    var i := m.dst;
    OneNode(c, i);
    forall v | v in c.votes && v.voter == i && v.cand != i && v.term == u.term ensures u.votedFor == v.cand {
      assert VoteOk(c.nodes, c.elections, v);
    }
    ElectionFacts(c, u.term);
    ChangeElection(c, i, u);
  }

  lemma VoteReplyElection(c: State, m: Message)
    requires ElectionInv(c) && m in c.msgs && m.VoteReply? && m.dst in c.nodes
    ensures ElectionInv(ApplyVoteReply(c, m))
  {
    hide ElectionInv;
    var i, s := m.dst, c.nodes[m.dst];
    var k := PeerIndex(s.peers, m.src);
    if m.term > s.term {
      StepUpElection(c, i, m.term);
    } else if s.role == Candidate && m.term == s.term && k < |s.peers| && m.granted && !s.peers[k].voteGranted {
      GrantIsExact(c, m);
      if s.votesReceived + 1 > (|s.peers| + 1) / 2 { WinElection(c, i, k); } else { CountElection(c, i, k); }
    } else {
      assert SetNode(c, i, s) == c;
    }
  }

  /** A grant that a candidate does not discard was cast for it in exactly its term, although the
      reply carries the voter's term from before it stepped up. */
  lemma GrantIsExact(c: State, m: Message)
    requires ElectionInv(c) && m in c.msgs && m.VoteReply? && m.granted
    requires m.dst in c.nodes && m.term == c.nodes[m.dst].term
    ensures HasVote(c.votes, m.src, m.dst, m.term)
  {
    assert MsgOk(c.nodes, c.elections, c.votes, m);
    var v :| v in c.votes && v.voter == m.src && v.cand == m.dst && v.term >= m.term;
    assert VoteOk(c.nodes, c.elections, v);
  }

  /** No leader is ever told to step down in its own term. */
  lemma LeaderNotDeposed(c: State, m: Message)
    requires ElectionInv(c) && m in c.msgs && m.AppendEntries? && m.dst in c.nodes && m.term == c.nodes[m.dst].term
    ensures c.nodes[m.dst].role != Leader
  {
    assert MsgOk(c.nodes, c.elections, c.votes, m);
  }

  lemma RecogniseElection(c: State, m: Message)
    requires ElectionInv(c) && m in c.msgs && m.AppendEntries? && m.dst in c.nodes && m.term >= c.nodes[m.dst].term
    ensures ElectionInv(SetNode(c, m.dst, Recognise(c.nodes[m.dst], m)))
  {
    hide ElectionInv;
    var i, s := m.dst, c.nodes[m.dst];
    var t := StepUp(s, m.term);
    var c1 := SetNode(c, i, t);
    if m.term > s.term { StepUpElection(c, i, m.term); } else { LeaderNotDeposed(c, m); assert c1.nodes == c.nodes; }
    var u := t.(leaderId := m.src);
    assert SameBallot(t, u) by { OneNode(c1, i); }
    SameBallotElection(c1, i, u);
    var c2 := SetNode(c1, i, u);
    assert c2.nodes == c.nodes[i := u];
    if u.role != Follower {
      StepDownElection(c2, i);
      assert c2.nodes[i := BecomeFollower(u, m.term)] == c.nodes[i := BecomeFollower(u, m.term)];
    }
  }

  lemma AppendEntriesElection(c: State, m: Message)
    requires ElectionInv(c) && m in c.msgs && m.AppendEntries? && m.dst in c.nodes
    ensures ElectionInv(ApplyAppendEntries(c, m))
  {
    hide ElectionInv;
    var i, s := m.dst, c.nodes[m.dst];
    var o := HandleAppendEntries(s, m);
    var d := SetNode(c, i, o.node);
    assert ElectionInv(d) by {
      if m.term < s.term {
        assert d == c;
      } else {
        RecogniseElection(c, m);
        var t := Recognise(s, m);
        if Consistent(t, m) {
          assert SameBallot(t, o.node) by { OneNode(SetNode(c, i, t), i); }
          SameBallotElection(SetNode(c, i, t), i, o.node);
          assert SetNode(SetNode(c, i, t), i, o.node) == d;
        }
      }
    }
    OneMsg(c, m);
    OneNode(c, i);
    SendElection(d, o.sent);
    AckElection(Send(d, o.sent), ApplyAppendEntries(c, m).acks);
  }

  lemma AckElection(c: State, acks: set<Ack>)
    requires ElectionInv(c)
    ensures ElectionInv(c.(acks := acks))
  {
  }

  lemma AppendReplyElection(c: State, m: Message)
    requires ElectionInv(c) && m in c.msgs && m.AppendReply? && m.dst in c.nodes
    ensures ElectionInv(SetNode(c, m.dst, HandleAppendReply(c.nodes[m.dst], m)))
  {
    hide ElectionInv;
    var i, s := m.dst, c.nodes[m.dst];
    if m.term > s.term {
      StepUpElection(c, i, m.term);
    } else {
      assert SameBallot(s, HandleAppendReply(s, m)) by { OneNode(c, i); }
      SameBallotElection(c, i, HandleAppendReply(s, m));
    }
  }

  lemma StepElection(c: State, a: Action)
    requires ElectionInv(c) && Enabled(c, a)
    ensures ElectionInv(Apply(c, a))
  {
    hide ElectionInv;
    match a
    case DoTick(i, due) =>
      if c.nodes[i].role == Leader { HeartbeatElection(c, i, due); }
      else if due { TimeoutElection(c, i); }
      else { IdleElection(c, i); }
    case DoSubmit(i, data) => SubmitElection(c, i, data);
    case DoSend(i, k, count) =>
      OneNode(c, i);
      SliceOk(c, i, Slice(c.nodes[i], c.nodes[i].peers[k], count));
      SendElection(c, [Slice(c.nodes[i], c.nodes[i].peers[k], count)]);
    case DoRestart(i) => RestartElection(c, i);
    case DoDeliver(m) =>
      match m {
        case RequestVote(_, _, _, _, _) => RequestVoteElection(c, m);
        case VoteReply(_, _, _, _) => VoteReplyElection(c, m);
        case AppendEntries(_, _, _, _, _, _, _) => AppendEntriesElection(c, m);
        case AppendReply(_, _, _, _, _) => AppendReplyElection(c, m);
      }
  }

  lemma {:induction false} RunElection(states: seq<State>, actions: seq<Action>, k: nat)
    requires IsRun(states, actions) && k < |states|
    ensures ElectionInv(states[k])
  {
    if k == 0 {
      InitElection(states[0]);
    } else {
      RunElection(states, actions, k - 1);
      StepElection(states[k - 1], actions[k - 1]);
    }
  }
}
