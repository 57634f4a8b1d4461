/** What votes say about logs, in every run: the voter's log was no more up to date than the
    candidate's, and the candidate's did not change before it was elected. */
module Ballots {

  import opened RaftTypes
  import opened RaftLog
  import opened RaftStep
  import opened Cluster
  import opened ElectionSafety
  import opened Matching

  // A request of `src` for `term` describes the log it campaigns with, and was elected with.
  ghost predicate RequestOk(nodes: Nodes, els: Elections, src: NodeId, term: nat, li: nat, lt: nat) {
    && (src in nodes && nodes[src].role == Candidate && nodes[src].term == term ==>
          li == |nodes[src].log| && lt == LastTerm(nodes[src].log, 0))
    && (term in els && els[term].leader == src && els[term].base <= |els[term].log| ==>
          li == els[term].base && lt == LastTerm(els[term].log[..els[term].base], 0))
  }

  ghost predicate RequestsOk(nodes: Nodes, els: Elections, msgs: set<Message>, votes: set<Vote>) {
    && (forall m :: m in msgs && m.RequestVote? ==>
          RequestOk(nodes, els, m.src, m.term, m.lastLogIndex, m.lastLogTerm))
    && (forall v :: v in votes ==> RequestOk(nodes, els, v.cand, v.term, v.lastIndex, v.lastTerm))
  }

  ghost predicate VoteLogOk(els: Elections, v: Vote) {
    && Anchored(els, v.log)
    && UpToDate(v.lastIndex, v.lastTerm, |v.log|, LastTerm(v.log, 0))
    && (!v.late ==> forall k :: 0 <= k < |v.log| ==> v.log[k].term < v.term)
  }

  ghost predicate VoteLogsOk(els: Elections, votes: set<Vote>) {
    forall v :: v in votes ==> VoteLogOk(els, v)
  }

  ghost predicate HasEarlyVote(votes: set<Vote>, voter: NodeId, cand: NodeId, term: nat) {
    exists v :: v in votes && v.voter == voter && v.cand == cand && v.term == term && !v.late
  }

  // Every vote behind an election was cast before it.
  ghost predicate QuorumsEarly(els: Elections, votes: set<Vote>) {
    forall t, p :: t in els && p in els[t].quorum ==> HasEarlyVote(votes, p, els[t].leader, t)
  }

  ghost predicate BallotInv(c: State) {
    && RequestsOk(c.nodes, c.elections, c.msgs, c.votes)
    && VoteLogsOk(c.elections, c.votes) && QuorumsEarly(c.elections, c.votes)
  }

  lemma InitBallot(c: State)
    requires Init(c)
    ensures BallotInv(c)
  {
  }

  /** No candidate's log changes, and nobody starts campaigning. */
  lemma QuietBallot(c: State, i: NodeId, s: NodeState)
    requires BallotInv(c) && i in c.nodes
    requires s.role == Candidate ==> c.nodes[i].role == Candidate && s.term == c.nodes[i].term && s.log == c.nodes[i].log
    ensures BallotInv(SetNode(c, i, s))
  {
    hide VoteLogsOk, QuorumsEarly;
    var d := SetNode(c, i, s);
    forall src, term, li, lt | RequestOk(c.nodes, c.elections, src, term, li, lt)
      ensures RequestOk(d.nodes, d.elections, src, term, li, lt) {
    }
  }

  lemma SendBallot(c: State, out: seq<Message>)
    requires BallotInv(c)
    requires forall m :: m in out && m.RequestVote? ==>
               RequestOk(c.nodes, c.elections, m.src, m.term, m.lastLogIndex, m.lastLogTerm)
    ensures BallotInv(Send(c, out))
  {
    hide VoteLogsOk, QuorumsEarly, RequestOk;
  }

  lemma AckBallot(c: State, acks: set<Ack>)
    requires BallotInv(c)
    ensures BallotInv(c.(acks := acks))
  {
    hide VoteLogsOk, QuorumsEarly, RequestsOk;
  }

  /** Recording a vote by a node whose log passed the up-to-date check. */
  lemma VoteBallot(c: State, voter: NodeId, cand: NodeId, term: nat, li: nat, lt: nat, log: Log)
    requires BallotInv(c) && Anchored(c.elections, log)
    requires RequestOk(c.nodes, c.elections, cand, term, li, lt)
    requires UpToDate(li, lt, |log|, LastTerm(log, 0))
    requires forall k :: 0 <= k < |log| ==> log[k].term <= term
    ensures BallotInv(AddVote(c, voter, cand, term, li, lt, log))
  {
    hide RequestOk;
    var d := AddVote(c, voter, cand, term, li, lt, log);
    var v := Vote(voter, cand, term, li, lt, log, term in c.elections);
    assert VoteLogOk(c.elections, v) by {
      forall k | 0 <= k < |log| && !v.late ensures log[k].term < term { assert log[k].term in c.elections; }
    }
    forall t, p | t in c.elections && p in c.elections[t].quorum
      ensures HasEarlyVote(d.votes, p, c.elections[t].leader, t)
    {
      assert HasEarlyVote(c.votes, p, c.elections[t].leader, t);
    }
  }

  /** An election timeout: nobody has a request or a vote for the new term yet. */
  lemma CandidacyBallot(c: State, i: NodeId, s: NodeState)
    requires ElectionInv(c) && LogInv(c) && BallotInv(c) && i in c.nodes
    requires s.role == Candidate && s.term > c.nodes[i].term && s.log == c.nodes[i].log
    ensures BallotInv(AddVote(SetNode(c, i, s), i, i, s.term, |s.log|, LastTerm(s.log, 0), s.log))
    ensures RequestOk(SetNode(c, i, s).nodes, c.elections, i, s.term, |s.log|, LastTerm(s.log, 0))
  {
    NewTermRequests(c, i, s);
    NodeLogFacts(c, i);
    ElectionFacts(c, s.term);
    VoteBallot(SetNode(c, i, s), i, i, s.term, |s.log|, LastTerm(s.log, 0), s.log);
  }

  lemma NewTermRequests(c: State, i: NodeId, s: NodeState)
    requires ElectionInv(c) && BallotInv(c) && i in c.nodes && s.term > c.nodes[i].term
    ensures BallotInv(SetNode(c, i, s))
  {
    hide VoteLogsOk, QuorumsEarly;
    var d := SetNode(c, i, s);
    forall m | m in c.msgs && m.RequestVote?
      ensures RequestOk(d.nodes, d.elections, m.src, m.term, m.lastLogIndex, m.lastLogTerm)
    {
      OneMsg(c, m);
      assert RequestOk(c.nodes, c.elections, m.src, m.term, m.lastLogIndex, m.lastLogTerm);
    }
    forall v | v in c.votes ensures RequestOk(d.nodes, d.elections, v.cand, v.term, v.lastIndex, v.lastTerm) {
      assert VoteOk(c.nodes, c.elections, v);
      assert RequestOk(c.nodes, c.elections, v.cand, v.term, v.lastIndex, v.lastTerm);
    }
  }

  lemma GrowBallot(c: State, els: Elections)
    requires BallotInv(c) && ElectionsGrow(c.elections, els) && LeaderLogsOk(c.elections)
    requires els.Keys == c.elections.Keys
    ensures BallotInv(c.(elections := els))
  {
    forall src, term, li, lt | RequestOk(c.nodes, c.elections, src, term, li, lt)
      ensures RequestOk(c.nodes, els, src, term, li, lt)
    {
      if term in els {
        assert LeaderLogOk(c.elections, term, c.elections[term]);
        assert els[term].log[..els[term].base] == c.elections[term].log[..els[term].base];
      }
    }
    forall v | v in c.votes ensures VoteLogOk(els, v) {
      assert VoteLogOk(c.elections, v);
      AnchoredGrows(c.elections, els, v.log);
    }
  }

  lemma ElectRequests(c: State, i: NodeId, t: NodeState, base: nat)
    requires RequestsOk(c.nodes, c.elections, c.msgs, c.votes) && i in c.nodes && c.nodes[i].role == Candidate
    requires t.term == c.nodes[i].term && t.term !in c.elections && t.role == Leader
    requires base == |c.nodes[i].log| < |t.log| && t.log[..base] == c.nodes[i].log
    ensures var d := Elect(c, i, t, base); RequestsOk(d.nodes, d.elections, c.msgs, c.votes)
  {
    var d := Elect(c, i, t, base);
    forall src, term, li, lt | RequestOk(c.nodes, c.elections, src, term, li, lt)
      ensures RequestOk(d.nodes, d.elections, src, term, li, lt) {
    }
  }

  lemma ElectBallot(c: State, i: NodeId, t: NodeState, base: nat)
    requires ElectionInv(c) && BallotInv(c) && i in c.nodes && c.nodes[i].role == Candidate
    requires t.term == c.nodes[i].term && t.term !in c.elections && t.role == Leader
    requires base == |c.nodes[i].log| < |t.log| && t.log[..base] == c.nodes[i].log
    requires forall p :: p in Voters(i, t) ==> HasVote(c.votes, p, i, t.term)
    ensures BallotInv(Elect(c, i, t, base))
  {
    hide RequestOk, MsgsOk, CandidatesOk, ElectionsOk, NodesOk;
    var d := Elect(c, i, t, base);
    assert ElectionsGrow(c.elections, d.elections);
    ElectRequests(c, i, t, base);
    forall v | v in c.votes ensures VoteLogOk(d.elections, v) {
      assert VoteLogOk(c.elections, v);
      AnchoredGrows(c.elections, d.elections, v.log);
    }
    forall u, p | u in d.elections && p in d.elections[u].quorum
      ensures HasEarlyVote(d.votes, p, d.elections[u].leader, u)
    {
      if u == t.term {
        var v :| v in c.votes && v.voter == p && v.cand == i && v.term == u;
        assert VoteOk(c.nodes, c.elections, v);
      } else {
        assert HasEarlyVote(c.votes, p, c.elections[u].leader, u);
      }
    }
  }

  // Every action keeps the invariant.

  lemma LeaderTickBallot(c: State, i: NodeId, due: bool)
    requires BallotInv(c) && i in c.nodes && c.nodes[i].role == Leader
    ensures BallotInv(ApplyTick(c, i, due))
  {
    hide BallotInv;
    var o := Tick(c.nodes[i], due);
    ApplyFrame(LeaderTick(c.nodes[i], due).node);
    QuietBallot(c, i, o.node);
    SendBallot(SetNode(c, i, o.node), o.sent);
  }

  lemma FollowerTickBallot(c: State, i: NodeId, due: bool)
    requires ElectionInv(c) && LogInv(c) && BallotInv(c) && i in c.nodes && c.nodes[i].role != Leader
    ensures BallotInv(ApplyTick(c, i, due))
  {
    hide ElectionInv, LogInv, BallotInv, RequestOk;
    var s, o := c.nodes[i], Tick(c.nodes[i], due);
    ApplyFrame(if due then BecomeCandidate(s).node else s);
    if due {
      OneNode(c, i);
      NodeLogFacts(c, i);
      LastIsEnd(s.log, 0);
      CandidacyBallot(c, i, o.node);
      SendBallot(AddVote(SetNode(c, i, o.node), i, i, o.node.term, |s.log|, LastTerm(s.log, 0), s.log), o.sent);
    } else {
      QuietBallot(c, i, o.node);
      SendBallot(SetNode(c, i, o.node), o.sent);
    }
  }

  lemma RequestVoteBallot(c: State, m: Message)
    requires ElectionInv(c) && LogInv(c) && BallotInv(c) && m in c.msgs && m.RequestVote? && m.dst in c.nodes
    ensures BallotInv(ApplyRequestVote(c, m))
  {
    hide ElectionInv, LogInv, BallotInv, RequestOk;
    var i, s := m.dst, c.nodes[m.dst];
    var o := HandleRequestVote(s, m);
    var c1 := SetNode(c, i, o.node);
    QuietBallot(c, i, o.node);
    SendBallot(c1, o.sent);
    if o.sent[0].granted {
      OneNode(c, i);
      NodeLogFacts(c, i);
      LastIsEnd(s.log, 0);
      assert RequestOk(c1.nodes, c.elections, m.src, m.term, m.lastLogIndex, m.lastLogTerm) by { OneRequest(c1, m); }
      VoteBallot(Send(c1, o.sent), i, m.src, m.term, m.lastLogIndex, m.lastLogTerm, o.node.log);
    }
  }

  lemma OneRequest(c: State, m: Message)
    requires BallotInv(c) && m in c.msgs && m.RequestVote?
    ensures RequestOk(c.nodes, c.elections, m.src, m.term, m.lastLogIndex, m.lastLogTerm)
  {
  }

  lemma VoteReplyBallot(c: State, m: Message)
    requires ElectionInv(c) && LogInv(c) && BallotInv(c) && m in c.msgs && m.VoteReply? && m.dst in c.nodes
    ensures BallotInv(ApplyVoteReply(c, m))
  {
    hide ElectionInv, LogInv, BallotInv;
    var i, s, t := m.dst, c.nodes[m.dst], HandleVoteReply(c.nodes[m.dst], m);
    if t.role == Leader && s.role != Leader {
      var k := PeerIndex(s.peers, m.src);
      GrantIsExact(c, m);
      WinElection(c, i, k);
      OneNode(c, i);
      VotersAfterCount(c.nodes.Keys, c.votes, i, s, k);
      ElectBallot(c, i, t, |s.log|);
    } else {
      QuietBallot(c, i, t);
    }
  }

  lemma SubmitBallot(c: State, i: NodeId, data: Payload)
    requires ElectionInv(c) && LogInv(c) && BallotInv(c) && i in c.nodes
    ensures BallotInv(ApplySubmit(c, i, data))
  {
    hide ElectionInv, LogInv, BallotInv;
    var t := Submit(c.nodes[i], data);
    if t.role == Leader {
      SubmitLog(c, i, data);
      QuietBallot(c, i, t);
      LeaderFacts(c, i);
      NodeLogFacts(c, i);
      GrowBallot(SetNode(c, i, t), ApplySubmit(c, i, data).elections);
    }
  }

  lemma AppendEntriesBallot(c: State, m: Message)
    requires BallotInv(c) && m.AppendEntries? && m.dst in c.nodes
    ensures BallotInv(ApplyAppendEntries(c, m))
  {
    hide BallotInv;
    var o := HandleAppendEntries(c.nodes[m.dst], m);
    QuietBallot(c, m.dst, o.node);
    SendBallot(SetNode(c, m.dst, o.node), o.sent);
    AckBallot(Send(SetNode(c, m.dst, o.node), o.sent), ApplyAppendEntries(c, m).acks);
  }

  lemma StepBallot(c: State, a: Action)
    requires ElectionInv(c) && LogInv(c) && BallotInv(c) && Enabled(c, a)
    ensures BallotInv(Apply(c, a))
  {
    hide ElectionInv, LogInv, BallotInv;
    match a
    case DoTick(i, due) =>
      if c.nodes[i].role == Leader { LeaderTickBallot(c, i, due); } else { FollowerTickBallot(c, i, due); }
    case DoSubmit(i, data) => SubmitBallot(c, i, data);
    case DoSend(i, k, count) => SendBallot(c, [Slice(c.nodes[i], c.nodes[i].peers[k], count)]);
    case DoRestart(i) => QuietBallot(c, i, Restart(c.nodes[i]));
    case DoDeliver(m) =>
      match m {
        case RequestVote(_, _, _, _, _) => RequestVoteBallot(c, m);
        case VoteReply(_, _, _, _) => VoteReplyBallot(c, m);
        case AppendEntries(_, _, _, _, _, _, _) => AppendEntriesBallot(c, m);
        case AppendReply(_, _, _, _, _) => QuietBallot(c, m.dst, HandleAppendReply(c.nodes[m.dst], m));
      }
  }
}
