/** What callers may rely on in each entry point of src/cluster/raft_core.c, said of its results alone: answers to stale
    requests, when a vote must be given, stepping down, what a reply changes and what it leaves. */
module Handlers {

  import opened Numbers
  import opened RaftTypes
  import opened RaftLog
  import opened RaftStep
  import opened Applying

  // Terms

  function Max(a: nat, b: nat): nat { if a < b then b else a }

  /** Whatever the message, the node's term becomes the greater of the two, and a greater term makes it a follower. */
  lemma TermRule(s: NodeState, m: Message)
    ensures Do(s, CallMessage(m)).term == Max(s.term, m.term)
    ensures m.term > s.term ==> Do(s, CallMessage(m)).role == Follower
  {
    hide AppendAll, UpToDate, Consistent;
  }

  /** Stepping down to a greater term, a node forgets its vote, its count and its leader, but for what the message itself
      then gives it, and keeps its log unless the message brings entries. */
  lemma StepDownRule(s: NodeState, m: Message)
    requires m.term > s.term
    ensures var t := Do(s, CallMessage(m));
      && t.votesReceived == 0 && t.peers == s.peers
      && (t.votedFor == NOBODY || (m.RequestVote? && t.votedFor == m.src))
      && t.leaderId == (if m.AppendEntries? then m.src else NOBODY)
      && (!m.AppendEntries? ==> t.log == s.log && t.commitIndex == s.commitIndex)
  {
    hide AppendAll, UpToDate, Consistent;
  }

  /** Only a leader takes a submission: one entry of its term, next in order, with that payload. */
  lemma SubmitRule(s: NodeState, data: Payload)
    ensures s.role != Leader ==> Submit(s, data) == s
    ensures s.role == Leader ==>
      var t := Submit(s, data);
      t.log == s.log + [LogEntry(s.term, LastIndex(s.log, s.snapIndex) + 1, 0, data)]
      && t == s.(log := t.log, disk := Durable(s.term, s.votedFor, t.log))
  {
  }

  /** Only a message of a greater term, an AppendEntries of the own term or an election changes the role. */
  lemma RoleRule(s: NodeState, m: Message)
    ensures Do(s, CallMessage(m)).role != s.role ==>
      || m.term > s.term
      || (m.AppendEntries? && m.term == s.term && Do(s, CallMessage(m)).role == Follower)
      || (m.VoteReply? && m.granted && m.term == s.term && s.role == Candidate && Do(s, CallMessage(m)).role == Leader)
  {
    hide AppendAll, UpToDate, Consistent;
  }

  // Votes

  /** Of any two logs at least one is up to date for the other. */
  lemma UpToDateTotal(i: nat, t: nat, j: nat, u: nat)
    ensures UpToDate(i, t, j, u) || UpToDate(j, u, i, t)
    ensures UpToDate(i, t, j, u) && UpToDate(j, u, i, t) <==> i == j && t == u
    ensures UpToDate(i + 1, t, i, t) && UpToDate(i, t + 1, j, t)
  {
  }

  // (t, i) is lexicographically at least (u, j).
  predicate AtLeast(t: nat, i: nat, u: nat, j: nat) {
    !(t < u) && (t == u ==> !(i < j))
  }

  /** A vote is given if and only if the term is not stale, the vote is free for this candidate, and its log is at least
      as good.  The one reply says so with the term from before. */
  lemma GrantedIff(s: NodeState, m: Message)
    requires m.RequestVote?
    ensures var o := HandleRequestVote(s, m);
      && |o.sent| == 1 && o.sent[0].VoteReply? && o.sent[0].src == s.id && o.sent[0].dst == m.src && o.sent[0].term == s.term
      && (o.sent[0].granted <==>
          && m.term >= s.term
          && (m.term > s.term || s.votedFor == NOBODY || s.votedFor == m.src)
          && AtLeast(m.lastLogTerm, m.lastLogIndex, LastTerm(s.log, s.snapTerm), LastIndex(s.log, s.snapIndex)))
      && o.node.votedFor == (if o.sent[0].granted then m.src else if m.term > s.term then NOBODY else s.votedFor)
      && o.node.log == s.log && o.node.commitIndex == s.commitIndex
  {
  }

  /** A campaign: the next term, the own vote and no other, and one request to each peer that describes the own log. */
  lemma Campaign(s: NodeState)
    requires s.role != Leader
    ensures var o := Tick(s, true);
      && o.node.term == s.term + 1 && o.node.role == Candidate && o.node.votedFor == s.id && o.node.votesReceived == 1
      && o.node.log == s.log && o.node.leaderId == NOBODY && |o.node.peers| == |s.peers|
      && (forall k :: 0 <= k < |s.peers| ==> o.node.peers[k] == s.peers[k].(voteGranted := false))
      && |o.sent| == |s.peers|
      && (forall k :: 0 <= k < |s.peers| ==>
          o.sent[k] == RequestVote(s.id, s.peers[k].id, s.term + 1, LastIndex(s.log, s.snapIndex), LastTerm(s.log, s.snapTerm)))
  {
    hide ApplyCommitted;
    ApplyFrame(BecomeCandidate(s).node);
  }

  /** Without a timeout nothing is sent, and only what is committed gets applied. */
  lemma Idle(s: NodeState)
    requires s.role != Leader
    ensures var o := Tick(s, false);
      o.sent == [] && o.node == s.(lastApplied := o.node.lastApplied, applied := o.node.applied)
  {
    hide ApplyCommitted;
    ApplyFrame(s);
  }

  /** A grant of the own term from a peer not yet counted, and nothing else, adds one to a candidate's count; it becomes
      leader if and only if that makes a strict majority, then with one no-op entry more. */
  lemma CountedIff(s: NodeState, m: Message)
    requires m.VoteReply? && s.role == Candidate && m.term <= s.term
    ensures var t, k := HandleVoteReply(s, m), PeerIndex(s.peers, m.src);
      var counts := m.term == s.term && k < |s.peers| && m.granted && !s.peers[k].voteGranted;
      && (!counts ==> t == s)
      && (counts ==>
        && t.votesReceived == s.votesReceived + 1 && t.term == s.term && t.votedFor == s.votedFor
        && |t.peers| == |s.peers|
        && (forall j :: 0 <= j < |s.peers| ==>
            t.peers[j].id == s.peers[j].id && t.peers[j].voteGranted == (j == k || s.peers[j].voteGranted))
        && (t.role == Leader <==> 2 * t.votesReceived > |s.peers| + 1)
        && (t.role == Leader ==> t.leaderId == s.id && t.log == s.log + [LogEntry(s.term, LastIndex(s.log, s.snapIndex) + 1, 0, NOOP)])
        && (t.role != Leader ==> t.role == Candidate && t.log == s.log))
  {
  }

  // Requests to append

  /** A stale request changes nothing, and its one answer carries this node's term. */
  lemma StaleAnswer(s: NodeState, m: Message)
    requires m.AppendEntries? && m.term < s.term
    ensures HandleAppendEntries(s, m) == Outcome(s, [AppendReply(s.id, m.src, s.term, false, 0)])
  {
  }

  /** So a deposed leader that is still at it steps down on the answer. */
  lemma StaleLeaderStepsDown(leader: NodeState, s: NodeState, m: Message)
    requires m.AppendEntries? && m.src == leader.id && m.term == leader.term < s.term
    ensures var t := HandleAppendReply(leader, HandleAppendEntries(s, m).sent[0]);
      t.role == Follower && t.term == s.term && t.votedFor == NOBODY && t.log == leader.log
  {
    StaleAnswer(s, m);
  }

  /** A candidate with an old term does, too. */
  lemma StaleCandidateStepsDown(cand: NodeState, s: NodeState, m: Message)
    requires m.RequestVote? && m.src == cand.id && m.term == cand.term < s.term
    ensures var t := HandleVoteReply(cand, HandleRequestVote(s, m).sent[0]);
      t.role == Follower && t.term == s.term && t.votedFor == NOBODY && t.log == cand.log
  {
    hide UpToDate;
  }

  /** When a request succeeds, and what the one answer says. */
  lemma AppendAnswer(s: NodeState, m: Message)
    requires m.AppendEntries?
    ensures var o := HandleAppendEntries(s, m);
      && |o.sent| == 1 && o.sent[0].AppendReply? && o.sent[0].src == s.id && o.sent[0].dst == m.src && o.sent[0].term == s.term
      && (o.sent[0].success <==>
          m.term >= s.term && (m.prevLogIndex == 0 || MyTermAt(s, m.prevLogIndex) == m.prevLogTerm))
      && o.sent[0].matchIndex == (if o.sent[0].success then LastIndex(o.node.log, s.snapIndex)
                                  else if m.term < s.term then 0 else s.snapIndex)
  {
    hide AppendAll;
  }

  /** What a request that is not stale leaves: a follower in the request's term, the log and the commit index changed only
      by a success, and the sender known as leader unless a candidate has just given way to it. */
  lemma AppendEffect(s: NodeState, m: Message)
    requires m.AppendEntries? && m.term >= s.term
    ensures var o := HandleAppendEntries(s, m);
      && o.node.role == Follower && o.node.term == m.term && o.node.peers == s.peers
      && (!o.sent[0].success ==> o.node.log == s.log && o.node.commitIndex == s.commitIndex)
      && (o.sent[0].success ==>
          && o.node.log == AppendAll(s.log, s.snapIndex, m.entries)
          && o.node.commitIndex == if m.leaderCommit > s.commitIndex
             then Min(m.leaderCommit, LastIndex(o.node.log, s.snapIndex)) else s.commitIndex)
      && o.node.leaderId == (if m.term > s.term || s.role == Follower then m.src else NOBODY)
      && o.node.votedFor == (if m.term > s.term || s.role != Follower then NOBODY else s.votedFor)
      && o.node.lastApplied == s.lastApplied && o.node.applied == s.applied
  {
    hide AppendAll, Consistent;
  }

  // Replies to the leader

  /** A counted success sets the progress of the peer that answered, a refusal lowers its next index by exactly one while
      that is above 1, and no other peer and nothing else of the node changes. */
  lemma ProgressRule(s: NodeState, m: Message)
    requires m.AppendReply? && m.term <= s.term
    ensures var t, k := HandleAppendReply(s, m), PeerIndex(s.peers, m.src);
      && t == s.(peers := t.peers) && |t.peers| == |s.peers|
      && (forall j :: 0 <= j < |s.peers| && j != k ==> t.peers[j] == s.peers[j])
      && (s.role != Leader || m.term < s.term ==> t == s)
      && (s.role == Leader && m.term == s.term && k < |s.peers| ==>
          && t.peers[k].id == s.peers[k].id && t.peers[k].voteGranted == s.peers[k].voteGranted
          && (m.success ==> t.peers[k].matchIndex == m.matchIndex && t.peers[k].nextIndex == m.matchIndex + 1)
          && (!m.success ==> t.peers[k].matchIndex == s.peers[k].matchIndex)
          && (!m.success && s.peers[k].nextIndex > 1 ==> t.peers[k].nextIndex == s.peers[k].nextIndex - 1)
          && (!m.success && s.peers[k].nextIndex <= 1 ==> t.peers[k].nextIndex == s.peers[k].nextIndex))
  {
  }

  // k refusals in a row
  function BackOff(s: NodeState, m: Message, k: nat): NodeState
    requires m.AppendReply?
  {
    if k == 0 then s else HandleAppendReply(BackOff(s, m, k - 1), m)
  }

  function WithNext(s: NodeState, i: nat, next: nat): NodeState
    requires i < |s.peers|
  {
    s.(peers := s.peers[i := s.peers[i].(nextIndex := next)])
  }

  lemma OneRefusal(s: NodeState, m: Message, next: nat)
    requires m.AppendReply? && !m.success && s.role == Leader && m.term == s.term && PeerIndex(s.peers, m.src) < |s.peers|
    requires next >= 1
    ensures var i := PeerIndex(s.peers, m.src);
      HandleAppendReply(WithNext(s, i, next), m) == WithNext(s, i, if next > 1 then next - 1 else 1)
  {
    hide PeerIndex;
    var i := PeerIndex(s.peers, m.src);
    SamePosition(s.peers, WithNext(s, i, next).peers, m.src);
  }

  /** So refusals take the next index down to 1, one by one, and no further: the anchor comes to 0, which always passes. */
  lemma {:induction false} BackOffTheorem(s: NodeState, m: Message, k: nat)
    requires m.AppendReply? && !m.success && s.role == Leader && m.term == s.term && PeerIndex(s.peers, m.src) < |s.peers|
    requires s.peers[PeerIndex(s.peers, m.src)].nextIndex >= 1
    ensures var i := PeerIndex(s.peers, m.src);
      var next := s.peers[i].nextIndex;
      BackOff(s, m, k) == WithNext(s, i, if k < next then next - k else 1)
  {
    hide PeerIndex, HandleAppendReply, WithNext;
    var i := PeerIndex(s.peers, m.src);
    var next := s.peers[i].nextIndex;
    if k == 0 {
      SameNext(s, i);
    } else {
      BackOffTheorem(s, m, k - 1);
      OneRefusal(s, m, if k - 1 < next then next - (k - 1) else 1);
    }
  }

  lemma SameNext(s: NodeState, i: nat)
    requires i < |s.peers|
    ensures WithNext(s, i, s.peers[i].nextIndex) == s
  {
    assert s.peers[i := s.peers[i]] == s.peers;
  }

  lemma {:induction false} SamePosition(p: seq<Peer>, q: seq<Peer>, id: NodeId)
    requires |p| == |q| && forall k :: 0 <= k < |p| ==> p[k].id == q[k].id
    ensures PeerIndex(p, id) == PeerIndex(q, id)
  {
    hide PeerIndex;
    var i, j := PeerIndex(p, id), PeerIndex(q, id);
    assert i < |p| ==> q[i].id == id;
    assert j < |q| ==> p[j].id == id;
  }

  // The leader's requests

  /** A heartbeat goes to every peer, about the entry before its next index, with the commit index from before the tick. */
  lemma HeartbeatRule(s: NodeState)
    requires s.role == Leader && forall k :: 0 <= k < |s.peers| ==> s.peers[k].nextIndex > 0
    ensures Tick(s, false).sent == [] && |Tick(s, true).sent| == |s.peers|
    ensures forall k :: 0 <= k < |s.peers| ==>
      Tick(s, true).sent[k] == AppendEntries(s.id, s.peers[k].id, s.term, s.peers[k].nextIndex - 1,
                                             MyTermAt(s, s.peers[k].nextIndex - 1), [], s.commitIndex)
    ensures Tick(s, true).node == Tick(s, false).node
  {
    hide ApplyCommitted, GreatestCommittable;
  }

  /** A request with entries carries exactly those from the next index on. */
  lemma SliceRule(s: NodeState, p: Peer, count: nat)
    requires CanSlice(s, p, count) && p.nextIndex > s.snapIndex
    ensures var m := Slice(s, p, count);
      && m.src == s.id && m.dst == p.id && m.term == s.term && m.leaderCommit == s.commitIndex
      && m.prevLogIndex == p.nextIndex - 1 && m.prevLogTerm == MyTermAt(s, p.nextIndex - 1) && |m.entries| == count
      && forall k :: 0 <= k < count ==> EntryAt(s.log, s.snapIndex, p.nextIndex + k) == Some(m.entries[k])
  {
  }
}
