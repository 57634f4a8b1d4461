/** What each entry point of src/cluster/raft_core.c does to a node, as functions on values.
    The class RaftNode performs the same work in place and is proved to agree with them. */
module RaftStep {

  import opened Numbers
  import opened RaftTypes
  import opened RaftLog

  // The node after a call and the messages it queued, in order.
  datatype Outcome = Outcome(node: NodeState, sent: seq<Message>)

  const NOOP: Payload := [0]

  function MyLastIndex(s: NodeState): nat { LastIndex(s.log, s.snapIndex) }
  function MyLastTerm(s: NodeState): nat { LastTerm(s.log, s.snapTerm) }
  function MyTermAt(s: NodeState, index: nat): nat { TermAt(s.log, s.snapIndex, s.snapTerm, index) }

  function Persist(s: NodeState): NodeState {
    s.(disk := Durable(s.term, s.votedFor, s.log))
  }

  // Position of the peer called id, or |peers|.
  function PeerIndex(peers: seq<Peer>, id: NodeId): (k: nat)
    ensures k <= |peers|
    ensures k < |peers| ==> peers[k].id == id
    ensures forall j :: 0 <= j < k ==> peers[j].id != id
  {
    if peers == [] then 0
    else if peers[0].id == id then 0
    else
      assert forall j :: 1 <= j < |peers| ==> peers[j] == peers[1..][j - 1];
      1 + PeerIndex(peers[1..], id)
  }

  // State transitions

  // Note that the recorded vote is erased even when `term` is the current term.
  function BecomeFollower(s: NodeState, term: nat): NodeState {
    Persist(s.(role := Follower, term := term, votedFor := NOBODY, leaderId := NOBODY, votesReceived := 0))
  }

  function ClearFlags(peers: seq<Peer>): seq<Peer> {
    seq(|peers|, k requires 0 <= k < |peers| => peers[k].(voteGranted := false))
  }

  function VoteRequests(s: NodeState): seq<Message> {
    seq(|s.peers|, k requires 0 <= k < |s.peers| =>
      RequestVote(s.id, s.peers[k].id, s.term, MyLastIndex(s), MyLastTerm(s)))
  }

  function BecomeCandidate(s: NodeState): Outcome {
    var t := Persist(s.(role := Candidate, term := s.term + 1, votedFor := s.id, votesReceived := 1,
                        leaderId := NOBODY, peers := ClearFlags(s.peers)));
    Outcome(t, VoteRequests(t))
  }

  function Append(s: NodeState, data: Payload): NodeState {
    Persist(s.(log := s.log + [LogEntry(s.term, MyLastIndex(s) + 1, 0, data)]))
  }

  function ResetProgress(peers: seq<Peer>, next: nat): seq<Peer> {
    seq(|peers|, k requires 0 <= k < |peers| => peers[k].(nextIndex := next, matchIndex := 0))
  }

  // The next index is taken before the no-op entry goes in.
  function BecomeLeader(s: NodeState): NodeState {
    Append(s.(role := Leader, leaderId := s.id, peers := ResetProgress(s.peers, MyLastIndex(s) + 1)), NOOP)
  }

  function Submit(s: NodeState, data: Payload): NodeState {
    if s.role == Leader then Append(s, data) else s
  }

  // Periodic tick

  function ApplyCommitted(s: NodeState): NodeState
    decreases s.commitIndex - s.lastApplied
  {
    if s.lastApplied >= s.commitIndex then s
    else
      var next := s.lastApplied + 1;
      match EntryAt(s.log, s.snapIndex, next)
      case None => s.(lastApplied := next)
      case Some(e) => ApplyCommitted(s.(lastApplied := next, applied := s.applied + [e.data]))
  }

  // Only lastApplied and applied change.
  lemma {:induction false} ApplyFrame(s: NodeState)
    ensures ApplyCommitted(s) == s.(lastApplied := ApplyCommitted(s).lastApplied, applied := ApplyCommitted(s).applied)
    decreases s.commitIndex - s.lastApplied
  {
    if s.lastApplied < s.commitIndex {
      match EntryAt(s.log, s.snapIndex, s.lastApplied + 1)
      case None =>
      case Some(e) => ApplyFrame(s.(lastApplied := s.lastApplied + 1, applied := s.applied + [e.data]));
    }
  }

  function CountMatches(peers: seq<Peer>, n: nat): nat {
    if peers == [] then 0
    else CountMatches(peers[..|peers| - 1], n) + (if peers[|peers| - 1].matchIndex >= n then 1 else 0)
  }

  // The guard of the leader's commit loop at index n.
  predicate Committable(s: NodeState, n: nat) {
    MyTermAt(s, n) == s.term && 1 + CountMatches(s.peers, n) > (|s.peers| + 1) / 2
  }

  /** The greatest committable index in (low, high], or low. */
  function GreatestCommittable(s: NodeState, low: nat, high: nat): (n: nat)
    ensures low <= n && (n == low || (n <= high && Committable(s, n)))
    ensures forall k :: n < k <= high ==> !Committable(s, k)
    decreases high
  {
    if high <= low then low
    else if Committable(s, high) then high
    else GreatestCommittable(s, low, high - 1)
  }

  // next_index - 1 in unsigned 64-bit arithmetic.
  function Before(next: nat): nat { if next == 0 then 0xFFFF_FFFF_FFFF_FFFF else next - 1 }

  predicate CanSlice(s: NodeState, p: Peer, count: nat) {
    count == 0 || (s.snapIndex < p.nextIndex && p.nextIndex - s.snapIndex - 1 + count <= |s.log|)
  }

  /** AppendEntries for one peer, carrying `count` entries from its next index on.  The source
      always sends count 0. */
  function Slice(s: NodeState, p: Peer, count: nat): Message
    requires CanSlice(s, p, count)
  {
    var prev := Before(p.nextIndex);
    var entries := if count == 0 then [] else s.log[prev - s.snapIndex..prev - s.snapIndex + count];
    AppendEntries(s.id, p.id, s.term, prev, MyTermAt(s, prev), entries, s.commitIndex)
  }

  function Heartbeats(s: NodeState): seq<Message> {
    seq(|s.peers|, k requires 0 <= k < |s.peers| => Slice(s, s.peers[k], 0))
  }

  function LeaderTick(s: NodeState, due: bool): Outcome {
    Outcome(s.(commitIndex := GreatestCommittable(s, s.commitIndex, MyLastIndex(s))),
            if due then Heartbeats(s) else [])
  }

  /** raft_tick; `due` says whether the heartbeat interval, or the election timeout, has passed. */
  function Tick(s: NodeState, due: bool): Outcome {
    var o := if s.role == Leader then LeaderTick(s, due)
             else if due then BecomeCandidate(s) else Outcome(s, []);
    o.(node := ApplyCommitted(o.node))
  }

  // RPC handlers

  function StepUp(s: NodeState, term: nat): NodeState {
    if term > s.term then BecomeFollower(s, term) else s
  }

  predicate UpToDate(lastIndex: nat, lastTerm: nat, myLastIndex: nat, myLastTerm: nat) {
    lastTerm > myLastTerm || (lastTerm == myLastTerm && lastIndex >= myLastIndex)
  }

  predicate Grants(s: NodeState, m: Message)
    requires m.RequestVote?
  {
    && m.term >= s.term
    && (s.votedFor == NOBODY || s.votedFor == m.src)
    && UpToDate(m.lastLogIndex, m.lastLogTerm, MyLastIndex(s), MyLastTerm(s))
  }

  // The reply carries the term from before the step-up.
  function HandleRequestVote(s: NodeState, m: Message): Outcome
    requires m.RequestVote?
  {
    var t := StepUp(s, m.term);
    var granted := Grants(t, m);
    Outcome(if granted then Persist(t.(votedFor := m.src)) else t,
            [VoteReply(s.id, m.src, s.term, granted)])
  }

  // The node as it is when the consistency check runs, for a request that is not stale.
  function Recognise(s: NodeState, m: Message): NodeState
    requires m.AppendEntries?
  {
    var t := StepUp(s, m.term).(leaderId := m.src);
    if t.role != Follower then BecomeFollower(t, m.term) else t
  }

  predicate Consistent(s: NodeState, m: Message)
    requires m.AppendEntries?
  {
    m.prevLogIndex > 0 ==> MyTermAt(s, m.prevLogIndex) == m.prevLogTerm
  }

  function Accept(s: NodeState, m: Message): NodeState
    requires m.AppendEntries?
  {
    var t := Persist(s.(log := AppendAll(s.log, s.snapIndex, m.entries)));
    if m.leaderCommit > t.commitIndex then t.(commitIndex := Min(m.leaderCommit, MyLastIndex(t))) else t
  }

  function HandleAppendEntries(s: NodeState, m: Message): Outcome
    requires m.AppendEntries?
  {
    if m.term < s.term then
      Outcome(s, [AppendReply(s.id, m.src, s.term, false, 0)])
    else
      var t := Recognise(s, m);
      if !Consistent(t, m) then
        Outcome(t, [AppendReply(s.id, m.src, s.term, false, s.snapIndex)])
      else
        var u := Accept(t, m);
        Outcome(u, [AppendReply(s.id, m.src, s.term, true, MyLastIndex(u))])
  }

  function HandleVoteReply(s: NodeState, m: Message): NodeState
    requires m.VoteReply?
  {
    var k := PeerIndex(s.peers, m.src);
    if m.term > s.term then BecomeFollower(s, m.term)
    else if s.role != Candidate || m.term < s.term || k == |s.peers| then s
    else if m.granted && !s.peers[k].voteGranted then
      var t := s.(peers := s.peers[k := s.peers[k].(voteGranted := true)], votesReceived := s.votesReceived + 1);
      if t.votesReceived > (|t.peers| + 1) / 2 then BecomeLeader(t) else t
    else s
  }

  function HandleAppendReply(s: NodeState, m: Message): NodeState
    requires m.AppendReply?
  {
    var k := PeerIndex(s.peers, m.src);
    if m.term > s.term then BecomeFollower(s, m.term)
    else if s.role != Leader || m.term < s.term || k == |s.peers| then s
    else if m.success then
      s.(peers := s.peers[k := s.peers[k].(matchIndex := m.matchIndex, nextIndex := m.matchIndex + 1)])
    else if s.peers[k].nextIndex > 1 then
      s.(peers := s.peers[k := s.peers[k].(nextIndex := s.peers[k].nextIndex - 1)])
    else s
  }

  /** raft_init, raft_add_peer for every peer, then raft_restore_state. */
  function FreshPeers(peers: seq<Peer>): seq<Peer> {
    seq(|peers|, k requires 0 <= k < |peers| => Peer(peers[k].id, 0, 0, false))
  }

  function Restart(s: NodeState): NodeState {
    NodeState(s.id, s.disk.term, s.disk.votedFor, s.disk.log, Follower, 0, 0, FreshPeers(s.peers),
              NOBODY, 0, 0, 0, s.disk, [])
  }
}
