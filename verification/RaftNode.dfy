/** RaftNode of include/cluster/raft.h: the fields, updated in place by the functions of
    src/cluster/raft_core.c.  Clocks become the `due` parameter, the send callback queues in
    `outbox`, the persist callback overwrites `disk`, the apply callback extends `applied`. */
module RaftNode {

  import opened Numbers
  import opened RaftTypes
  import opened RaftLog
  import opened RaftStep
  import opened RaftCompaction

  class Node {
    const id: NodeId
    var term: nat
    var votedFor: NodeId
    var log: Log
    var role: Role
    var commitIndex: nat
    var lastApplied: nat
    var peers: seq<Peer>
    var leaderId: NodeId
    var votesReceived: nat
    var snapIndex: nat
    var snapTerm: nat
    var disk: Durable
    var applied: seq<Payload>
    var outbox: seq<Message>

    function View(): NodeState
      reads this
    {
      NodeState(id, term, votedFor, log, role, commitIndex, lastApplied, peers, leaderId, votesReceived,
                snapIndex, snapTerm, disk, applied)
    }

    // What was last persisted is what is in memory.
    predicate Synced()
      reads this
    {
      disk == Durable(term, votedFor, log)
    }

    constructor (id: NodeId)
      ensures Synced() && this.id == id && outbox == []
      ensures View() == NodeState(id, 0, NOBODY, [], Follower, 0, 0, [], NOBODY, 0, 0, 0, Durable(0, NOBODY, []), [])
    {
      this.id := id;
      term, votedFor, log, role := 0, NOBODY, [], Follower;
      commitIndex, lastApplied, peers, leaderId, votesReceived := 0, 0, [], NOBODY, 0;
      snapIndex, snapTerm, disk, applied, outbox := 0, 0, Durable(0, NOBODY, []), [], [];
    }

    method FindPeer(peerId: NodeId) returns (k: nat)
      ensures k == PeerIndex(peers, peerId)
    {
      k := 0;
      while k < |peers|
        invariant k <= PeerIndex(peers, peerId)
      {
        if peers[k].id == peerId { break; }
        k := k + 1;
      }
    }

    method AddPeer(peerId: NodeId) returns (ok: bool)
      modifies this`peers
      ensures ok == (PeerIndex(old(peers), peerId) == |old(peers)|)
      ensures peers == if ok then old(peers) + [Peer(peerId, 0, 0, false)] else old(peers)
    {
      var k := FindPeer(peerId);
      ok := k == |peers|;
      if ok { peers := peers + [Peer(peerId, 0, 0, false)]; }
    }

    method PersistState()
      modifies this`disk
      ensures Synced() && View() == Persist(old(View()))
    {
      disk := Durable(term, votedFor, log);
    }

    method BecomeFollower(newTerm: nat)
      modifies `role, `term, `votedFor, `leaderId, `votesReceived, `disk
      ensures Synced() && View() == RaftStep.BecomeFollower(old(View()), newTerm)
    {
      role, term, votedFor, leaderId, votesReceived := Follower, newTerm, NOBODY, NOBODY, 0;
      PersistState();
    }

    method BecomeCandidate()
      modifies this
      ensures Synced() && View() == RaftStep.BecomeCandidate(old(View())).node
      ensures outbox == old(outbox) + RaftStep.BecomeCandidate(old(View())).sent
    {
      hide VoteRequests, ClearFlags;
      StartCampaign();
      RequestVotes();
    }

    method StartCampaign()
      modifies `role, `term, `votedFor, `votesReceived, `leaderId, `peers, `disk
      ensures Synced() && View() == RaftStep.BecomeCandidate(old(View())).node
    {
      hide VoteRequests, ClearFlags;
      ghost var s := View();
      role, term, votedFor, votesReceived, leaderId := Candidate, term + 1, id, 1, NOBODY;
      ResetVotes();
      assert View() == s.(role := Candidate, term := s.term + 1, votedFor := s.id, votesReceived := 1,
                          leaderId := NOBODY, peers := ClearFlags(s.peers));
      PersistState();
    }

    method ResetVotes()
      modifies this`peers
      ensures peers == ClearFlags(old(peers))
    {
      for i := 0 to |peers|
        invariant |peers| == |old(peers)|
        invariant forall k :: 0 <= k < i ==> peers[k] == old(peers)[k].(voteGranted := false)
        invariant forall k :: i <= k < |peers| ==> peers[k] == old(peers)[k]
      {
        peers := peers[i := peers[i].(voteGranted := false)];
      }
    }

    method RequestVotes()
      modifies this`outbox
      ensures outbox == old(outbox) + VoteRequests(View())
    {
      for i := 0 to |peers|
        invariant outbox == old(outbox) + VoteRequests(View())[..i]
      {
        outbox := outbox + [RequestVote(id, peers[i].id, term, MyLastIndex(View()), MyLastTerm(View()))];
      }
    }

    method Submit(data: Payload) returns (status: int)
      modifies this
      ensures status == if old(role) == Leader then 0 else -1
      ensures View() == RaftStep.Submit(old(View()), data) && outbox == old(outbox)
      ensures old(role) == Leader || old(Synced()) ==> Synced()
    {
      if role != Leader { return -1; }
      log := log + [LogEntry(term, MyLastIndex(View()) + 1, 0, data)];
      PersistState();
      status := 0;
    }

    method BecomeLeader()
      modifies this
      ensures Synced() && View() == RaftStep.BecomeLeader(old(View()))
      ensures outbox == old(outbox)
    {
      role := Leader;
      leaderId := id;
      InitProgress(MyLastIndex(View()) + 1);
      var _ := Submit(NOOP);
    }

    method InitProgress(next: nat)
      modifies this`peers
      ensures peers == ResetProgress(old(peers), next)
    {
      for i := 0 to |peers|
        invariant |peers| == |old(peers)|
        invariant forall k :: 0 <= k < i ==> peers[k] == old(peers)[k].(nextIndex := next, matchIndex := 0)
        invariant forall k :: i <= k < |peers| ==> peers[k] == old(peers)[k]
      {
        peers := peers[i := peers[i].(nextIndex := next, matchIndex := 0)];
      }
    }

    method ApplyCommittedEntries()
      modifies this`lastApplied, this`applied
      ensures View() == ApplyCommitted(old(View()))
    {
      while lastApplied < commitIndex
        invariant ApplyCommitted(View()) == ApplyCommitted(old(View()))
        decreases commitIndex - lastApplied
      {
        lastApplied := lastApplied + 1;
        var entry := EntryAt(log, snapIndex, lastApplied);
        if entry.None? { return; }
        applied := applied + [entry.value.data];
      }
    }

    method AdvanceCommitIndex()
      modifies this`commitIndex
      ensures View() == old(View()).(commitIndex := GreatestCommittable(old(View()), old(commitIndex), MyLastIndex(old(View()))))
    {
      ghost var s := View();
      var n := commitIndex + 1;
      while n <= MyLastIndex(View())
        invariant s.commitIndex < n
        invariant n <= MyLastIndex(s) + 1 || n == s.commitIndex + 1
        invariant View() == s.(commitIndex := commitIndex)
        invariant commitIndex == GreatestCommittable(s, s.commitIndex, n - 1)
        decreases MyLastIndex(s) - n
      {
        if MyTermAt(View(), n) == term {
          var replicas := CountReplicas(n);
          if replicas > (|peers| + 1) / 2 { commitIndex := n; }
        }
        n := n + 1;
      }
    }

    method CountReplicas(n: nat) returns (replicas: nat)
      ensures replicas == 1 + CountMatches(peers, n)
    {
      replicas := 1;
      for i := 0 to |peers|
        invariant replicas == 1 + CountMatches(peers[..i], n)
      {
        assert peers[..i + 1][..i] == peers[..i];
        if peers[i].matchIndex >= n { replicas := replicas + 1; }
      }
      assert peers[..|peers|] == peers;
    }

    method LeaderTick(due: bool)
      modifies this
      ensures View() == RaftStep.LeaderTick(old(View()), due).node
      ensures outbox == old(outbox) + RaftStep.LeaderTick(old(View()), due).sent
    {
      ghost var s := View();
      if due {
        for i := 0 to |peers|
          invariant View() == s
          invariant outbox == old(outbox) + Heartbeats(s)[..i]
        {
          outbox := outbox + [Slice(View(), peers[i], 0)];
        }
      }
      AdvanceCommitIndex();
    }

    method Tick(due: bool)
      modifies this
      ensures old(Synced()) ==> Synced()
      ensures View() == RaftStep.Tick(old(View()), due).node
      ensures outbox == old(outbox) + RaftStep.Tick(old(View()), due).sent
    {
      if role == Leader {
        LeaderTick(due);
      } else if due {
        BecomeCandidate();
      }
      ApplyCommittedEntries();
    }

    method HandleRequestVote(m: Message) returns (reply: Message)
      requires m.RequestVote?
      modifies this
      ensures (old(Synced()) ==> Synced()) && outbox == old(outbox)
      ensures View() == RaftStep.HandleRequestVote(old(View()), m).node
      ensures [reply] == RaftStep.HandleRequestVote(old(View()), m).sent
    {
      reply := VoteReply(id, m.src, term, false);
      if m.term > term { BecomeFollower(m.term); }
      if m.term < term { return; }
      if votedFor != NOBODY && votedFor != m.src { return; }
      if !UpToDate(m.lastLogIndex, m.lastLogTerm, MyLastIndex(View()), MyLastTerm(View())) { return; }
      votedFor := m.src;
      PersistState();
      reply := reply.(granted := true);
    }

    method HandleAppendEntries(m: Message) returns (reply: Message)
      requires m.AppendEntries?
      modifies this
      ensures (old(Synced()) ==> Synced()) && outbox == old(outbox)
      ensures View() == RaftStep.HandleAppendEntries(old(View()), m).node
      ensures [reply] == RaftStep.HandleAppendEntries(old(View()), m).sent
    {
      hide AppendAll;
      reply := AppendReply(id, m.src, term, false, 0);
      if m.term > term { BecomeFollower(m.term); }
      if m.term < term { return; }
      leaderId := m.src;
      if role != Follower { BecomeFollower(m.term); }
      if m.prevLogIndex > 0 {
        if MyTermAt(View(), m.prevLogIndex) != m.prevLogTerm {
          reply := reply.(matchIndex := snapIndex);
          return;
        }
      }
      AppendBatch(m.entries);
      PersistState();
      if m.leaderCommit > commitIndex {
        commitIndex := Min(m.leaderCommit, MyLastIndex(View()));
      }
      reply := reply.(success := true, matchIndex := MyLastIndex(View()));
    }

    method AppendBatch(entries: Log)
      modifies this`log
      ensures View() == old(View()).(log := AppendAll(old(log), snapIndex, entries))
    {
      for i := 0 to |entries|
        invariant View() == old(View()).(log := log)
        invariant log == AppendAll(old(log), snapIndex, entries[..i])
      {
        var e := entries[i];
        assert entries[..i + 1][..i] == entries[..i];
        var existing := EntryAt(log, snapIndex, e.index);
        if existing.Some? && existing.value.term != e.term {
          log := log[..e.index - snapIndex - 1];
        }
        if EntryAt(log, snapIndex, e.index).None? {
          log := log + [e];
        }
      }
      assert entries[..|entries|] == entries;
    }

    /** raft_save_snapshot, after the snapshot file is written.  The write-ahead log is not
        rewritten here. */
    method SaveSnapshot(index: nat, indexTerm: nat)
      modifies this`log, this`snapIndex, this`snapTerm
      ensures View() == old(View()).(log := KeepAfter(old(log), index), snapIndex := index, snapTerm := indexTerm)
    {
      snapIndex := index;
      snapTerm := indexTerm;
      var newCount := 0;
      for i := 0 to |log|
        invariant newCount <= i && |log| == |old(log)|
        invariant snapIndex == index && snapTerm == indexTerm
        invariant log[..newCount] == KeepAfter(old(log)[..i], index)
        invariant log[i..] == old(log)[i..]
      {
        assert old(log)[..i + 1][..i] == old(log)[..i];
        assert log[i] == log[i..][0] == old(log)[i];
        if log[i].index > index {
          log := log[newCount := log[i]];
          newCount := newCount + 1;
        }
      }
      assert old(log)[..|old(log)|] == old(log);
      log := log[..newCount];
    }

    method HandleVoteReply(m: Message)
      requires m.VoteReply?
      modifies this
      ensures (old(Synced()) ==> Synced()) && outbox == old(outbox)
      ensures View() == RaftStep.HandleVoteReply(old(View()), m)
    {
      if m.term > term { BecomeFollower(m.term); return; }
      if role != Candidate || m.term < term { return; }
      var k := FindPeer(m.src);
      if k == |peers| { return; }
      if m.granted && !peers[k].voteGranted {
        peers := peers[k := peers[k].(voteGranted := true)];
        votesReceived := votesReceived + 1;
        if votesReceived > (|peers| + 1) / 2 { BecomeLeader(); }
      }
    }

    method HandleAppendReply(m: Message)
      requires m.AppendReply?
      modifies this
      ensures (old(Synced()) ==> Synced()) && outbox == old(outbox)
      ensures View() == RaftStep.HandleAppendReply(old(View()), m)
    {
      if m.term > term { BecomeFollower(m.term); return; }
      if role != Leader || m.term < term { return; }
      var k := FindPeer(m.src);
      if k == |peers| { return; }
      if m.success {
        peers := peers[k := peers[k].(matchIndex := m.matchIndex, nextIndex := m.matchIndex + 1)];
      } else if peers[k].nextIndex > 1 {
        peers := peers[k := peers[k].(nextIndex := peers[k].nextIndex - 1)];
      }
    }
  }
}
