/** The data of a Raft node and of the messages it exchanges (include/cluster/raft.h). */
module RaftTypes {

  import opened Bytes

  // A node id is a C string; the empty string stands for "nobody" (an all-zero buffer).
  type NodeId = string
  const NOBODY: NodeId := ""

  type Payload = seq<byte>

  datatype Option<+T> = None | Some(value: T)

  datatype Role = Follower | Candidate | Leader

  datatype LogEntry = LogEntry(term: nat, index: nat, kind: byte, data: Payload)

  type Log = seq<LogEntry>

  datatype Peer = Peer(id: NodeId, nextIndex: nat, matchIndex: nat, voteGranted: bool)

  // What the persist callback saves.
  datatype Durable = Durable(term: nat, votedFor: NodeId, log: Log)

  datatype Message =
    | RequestVote(src: NodeId, dst: NodeId, term: nat, lastLogIndex: nat, lastLogTerm: nat)
    | VoteReply(src: NodeId, dst: NodeId, term: nat, granted: bool)
    | AppendEntries(src: NodeId, dst: NodeId, term: nat, prevLogIndex: nat, prevLogTerm: nat,
                    entries: Log, leaderCommit: nat)
    | AppendReply(src: NodeId, dst: NodeId, term: nat, success: bool, matchIndex: nat)

  /** The fields of RaftNode that its decisions depend on, the last state handed to the persist
      callback (`disk`) and the payloads handed to the apply callback so far (`applied`). */
  datatype NodeState = NodeState(
    id: NodeId,
    term: nat,
    votedFor: NodeId,
    log: Log,
    role: Role,
    commitIndex: nat,
    lastApplied: nat,
    peers: seq<Peer>,
    leaderId: NodeId,
    votesReceived: nat,
    snapIndex: nat,
    snapTerm: nat,
    disk: Durable,
    applied: seq<Payload>)
}
