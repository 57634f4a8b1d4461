/** A cluster of Raft nodes and a network that may lose, duplicate, delay and reorder messages,
    as a transition system.  A run is a sequence of atomic calls into the nodes. */
module Cluster {

  import opened RaftTypes
  import opened RaftStep

  // History, written by the steps below and read by no node.

  /** One granted vote (voter != cand) or the vote of a candidate for itself, with the voter's log
      at that moment; `late` if the term already had a leader by then. */
  datatype Vote = Vote(voter: NodeId, cand: NodeId, term: nat, lastIndex: nat, lastTerm: nat, log: Log, late: bool)

  /** The election of a term's leader: who voted, how long its log was, and its log since. */
  datatype Election = Election(leader: NodeId, quorum: set<NodeId>, base: nat, log: Log)

  /** An AppendEntries of `term`, answered with success in that term, left `node` with last index `index`.
      A success answered with an earlier term is thrown away by the leader and not recorded. */
  datatype Ack = Ack(node: NodeId, term: nat, index: nat)

  datatype State = State(
    nodes: map<NodeId, NodeState>,
    msgs: set<Message>,             // every message ever sent
    votes: set<Vote>,
    elections: map<nat, Election>,  // by term
    acks: set<Ack>)

  datatype Action =
    | DoTick(node: NodeId, due: bool)
    | DoSubmit(node: NodeId, data: Payload)
    | DoSend(node: NodeId, peer: nat, count: nat)
    | DoDeliver(msg: Message)
    | DoRestart(node: NodeId)

  function Actor(a: Action): NodeId {
    match a
    case DoTick(i, _) => i
    case DoSubmit(i, _) => i
    case DoSend(i, _, _) => i
    case DoDeliver(m) => m.dst
    case DoRestart(i) => i
  }

  // Any delivery order, any number of deliveries of the same message, or none.
  predicate Enabled(c: State, a: Action) {
    match a
    case DoTick(i, _) => i in c.nodes
    case DoSubmit(i, _) => i in c.nodes
    case DoSend(i, k, count) =>
      && i in c.nodes && c.nodes[i].role == Leader
      && k < |c.nodes[i].peers| && CanSlice(c.nodes[i], c.nodes[i].peers[k], count)
    case DoDeliver(m) => m in c.msgs && m.dst in c.nodes
    case DoRestart(i) => i in c.nodes
  }

  function SetNode(c: State, i: NodeId, s: NodeState): State {
    c.(nodes := c.nodes[i := s])
  }

  function Elements(out: seq<Message>): set<Message> { set m | m in out }

  function Send(c: State, out: seq<Message>): State {
    c.(msgs := c.msgs + Elements(out))
  }

  function AddVote(c: State, voter: NodeId, cand: NodeId, term: nat, li: nat, lt: nat, log: Log): State {
    c.(votes := c.votes + {Vote(voter, cand, term, li, lt, log, term in c.elections)})
  }

  function FlaggedPeers(peers: seq<Peer>): set<NodeId> {
    set k | 0 <= k < |peers| && peers[k].voteGranted :: peers[k].id
  }

  // Records that leader s, at the head of a term, has this log.
  function SetLeaderLog(c: State, s: NodeState): State {
    if s.term in c.elections
    then c.(elections := c.elections[s.term := c.elections[s.term].(log := s.log)])
    else c
  }

  function ApplyTick(c: State, i: NodeId, due: bool): State
    requires i in c.nodes
  {
    var s := c.nodes[i];
    var o := Tick(s, due);
    var d := Send(SetNode(c, i, o.node), o.sent);
    if o.node.term > s.term
    then AddVote(d, i, i, o.node.term, MyLastIndex(s), MyLastTerm(s), s.log)
    else d
  }

  function ApplySubmit(c: State, i: NodeId, data: Payload): State
    requires i in c.nodes
  {
    var s := Submit(c.nodes[i], data);
    if s.role == Leader then SetLeaderLog(SetNode(c, i, s), s) else c
  }

  function ApplyRequestVote(c: State, m: Message): State
    requires m.RequestVote? && m.dst in c.nodes
  {
    var o := HandleRequestVote(c.nodes[m.dst], m);
    var d := Send(SetNode(c, m.dst, o.node), o.sent);
    if o.sent[0].granted
    then AddVote(d, m.dst, m.src, m.term, m.lastLogIndex, m.lastLogTerm, o.node.log)
    else d
  }

  function ApplyVoteReply(c: State, m: Message): State
    requires m.VoteReply? && m.dst in c.nodes
  {
    var s := c.nodes[m.dst];
    var t := HandleVoteReply(s, m);
    var d := SetNode(c, m.dst, t);
    if t.role == Leader && s.role != Leader
    then d.(elections := d.elections[t.term := Election(m.dst, FlaggedPeers(t.peers) + {m.dst}, |s.log|, t.log)])
    else d
  }

  function ApplyAppendEntries(c: State, m: Message): State
    requires m.AppendEntries? && m.dst in c.nodes
  {
    var o := HandleAppendEntries(c.nodes[m.dst], m);
    var d := Send(SetNode(c, m.dst, o.node), o.sent);
    if o.sent[0].success && o.sent[0].term == m.term then d.(acks := d.acks + {Ack(m.dst, m.term, o.sent[0].matchIndex)}) else d
  }

  function Apply(c: State, a: Action): State
    requires Enabled(c, a)
  {
    match a
    case DoTick(i, due) => ApplyTick(c, i, due)
    case DoSubmit(i, data) => ApplySubmit(c, i, data)
    case DoSend(i, k, count) => Send(c, [Slice(c.nodes[i], c.nodes[i].peers[k], count)])
    case DoRestart(i) => SetNode(c, i, Restart(c.nodes[i]))
    case DoDeliver(m) =>
      if m.RequestVote? then ApplyRequestVote(c, m)
      else if m.VoteReply? then ApplyVoteReply(c, m)
      else if m.AppendEntries? then ApplyAppendEntries(c, m)
      else SetNode(c, m.dst, HandleAppendReply(c.nodes[m.dst], m))
  }

  // Fixed membership: each node's peers are exactly the other nodes, each once.
  ghost predicate PeersAre(ids: set<NodeId>, i: NodeId, peers: seq<Peer>) {
    && (forall j, k :: 0 <= j < k < |peers| ==> peers[j].id != peers[k].id)
    && (forall k :: 0 <= k < |peers| ==> peers[k].id in ids && peers[k].id != i)
    && |peers| + 1 == |ids|
  }

  ghost predicate IsFresh(ids: set<NodeId>, i: NodeId, s: NodeState) {
    && PeersAre(ids, i, s.peers) && s.peers == FreshPeers(s.peers)
    && s == NodeState(i, 0, NOBODY, [], Follower, 0, 0, s.peers, NOBODY, 0, 0, 0, Durable(0, NOBODY, []), [])
  }

  ghost predicate Init(c: State) {
    && NOBODY !in c.nodes
    && (forall i :: i in c.nodes ==> IsFresh(c.nodes.Keys, i, c.nodes[i]))
    && c.msgs == {} && c.votes == {} && c.elections == map[] && c.acks == {}
  }

  /** states[0], actions[0], states[1], ..., states[|actions|]. */
  ghost predicate IsRun(states: seq<State>, actions: seq<Action>) {
    && |states| == |actions| + 1
    && Init(states[0])
    && forall k :: 0 <= k < |actions| ==>
         Enabled(states[k], actions[k]) && states[k + 1] == Apply(states[k], actions[k])
  }
}
