/** A run of three nodes, with the empty heartbeats the source sends and nothing lost on disk, in which two
    nodes apply different payloads at one index.  State Machine Safety needs its run hypothesis. */
module Divergence {

  import opened RaftTypes
  import opened RaftStep
  import opened Cluster

  // What a node does in an action, history aside.
  function Acts(s: NodeState, a: Action): Outcome
    requires a.DoTick? || a.DoSubmit? || a.DoDeliver?
  {
    match a
    case DoTick(_, due) => Tick(s, due)
    case DoSubmit(_, data) => Outcome(Submit(s, data), [])
    case DoDeliver(m) =>
      if m.RequestVote? then HandleRequestVote(s, m)
      else if m.VoteReply? then Outcome(HandleVoteReply(s, m), [])
      else if m.AppendEntries? then HandleAppendEntries(s, m)
      else Outcome(HandleAppendReply(s, m), [])
  }

  // A run of the source as it stands: its leader ticks send no entries, and no node restarts.
  ghost predicate IsUndisturbedRun(states: seq<State>, actions: seq<Action>) {
    IsRun(states, actions) && forall k :: 0 <= k < |actions| ==> !actions[k].DoSend? && !actions[k].DoRestart?
  }

  lemma ActsInCluster(c: State, a: Action)
    requires (a.DoTick? || a.DoSubmit? || a.DoDeliver?) && Enabled(c, a)
    ensures var o := Acts(c.nodes[Actor(a)], a);
      Apply(c, a).nodes == c.nodes[Actor(a) := o.node] && Apply(c, a).msgs == c.msgs + Elements(o.sent)
  {
    hide Tick, HandleRequestVote, HandleVoteReply, HandleAppendEntries, HandleAppendReply;
    assert Elements([]) == {};
    if a.DoSubmit? && c.nodes[a.node].role != Leader {
      assert c.nodes[a.node := c.nodes[a.node]] == c.nodes;
    }
  }

  function Last(states: seq<State>): State
    requires states != []
  {
    states[|states| - 1]
  }

  // One more step at the end of a run, seen from the node that takes it.
  lemma Move(states: seq<State>, actions: seq<Action>, a: Action, s: NodeState, o: Outcome)
    returns (states': seq<State>, actions': seq<Action>)
    requires IsUndisturbedRun(states, actions) && (a.DoTick? || a.DoSubmit? || a.DoDeliver?)
    requires Actor(a) in Last(states).nodes && s == Last(states).nodes[Actor(a)] && o == Acts(s, a)
    requires a.DoDeliver? ==> a.msg in Last(states).msgs
    ensures IsUndisturbedRun(states', actions') && actions' == actions + [a]
    ensures Last(states').nodes == Last(states).nodes[Actor(a) := o.node]
    ensures Last(states').msgs == Last(states).msgs + Elements(o.sent)
  {
    hide Acts, Apply, Init;
    var c := Last(states);
    assert Enabled(c, a);
    ActsInCluster(c, a);
    states', actions' := states + [Apply(c, a)], actions + [a];
    assert states'[0] == states[0];
    forall k | 0 <= k < |actions'|
      ensures Enabled(states'[k], actions'[k]) && states'[k + 1] == Apply(states'[k], actions'[k])
      ensures !actions'[k].DoSend? && !actions'[k].DoRestart?
    {
      assert k < |actions| ==> actions'[k] == actions[k] && states'[k] == states[k] && states'[k + 1] == states[k + 1];
    }
  }

  // A run that has come to these nodes, with at least these messages sent.
  ghost predicate Stage(states: seq<State>, actions: seq<Action>, nodes: map<NodeId, NodeState>, msgs: set<Message>) {
    IsUndisturbedRun(states, actions) && Last(states).nodes == nodes && msgs <= Last(states).msgs
  }

  lemma Play(states: seq<State>, actions: seq<Action>, nodes: map<NodeId, NodeState>, msgs: set<Message>, a: Action, o: Outcome)
    returns (states': seq<State>, actions': seq<Action>)
    requires Stage(states, actions, nodes, msgs) && (a.DoTick? || a.DoSubmit? || a.DoDeliver?)
    requires Actor(a) in nodes && o == Acts(nodes[Actor(a)], a) && (a.DoDeliver? ==> a.msg in msgs)
    ensures Stage(states', actions', nodes[Actor(a) := o.node], msgs + Elements(o.sent)) && actions' == actions + [a]
  {
    hide Acts, IsRun;
    states', actions' := Move(states, actions, a, nodes[Actor(a)], o);
  }

  // A node that has persisted its state, with no snapshot.
  function Node(id: NodeId, term: nat, vote: NodeId, log: Log, role: Role, commit: nat, peers: seq<Peer>,
                leader: NodeId, votes: nat, applied: seq<Payload>): NodeState {
    NodeState(id, term, vote, log, role, commit, |applied|, peers, leader, votes, 0, 0, Durable(term, vote, log), applied)
  }

  function Voter(id: NodeId, term: nat, vote: NodeId, p: NodeId, q: NodeId): NodeState {
    Node(id, term, vote, [], Follower, 0, [Peer(p, 0, 0, false), Peer(q, 0, 0, false)], "", 0, [])
  }

  function Runner(id: NodeId, term: nat, p: NodeId, q: NodeId): NodeState {
    Node(id, term, id, [], Candidate, 0, [Peer(p, 0, 0, false), Peer(q, 0, 0, false)], "", 1, [])
  }

  function Entries(term: nat, data: Payload): Log {
    [LogEntry(term, 1, 0, NOOP), LogEntry(term, 2, 0, data)]
  }

  // The leader of a term, elected by its peer voter, after one submission.
  function Winner(id: NodeId, term: nat, peers: seq<Peer>, data: Payload): NodeState {
    Node(id, term, id, Entries(term, data), Leader, 0, peers, id, 2, [])
  }

  lemma Campaigns(id: NodeId, term: nat, vote: NodeId, p: NodeId, q: NodeId)
    ensures var s := Voter(id, term, vote, p, q);
      Tick(s, true) == Outcome(Runner(id, term + 1, p, q),
                               [RequestVote(id, p, term + 1, 0, 0), RequestVote(id, q, term + 1, 0, 0)])
  {
  }

  // The first grant answers with the old term and is worthless; the second one counts.
  lemma Votes(id: NodeId, term: nat, p: NodeId, q: NodeId, cand: NodeId, t: nat)
    requires term < t
    ensures HandleRequestVote(Voter(id, term, "", p, q), RequestVote(cand, id, t, 0, 0))
      == Outcome(Voter(id, t, cand, p, q), [VoteReply(id, cand, term, true)])
    ensures HandleRequestVote(Voter(id, t, cand, p, q), RequestVote(cand, id, t, 0, 0))
      == Outcome(Voter(id, t, cand, p, q), [VoteReply(id, cand, t, true)])
  {
  }

  lemma Wins(id: NodeId, term: nat, voter: NodeId, other: NodeId, data: Payload, first: bool)
    requires voter != other
    ensures var peers := if first then [Peer(voter, 0, 0, false), Peer(other, 0, 0, false)]
                         else [Peer(other, 0, 0, false), Peer(voter, 0, 0, false)];
      var elected := if first then [Peer(voter, 1, 0, true), Peer(other, 1, 0, false)]
                     else [Peer(other, 1, 0, false), Peer(voter, 1, 0, true)];
      var s := Runner(id, term, peers[0].id, peers[1].id);
      Submit(HandleVoteReply(s, VoteReply(voter, id, term, true)), data) == Winner(id, term, elected, data)
  {
  }

  // The leader of term 2, before and after the other node's acknowledgement, and after its commit.
  function LeaderB(next: nat, matched: nat, commit: nat, y: Payload): NodeState {
    Node("b", 2, "b", Entries(2, y), Leader, commit, [Peer("a", next, matched, false), Peer("c", 1, 0, true)], "b", 2,
         if commit == 0 then [] else [NOOP, y])
  }

  // The deposed leader of term 1, with its own entries.
  function FollowerA(commit: nat, x: Payload, applied: seq<Payload>): NodeState {
    Node("a", 2, "", Entries(1, x), Follower, commit, [Peer("b", 1, 0, true), Peer("c", 1, 0, false)], "b", 0, applied)
  }

  // Before that, as the leader of term 1.
  function DeposedA(x: Payload): NodeState {
    Winner("a", 1, [Peer("b", 1, 0, true), Peer("c", 1, 0, false)], x)
  }

  function Beat(prev: nat, prevTerm: nat, commit: nat): Message {
    AppendEntries("b", "a", 2, prev, prevTerm, [], commit)
  }

  lemma CountTwo(p: Peer, q: Peer, n: nat)
    ensures CountMatches([p, q], n) == (if p.matchIndex >= n then 1 else 0) + (if q.matchIndex >= n then 1 else 0)
  {
    assert [p, q][..1] == [p] && [p][..0] == [];
    assert CountMatches([p], n) == if p.matchIndex >= n then 1 else 0;
  }

  lemma AppliesTwo(s: NodeState)
    requires |s.log| == 2 && s.snapIndex == 0 && s.commitIndex == 2 && s.lastApplied == 0 && s.applied == []
    ensures ApplyCommitted(s) == s.(lastApplied := 2, applied := [s.log[0].data, s.log[1].data])
  {
    var s1 := s.(lastApplied := 1, applied := [s.log[0].data]);
    var s2 := s.(lastApplied := 2, applied := [s.log[0].data, s.log[1].data]);
    assert ApplyCommitted(s2) == s2;
    assert s1.applied + [s.log[1].data] == s2.applied;
    assert ApplyCommitted(s1) == ApplyCommitted(s2);
    assert [] + [s.log[0].data] == s1.applied;
  }

  lemma BeatsBeforeAck(y: Payload)
    ensures Tick(LeaderB(1, 0, 0, y), true)
      == Outcome(LeaderB(1, 0, 0, y), [Beat(0, 0, 0), AppendEntries("b", "c", 2, 0, 0, [], 0)])
  {
    var s := LeaderB(1, 0, 0, y);
    CountTwo(s.peers[0], s.peers[1], 2);
    CountTwo(s.peers[0], s.peers[1], 1);
    assert s.peers == [s.peers[0], s.peers[1]];
    assert GreatestCommittable(s, 0, 2) == 0;
  }

  // The whole last index is reported, although nothing of it was checked.
  lemma AcksUnchecked(x: Payload)
    ensures HandleAppendEntries(DeposedA(x), Beat(0, 0, 0))
      == Outcome(FollowerA(0, x, []), [AppendReply("a", "b", 1, true, 2)])
    ensures HandleAppendEntries(FollowerA(0, x, []), Beat(0, 0, 0))
      == Outcome(FollowerA(0, x, []), [AppendReply("a", "b", 2, true, 2)])
  {
  }

  lemma Counts(y: Payload)
    ensures HandleAppendReply(LeaderB(1, 0, 0, y), AppendReply("a", "b", 2, true, 2)) == LeaderB(3, 2, 0, y)
    ensures HandleAppendReply(LeaderB(3, 2, 2, y), AppendReply("a", "b", 2, false, 0)) == LeaderB(2, 2, 2, y)
    ensures HandleAppendReply(LeaderB(2, 2, 2, y), AppendReply("a", "b", 2, false, 0)) == LeaderB(1, 2, 2, y)
  {
  }

  lemma Commits(y: Payload)
    ensures Tick(LeaderB(3, 2, 0, y), true)
      == Outcome(LeaderB(3, 2, 2, y), [Beat(2, 2, 0), AppendEntries("b", "c", 2, 0, 0, [], 0)])
    ensures Tick(LeaderB(1, 2, 2, y), true)
      == Outcome(LeaderB(1, 2, 2, y), [Beat(0, 0, 2), AppendEntries("b", "c", 2, 0, 0, [], 2)])
  {
    var s := LeaderB(3, 2, 0, y);
    CountTwo(s.peers[0], s.peers[1], 2);
    assert s.peers == [s.peers[0], s.peers[1]];
    assert GreatestCommittable(s, 0, 2) == 2;
    AppliesTwo(s.(commitIndex := 2));
  }

  lemma Follows(x: Payload)
    ensures HandleAppendEntries(FollowerA(0, x, []), Beat(2, 2, 0))
      == Outcome(FollowerA(0, x, []), [AppendReply("a", "b", 2, false, 0)])
    ensures HandleAppendEntries(FollowerA(0, x, []), Beat(0, 0, 2))
      == Outcome(FollowerA(2, x, []), [AppendReply("a", "b", 2, true, 2)])
    ensures Tick(FollowerA(2, x, []), false) == Outcome(FollowerA(2, x, [NOOP, x]), [])
  {
    AppliesTwo(FollowerA(2, x, []));
  }

  function Three(a: NodeState, b: NodeState, c: NodeState): map<NodeId, NodeState> {
    map["a" := a, "b" := b, "c" := c]
  }

  function Start(): State {
    State(Three(Voter("a", 0, "", "b", "c"), Voter("b", 0, "", "a", "c"), Voter("c", 0, "", "a", "b")), {}, {}, map[], {})
  }

  lemma StartsFresh(ids: set<NodeId>, id: NodeId, p: NodeId, q: NodeId)
    requires p in ids && q in ids && p != q && id != p && id != q && |ids| == 3
    ensures IsFresh(ids, id, Voter(id, 0, "", p, q))
  {
  }

  lemma Starts()
    ensures Stage([Start()], [], Start().nodes, {})
  {
    hide IsFresh, Voter;
    var ids := {"a", "b", "c"};
    assert |ids| == 3;
    StartsFresh(ids, "a", "b", "c");
    StartsFresh(ids, "b", "a", "c");
    StartsFresh(ids, "c", "a", "b");
    assert Start().nodes.Keys == {"a", "b", "c"};
  }

  // A candidate asks one voter twice, wins, and submits.
  lemma Elects(states: seq<State>, actions: seq<Action>, nodes: map<NodeId, NodeState>, msgs: set<Message>,
               id: NodeId, p: NodeId, q: NodeId, first: bool, term: nat, vote: NodeId, voterTerm: nat,
               vp: NodeId, vq: NodeId, data: Payload)
    returns (states': seq<State>, actions': seq<Action>, msgs': set<Message>)
    requires p != q && id != p && id != q && voterTerm < term + 1
    requires Stage(states, actions, nodes, msgs) && id in nodes && nodes[id] == Voter(id, term, vote, p, q)
    requires var voter := if first then p else q; voter in nodes && nodes[voter] == Voter(voter, voterTerm, "", vp, vq)
    ensures var voter := if first then p else q;
      var peers := if first then [Peer(p, 1, 0, true), Peer(q, 1, 0, false)] else [Peer(p, 1, 0, false), Peer(q, 1, 0, true)];
      Stage(states', actions', nodes[voter := Voter(voter, term + 1, id, vp, vq)][id := Winner(id, term + 1, peers, data)], msgs')
    ensures forall k :: |actions| <= k < |actions'| ==> !(actions'[k].DoDeliver? && actions'[k].msg.AppendEntries?)
  {
    hide Tick, HandleRequestVote, HandleVoteReply, Submit, Stage, Voter, Runner, Winner;
    var voter := if first then p else q;
    Campaigns(id, term, vote, p, q);
    Votes(voter, voterTerm, vp, vq, id, term + 1);
    Wins(id, term + 1, voter, if first then q else p, data, first);
    var ask := RequestVote(id, voter, term + 1, 0, 0);
    var grant := VoteReply(voter, id, term + 1, true);
    var runner := Runner(id, term + 1, p, q);
    var granted := Voter(voter, term + 1, id, vp, vq);
    var elected := HandleVoteReply(runner, grant);
    states', actions' := Play(states, actions, nodes, msgs, DoTick(id, true), Tick(nodes[id], true));
    var n1, m1 := nodes[id := runner], msgs + Elements(Tick(nodes[id], true).sent);
    assert ask in Tick(nodes[id], true).sent by { assert Tick(nodes[id], true).sent[if first then 0 else 1] == ask; }
    states', actions' := Play(states', actions', n1, m1, DoDeliver(ask), HandleRequestVote(n1[voter], ask));
    var n2, m2 := n1[voter := granted], m1 + Elements(HandleRequestVote(n1[voter], ask).sent);
    states', actions' := Play(states', actions', n2, m2, DoDeliver(ask), Outcome(granted, [grant]));
    var n3, m3 := n2[voter := granted], m2 + Elements([grant]);
    states', actions' := Play(states', actions', n3, m3, DoDeliver(grant), Outcome(elected, []));
    var n4, m4 := n3[id := elected], m3 + Elements([]);
    states', actions' := Play(states', actions', n4, m4, DoSubmit(id, data), Outcome(Submit(elected, data), []));
    msgs' := m4 + Elements([]);
    assert n4[id := Submit(elected, data)] == nodes[voter := granted][id := Submit(elected, data)];
  }

  // A step of a or of b, the third node standing by.
  lemma PlayA(states: seq<State>, actions: seq<Action>, a: NodeState, b: NodeState, c: NodeState, msgs: set<Message>,
              act: Action, o: Outcome)
    returns (states': seq<State>, actions': seq<Action>, msgs': set<Message>)
    requires Stage(states, actions, Three(a, b, c), msgs) && (act.DoTick? || act.DoDeliver?)
    requires Actor(act) == "a" && o == Acts(a, act) && (act.DoDeliver? ==> act.msg in msgs)
    ensures Stage(states', actions', Three(o.node, b, c), msgs') && msgs' == msgs + Elements(o.sent)
  {
    hide Acts, Stage;
    states', actions' := Play(states, actions, Three(a, b, c), msgs, act, o);
    msgs' := msgs + Elements(o.sent);
    assert Three(a, b, c)["a" := o.node] == Three(o.node, b, c);
  }

  lemma PlayB(states: seq<State>, actions: seq<Action>, a: NodeState, b: NodeState, c: NodeState, msgs: set<Message>,
              act: Action, o: Outcome)
    returns (states': seq<State>, actions': seq<Action>, msgs': set<Message>)
    requires Stage(states, actions, Three(a, b, c), msgs) && (act.DoTick? || act.DoDeliver?)
    requires Actor(act) == "b" && o == Acts(b, act) && (act.DoDeliver? ==> act.msg in msgs)
    ensures Stage(states', actions', Three(a, o.node, c), msgs') && msgs' == msgs + Elements(o.sent)
  {
    hide Acts, Stage;
    states', actions' := Play(states, actions, Three(a, b, c), msgs, act, o);
    msgs' := msgs + Elements(o.sent);
    assert Three(a, b, c)["b" := o.node] == Three(a, o.node, c);
  }

  // The new leader's first heartbeat, delivered twice: the second answer is believed.
  lemma Misled(states: seq<State>, actions: seq<Action>, msgs: set<Message>, c: NodeState, x: Payload, y: Payload)
    returns (states': seq<State>, actions': seq<Action>, msgs': set<Message>)
    requires Stage(states, actions, Three(DeposedA(x), LeaderB(1, 0, 0, y), c), msgs)
    ensures Stage(states', actions', Three(FollowerA(0, x, []), LeaderB(3, 2, 0, y), c), msgs')
  {
    hide Tick, HandleAppendEntries, HandleAppendReply, Stage, DeposedA, LeaderB, FollowerA;
    BeatsBeforeAck(y);
    AcksUnchecked(x);
    Counts(y);
    var winner, leader, follower := DeposedA(x), LeaderB(1, 0, 0, y), FollowerA(0, x, []);
    var beats := Tick(leader, true);
    assert beats.sent[0] == Beat(0, 0, 0);
    states', actions', msgs' := PlayB(states, actions, winner, leader, c, msgs, DoTick("b", true), beats);
    states', actions', msgs' := PlayA(states', actions', winner, leader, c, msgs', DoDeliver(beats.sent[0]),
                                      Outcome(follower, [AppendReply("a", "b", 1, true, 2)]));
    var ack := AppendReply("a", "b", 2, true, 2);
    states', actions', msgs' := PlayA(states', actions', follower, leader, c, msgs', DoDeliver(beats.sent[0]),
                                      Outcome(follower, [ack]));
    states', actions', msgs' := PlayB(states', actions', follower, leader, c, msgs', DoDeliver(ack),
                                      Outcome(LeaderB(3, 2, 0, y), []));
  }

  // The leader commits what the follower never had; two refusals take it back to the heartbeat that passes.
  lemma Diverges(states: seq<State>, actions: seq<Action>, msgs: set<Message>, c: NodeState, x: Payload, y: Payload)
    returns (states': seq<State>, actions': seq<Action>, msgs': set<Message>)
    requires Stage(states, actions, Three(FollowerA(0, x, []), LeaderB(3, 2, 0, y), c), msgs)
    ensures Stage(states', actions', Three(FollowerA(2, x, [NOOP, x]), LeaderB(1, 2, 2, y), c), msgs')
  {
    hide Tick, HandleAppendEntries, HandleAppendReply, Stage, LeaderB, FollowerA;
    Commits(y);
    Counts(y);
    Follows(x);
    var follower := FollowerA(0, x, []);
    var beats := Tick(LeaderB(3, 2, 0, y), true);
    assert beats.sent[0] == Beat(2, 2, 0);
    states', actions', msgs' := PlayB(states, actions, follower, LeaderB(3, 2, 0, y), c, msgs, DoTick("b", true), beats);
    var refusal := AppendReply("a", "b", 2, false, 0);
    states', actions', msgs' := PlayA(states', actions', follower, LeaderB(3, 2, 2, y), c, msgs', DoDeliver(beats.sent[0]),
                                      Outcome(follower, [refusal]));
    states', actions', msgs' := PlayB(states', actions', follower, LeaderB(3, 2, 2, y), c, msgs', DoDeliver(refusal),
                                      Outcome(LeaderB(2, 2, 2, y), []));
    states', actions', msgs' := PlayB(states', actions', follower, LeaderB(2, 2, 2, y), c, msgs', DoDeliver(refusal),
                                      Outcome(LeaderB(1, 2, 2, y), []));
    beats := Tick(LeaderB(1, 2, 2, y), true);
    assert beats.sent[0] == Beat(0, 0, 2);
    states', actions', msgs' := PlayB(states', actions', follower, LeaderB(1, 2, 2, y), c, msgs', DoTick("b", true), beats);
    states', actions', msgs' := PlayA(states', actions', follower, LeaderB(1, 2, 2, y), c, msgs', DoDeliver(beats.sent[0]),
                                      Outcome(FollowerA(2, x, []), [AppendReply("a", "b", 2, true, 2)]));
    states', actions', msgs' := PlayA(states', actions', FollowerA(2, x, []), LeaderB(1, 2, 2, y), c, msgs',
                                      DoTick("a", false), Outcome(FollowerA(2, x, [NOOP, x]), []));
  }

  /** For any two payloads there is a run in which node a applies the one and node b the other at index 2. */
  lemma DivergenceTheorem(x: Payload, y: Payload) returns (states: seq<State>, actions: seq<Action>)
    ensures IsUndisturbedRun(states, actions) && Last(states).nodes.Keys == {"a", "b", "c"}
    ensures Last(states).nodes["a"].applied == [NOOP, x] && Last(states).nodes["b"].applied == [NOOP, y]
  {
    hide Stage, Voter, Winner;
    Starts();
    var msgs: set<Message>;
    var a, b, c := Voter("a", 0, "", "b", "c"), Voter("b", 0, "", "a", "c"), Voter("c", 0, "", "a", "b");
    states, actions, msgs := Elects([Start()], [], Three(a, b, c), {}, "a", "b", "c", true, 0, "", 0, "a", "c", x);
    var b1 := Voter("b", 1, "a", "a", "c");
    assert Three(a, b, c)["b" := b1]["a" := DeposedA(x)] == Three(DeposedA(x), b1, c);
    states, actions, msgs := Elects(states, actions, Three(DeposedA(x), b1, c), msgs, "b", "a", "c", false, 1, "a", 0, "a", "b", y);
    var c1 := Voter("c", 2, "b", "a", "b");
    var leader := Winner("b", 2, [Peer("a", 1, 0, false), Peer("c", 1, 0, true)], y);
    assert leader == LeaderB(1, 0, 0, y) by { LeaderIsWinner(y); }
    assert Three(DeposedA(x), b1, c)["c" := c1]["b" := leader] == Three(DeposedA(x), leader, c1);
    states, actions, msgs := Misled(states, actions, msgs, c1, x, y);
    states, actions, msgs := Diverges(states, actions, msgs, c1, x, y);
    EndOf(states, actions, Three(FollowerA(2, x, [NOOP, x]), LeaderB(1, 2, 2, y), c1), msgs);
  }

  lemma LeaderIsWinner(y: Payload)
    ensures LeaderB(1, 0, 0, y) == Winner("b", 2, [Peer("a", 1, 0, false), Peer("c", 1, 0, true)], y)
  {
  }

  lemma EndOf(states: seq<State>, actions: seq<Action>, nodes: map<NodeId, NodeState>, msgs: set<Message>)
    requires Stage(states, actions, nodes, msgs)
    ensures IsUndisturbedRun(states, actions) && Last(states).nodes == nodes
  {
  }
}
