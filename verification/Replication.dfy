/** An honest run that does something: a leader sends its two entries to one follower, both nodes commit and apply them.
    So the theorems about honest runs are not about idle ones only. */
module Replication {

  import opened RaftTypes
  import opened RaftLog
  import opened RaftStep
  import opened Cluster
  import opened ElectionSafety
  import opened Matching
  import opened Retention
  import opened Commitment
  import opened Honesty
  import opened Divergence

  lemma Extend(states: seq<State>, actions: seq<Action>, a: Action)
    returns (states': seq<State>, actions': seq<Action>)
    requires IsHonestRun(states, actions) && Enabled(Last(states), a) && Honest(Last(states), a)
    ensures IsHonestRun(states', actions') && Last(states') == Apply(Last(states), a)
  {
    hide Apply, Init, Enabled, HonestReport, HonestCommit;
    states', actions' := states + [Apply(Last(states), a)], actions + [a];
    assert states'[0] == states[0];
    forall k | 0 <= k < |actions'|
      ensures Enabled(states'[k], actions'[k]) && states'[k + 1] == Apply(states'[k], actions'[k])
      ensures Honest(states'[k], actions'[k])
    {
      assert k < |actions| ==> actions'[k] == actions[k] && states'[k] == states[k] && states'[k + 1] == states[k + 1];
    }
  }

  // An honest run that has come to these nodes, with at least these messages sent.
  ghost predicate HonestStage(states: seq<State>, actions: seq<Action>, nodes: map<NodeId, NodeState>, msgs: set<Message>) {
    IsHonestRun(states, actions) && Last(states).nodes == nodes && msgs <= Last(states).msgs
  }

  // The requests delivered come from the leader of their term, whose entries are all the receiver has.
  ghost predicate InStep(nodes: map<NodeId, NodeState>, a: Action) {
    a.DoDeliver? && a.msg.AppendEntries? ==>
      && a.msg.src in nodes && a.msg.dst in nodes && nodes[a.msg.src].role == Leader
      && nodes[a.msg.src].term == a.msg.term && nodes[a.msg.dst].log <= nodes[a.msg.src].log
  }

  lemma InStepHonest(states: seq<State>, actions: seq<Action>, a: Action)
    requires IsHonestRun(states, actions) && Enabled(Last(states), a) && InStep(Last(states).nodes, a)
    ensures Honest(Last(states), a)
  {
    hide ElectionInv, LogInv, Apply, Init, HonestReport, HonestCommit, HandleAppendEntries;
    var c := Last(states);
    RunLog(states, actions, |actions|);
    if Succeeds(c, a) {
      LeaderFacts(c, a.msg.src);
      LateIsHonest(c, a.msg);
    } else {
      NothingToReport(c, a);
    }
  }

  lemma Go(states: seq<State>, actions: seq<Action>, nodes: map<NodeId, NodeState>, msgs: set<Message>, a: Action, o: Outcome)
    returns (states': seq<State>, actions': seq<Action>, msgs': set<Message>)
    requires HonestStage(states, actions, nodes, msgs) && (a.DoTick? || a.DoSubmit? || a.DoDeliver?) && InStep(nodes, a)
    requires Actor(a) in nodes && o == Acts(nodes[Actor(a)], a) && (a.DoDeliver? ==> a.msg in msgs)
    ensures HonestStage(states', actions', nodes[Actor(a) := o.node], msgs') && msgs' == msgs + Elements(o.sent)
  {
    hide Acts, Apply, Init, Honest, InStep;
    var c := Last(states);
    assert Enabled(c, a);
    InStepHonest(states, actions, a);
    ActsInCluster(c, a);
    states', actions' := Extend(states, actions, a);
    msgs' := msgs + Elements(o.sent);
  }

  // An undisturbed run without deliveries of AppendEntries is honest.
  lemma QuietIsHonest(states: seq<State>, actions: seq<Action>, nodes: map<NodeId, NodeState>, msgs: set<Message>)
    requires Stage(states, actions, nodes, msgs)
    requires forall k :: 0 <= k < |actions| ==> !(actions[k].DoDeliver? && actions[k].msg.AppendEntries?)
    ensures HonestStage(states, actions, nodes, msgs)
  {
    hide Apply, Init, Enabled, Honest;
    forall k | 0 <= k < |actions| ensures Honest(states[k], actions[k]) {
      NothingToReport(states[k], actions[k]);
    }
  }

  function LeaderA(next: nat, matched: nat, commit: nat, x: Payload): NodeState {
    Node("a", 1, "a", Entries(1, x), Leader, commit, [Peer("b", next, matched, true), Peer("c", 1, 0, false)], "a", 2,
         if commit == 0 then [] else [NOOP, x])
  }

  function FollowerB(commit: nat, x: Payload, applied: seq<Payload>): NodeState {
    Node("b", 1, "a", Entries(1, x), Follower, commit, [Peer("a", 0, 0, false), Peer("c", 0, 0, false)], "a", 0, applied)
  }

  function Batch(x: Payload): Message {
    AppendEntries("a", "b", 1, 0, 0, Entries(1, x), 0)
  }

  lemma Sends(x: Payload)
    ensures CanSlice(LeaderA(1, 0, 0, x), LeaderA(1, 0, 0, x).peers[0], 2)
    ensures Slice(LeaderA(1, 0, 0, x), LeaderA(1, 0, 0, x).peers[0], 2) == Batch(x)
  {
  }

  lemma Takes(x: Payload)
    ensures HandleAppendEntries(Voter("b", 1, "a", "a", "c"), Batch(x))
      == Outcome(FollowerB(0, x, []), [AppendReply("b", "a", 1, true, 2)])
    ensures HandleAppendEntries(FollowerB(0, x, []), AppendEntries("a", "b", 1, 2, 1, [], 2))
      == Outcome(FollowerB(2, x, []), [AppendReply("b", "a", 1, true, 2)])
    ensures Tick(FollowerB(2, x, []), false) == Outcome(FollowerB(2, x, [NOOP, x]), [])
  {
    AppendAllIsSplice([], 0, 0, Entries(1, x));
    assert Splice([], 0, Entries(1, x)) == Entries(1, x);
    AppliesTwo(FollowerB(2, x, []));
  }

  lemma Leads(x: Payload)
    ensures HandleAppendReply(LeaderA(1, 0, 0, x), AppendReply("b", "a", 1, true, 2)) == LeaderA(3, 2, 0, x)
    ensures Tick(LeaderA(3, 2, 0, x), true).node == LeaderA(3, 2, 2, x)
    ensures Tick(LeaderA(3, 2, 2, x), true).node == LeaderA(3, 2, 2, x)
    ensures var sent := Tick(LeaderA(3, 2, 2, x), true).sent;
      |sent| == 2 && sent[0] == AppendEntries("a", "b", 1, 2, 1, [], 2)
  {
    var s := LeaderA(3, 2, 0, x);
    CountTwo(s.peers[0], s.peers[1], 2);
    assert s.peers == [s.peers[0], s.peers[1]];
    assert GreatestCommittable(s, 0, 2) == 2;
    AppliesTwo(s.(commitIndex := 2));
  }

  lemma SendsBatch(states: seq<State>, actions: seq<Action>, b: NodeState, c: NodeState, msgs: set<Message>, x: Payload)
    returns (states': seq<State>, actions': seq<Action>, msgs': set<Message>)
    requires HonestStage(states, actions, Three(LeaderA(1, 0, 0, x), b, c), msgs)
    ensures HonestStage(states', actions', Three(LeaderA(1, 0, 0, x), b, c), msgs') && Batch(x) in msgs'
  {
    hide Init, Honest, Slice, CanSlice;
    var a := DoSend("a", 0, 2);
    Sends(x);
    NothingToReport(Last(states), a);
    states', actions' := Extend(states, actions, a);
    msgs' := msgs + Elements([Batch(x)]);
  }

  // The follower takes the batch, and the leader hears of it.
  lemma BatchAcknowledged(states: seq<State>, actions: seq<Action>, c: NodeState, msgs: set<Message>, x: Payload)
    returns (states': seq<State>, actions': seq<Action>, msgs': set<Message>)
    requires HonestStage(states, actions, Three(LeaderA(1, 0, 0, x), Voter("b", 1, "a", "a", "c"), c), msgs)
    ensures HonestStage(states', actions', Three(LeaderA(3, 2, 0, x), FollowerB(0, x, []), c), msgs')
  {
    hide Tick, HandleAppendEntries, HandleAppendReply, HonestStage;
    Takes(x);
    Leads(x);
    var a, b := LeaderA(1, 0, 0, x), Voter("b", 1, "a", "a", "c");
    states', actions', msgs' := SendsBatch(states, actions, b, c, msgs, x);
    var b', ack := FollowerB(0, x, []), AppendReply("b", "a", 1, true, 2);
    states', actions', msgs' := Go(states', actions', Three(a, b, c), msgs', DoDeliver(Batch(x)), Outcome(b', [ack]));
    assert Three(a, b, c)["b" := b'] == Three(a, b', c);
    states', actions', msgs' := Go(states', actions', Three(a, b', c), msgs', DoDeliver(ack), Outcome(LeaderA(3, 2, 0, x), []));
    assert Three(a, b', c)["a" := LeaderA(3, 2, 0, x)] == Three(LeaderA(3, 2, 0, x), b', c);
  }

  // The leader commits, and tells of it.
  lemma Announced(states: seq<State>, actions: seq<Action>, b: NodeState, c: NodeState, msgs: set<Message>, x: Payload)
    returns (states': seq<State>, actions': seq<Action>, msgs': set<Message>)
    requires HonestStage(states, actions, Three(LeaderA(3, 2, 0, x), b, c), msgs)
    ensures HonestStage(states', actions', Three(LeaderA(3, 2, 2, x), b, c), msgs')
    ensures AppendEntries("a", "b", 1, 2, 1, [], 2) in msgs'
  {
    hide Tick, HandleAppendReply, HonestStage, LeaderA;
    Leads(x);
    var a, a' := LeaderA(3, 2, 0, x), LeaderA(3, 2, 2, x);
    states', actions', msgs' := Go(states, actions, Three(a, b, c), msgs, DoTick("a", true), Tick(a, true));
    assert Three(a, b, c)["a" := a'] == Three(a', b, c);
    states', actions', msgs' := Go(states', actions', Three(a', b, c), msgs', DoTick("a", true), Tick(a', true));
    assert Three(a', b, c)["a" := a'] == Three(a', b, c);
    assert Tick(a', true).sent[0] in msgs';
  }

  lemma Replicates(states: seq<State>, actions: seq<Action>, c: NodeState, msgs: set<Message>, x: Payload)
    returns (states': seq<State>, actions': seq<Action>, msgs': set<Message>)
    requires HonestStage(states, actions, Three(LeaderA(1, 0, 0, x), Voter("b", 1, "a", "a", "c"), c), msgs)
    ensures HonestStage(states', actions', Three(LeaderA(3, 2, 2, x), FollowerB(2, x, [NOOP, x]), c), msgs')
  {
    hide Tick, HandleAppendEntries, HandleAppendReply, HonestStage;
    Takes(x);
    var a, b := LeaderA(3, 2, 2, x), FollowerB(0, x, []);
    states', actions', msgs' := BatchAcknowledged(states, actions, c, msgs, x);
    states', actions', msgs' := Announced(states', actions', b, c, msgs', x);
    var beat, b', b'' := AppendEntries("a", "b", 1, 2, 1, [], 2), FollowerB(2, x, []), FollowerB(2, x, [NOOP, x]);
    states', actions', msgs' := Go(states', actions', Three(a, b, c), msgs', DoDeliver(beat),
                                   Outcome(b', [AppendReply("b", "a", 1, true, 2)]));
    assert Three(a, b, c)["b" := b'] == Three(a, b', c);
    states', actions', msgs' := Go(states', actions', Three(a, b', c), msgs', DoTick("b", false), Outcome(b'', []));
    assert Three(a, b', c)["b" := b''] == Three(a, b'', c);
  }

  /** For any payload, an honest run of three nodes in which the leader and a follower both apply it at index 2. */
  lemma ReplicationTheorem(x: Payload) returns (states: seq<State>, actions: seq<Action>)
    ensures IsHonestRun(states, actions) && Last(states).nodes.Keys == {"a", "b", "c"}
    ensures Last(states).nodes["a"].applied == Last(states).nodes["b"].applied == [NOOP, x]
  {
    hide Stage, Voter, Winner, IsHonestRun;
    Starts();
    var msgs: set<Message>;
    var a, b, c := Voter("a", 0, "", "b", "c"), Voter("b", 0, "", "a", "c"), Voter("c", 0, "", "a", "b");
    states, actions, msgs := Elects([Start()], [], Three(a, b, c), {}, "a", "b", "c", true, 0, "", 0, "a", "c", x);
    var b1, leader := Voter("b", 1, "a", "a", "c"), Winner("a", 1, [Peer("b", 1, 0, true), Peer("c", 1, 0, false)], x);
    assert leader == LeaderA(1, 0, 0, x) by { LeaderAWon(x); }
    assert Three(a, b, c)["b" := b1]["a" := leader] == Three(leader, b1, c);
    QuietIsHonest(states, actions, Three(leader, b1, c), msgs);
    states, actions, msgs := Replicates(states, actions, c, msgs, x);
  }

  lemma LeaderAWon(x: Payload)
    ensures LeaderA(1, 0, 0, x) == Winner("a", 1, [Peer("b", 1, 0, true), Peer("c", 1, 0, false)], x)
  {
  }
}
