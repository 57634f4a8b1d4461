/** The asynchronous logger (src/common/logger.c): one producer in log_msg and the worker thread
    share a ring of slots and two 64-bit counters.  Every shared access is one step; steps of the
    two threads interleave in any order. */
module Logger {

  const SIZE: nat := 4096
  const WRAP: nat := 0x1_0000_0000_0000_0000

  type Msg = string

  // A slot whose fields are being written holds no message.
  datatype Slot = Torn | Holds(msg: Msg)

  datatype Producer =
    | Idle
    | LoadedW(msg: Msg, w: nat)
    | LoadedBoth(msg: Msg, w: nat, r: nat)
    | MayWrite(msg: Msg, w: nat)
    | Writing(msg: Msg, w: nat)
    | Written(msg: Msg, w: nat)

  datatype Consumer =
    | LoopHead
    | HeadLoads
    | Top
    | Loaded(r: nat, w: nat)
    | Draining(r: nat, w: nat)
    | Exited

  datatype State = State(
    slots: seq<Slot>,
    writeIdx: nat,
    readIdx: nat,
    running: bool,
    producer: Producer,
    consumer: Consumer,
    // History: what was published, what the worker printed, how many reads it published.
    accepted: seq<Msg>,
    printed: seq<Slot>,
    released: nat)

  function Masked(i: nat): (k: nat)
    ensures k < SIZE
  {
    i % SIZE
  }

  function Counter(n: nat): (i: nat)
    ensures i < WRAP
  {
    n % WRAP
  }

  function Next(i: nat): nat { Counter(i + 1) }

  // w - r in unsigned 64-bit arithmetic.
  function Distance(w: nat, r: nat): nat
    requires w < WRAP && r < WRAP
  {
    (w + WRAP - r) % WRAP
  }

  /** One step of log_msg(msg). */
  function Produce(s: State, msg: Msg): State
    requires |s.slots| == SIZE && CountersFit(s)
  {
    match s.producer
    case Idle => s.(producer := LoadedW(msg, s.writeIdx))
    case LoadedW(m, w) => s.(producer := LoadedBoth(m, w, s.readIdx))
    case LoadedBoth(m, w, r) => s.(producer := if Distance(w, r) >= SIZE then Idle else MayWrite(m, w))
    case MayWrite(m, w) => s.(slots := s.slots[Masked(w) := Torn], producer := Writing(m, w))
    case Writing(m, w) => s.(slots := s.slots[Masked(w) := Holds(m)], producer := Written(m, w))
    case Written(m, w) => s.(writeIdx := Next(w), accepted := s.accepted + [m], producer := Idle)
  }

  /** One step of logger_worker. */
  function Consume(s: State): State
    requires |s.slots| == SIZE
  {
    match s.consumer
    case LoopHead => s.(consumer := if s.running then Top else HeadLoads)
    case HeadLoads => s.(consumer := if s.readIdx == s.writeIdx then Exited else Top)
    case Top => s.(consumer := Loaded(s.readIdx, s.writeIdx))
    case Loaded(r, w) =>
      s.(consumer := if r != w then Draining(r, w) else if s.running then LoopHead else Exited)
    case Draining(r, w) =>
      if r != w then s.(printed := s.printed + [s.slots[Masked(r)]], consumer := Draining(Next(r), w))
      else s.(readIdx := r, released := |s.printed|, consumer := LoopHead)
    case Exited => s
  }

  function Shutdown(s: State): State { s.(running := false) }

  predicate CountersFit(s: State) {
    && s.writeIdx < WRAP && s.readIdx < WRAP
    && (s.producer.LoadedBoth? ==> s.producer.w < WRAP && s.producer.r < WRAP)
  }

  datatype Action = DoProduce(msg: Msg) | DoConsume | DoShutdown

  predicate Ready(s: State) { |s.slots| == SIZE && CountersFit(s) }

  function Apply(s: State, a: Action): State
    requires Ready(s)
  {
    match a
    case DoProduce(m) => Produce(s, m)
    case DoConsume => Consume(s)
    case DoShutdown => Shutdown(s)
  }

  ghost predicate Init(s: State) {
    && |s.slots| == SIZE && s.writeIdx == 0 && s.readIdx == 0 && s.running
    && s.producer == Idle && s.consumer == LoopHead && s.accepted == [] && s.printed == [] && s.released == 0
  }

  ghost predicate IsRun(states: seq<State>, actions: seq<Action>) {
    && |states| == |actions| + 1 && Init(states[0])
    && forall k :: 0 <= k < |actions| ==> Ready(states[k]) && states[k + 1] == Apply(states[k], actions[k])
  }

  // The invariant

  // Slots from the last released read up to the last accepted message hold those messages.
  ghost predicate Unread(s: State)
    requires |s.slots| == SIZE
  {
    forall k: nat :: s.released <= k < |s.accepted| ==> s.slots[Masked(k)] == Holds(s.accepted[k])
  }

  ghost predicate ProducerOk(s: State)
    requires |s.slots| == SIZE
  {
    match s.producer
    case Idle => true
    case LoadedW(_, w) => w == s.writeIdx
    case LoadedBoth(_, w, r) =>
      // r may be stale: the worker may have released more since.
      w == s.writeIdx && exists seen: nat :: r == Counter(seen) && seen <= s.released && |s.accepted| - seen <= SIZE
    case MayWrite(_, w) => w == s.writeIdx && |s.accepted| - s.released < SIZE
    case Writing(_, w) => w == s.writeIdx && |s.accepted| - s.released < SIZE
    case Written(m, w) =>
      w == s.writeIdx && |s.accepted| - s.released < SIZE && s.slots[Masked(|s.accepted|)] == Holds(m)
  }

  ghost predicate ConsumerOk(s: State) {
    match s.consumer
    case Loaded(r, w) => |s.printed| == s.released && r == s.readIdx && Limit(s, w)
    case Draining(r, w) => r == Counter(|s.printed|) && Limit(s, w)
    case _ => |s.printed| == s.released
  }

  // w is the counter at some number of accepted messages that the worker has not gone past.
  ghost predicate Limit(s: State, w: nat) {
    exists n: nat :: w == Counter(n) && |s.printed| <= n <= |s.accepted|
  }

  ghost predicate Inv(s: State) {
    && |s.slots| == SIZE
    && s.writeIdx == Counter(|s.accepted|) && s.readIdx == Counter(s.released)
    && s.released <= |s.printed| <= |s.accepted| <= s.released + SIZE
    && (forall k :: 0 <= k < |s.printed| ==> s.printed[k] == Holds(s.accepted[k]))
    && Unread(s) && ProducerOk(s) && ConsumerOk(s)
  }

  // Arithmetic of wrapping counters

  lemma MaskWraps(n: nat)
    ensures Masked(Counter(n)) == Masked(n)
  {
    var q := n / WRAP;
    assert n == Counter(n) + (q * 0x10_0000_0000_0000) * SIZE;
    SlotShift(Counter(n), q * 0x10_0000_0000_0000);
  }

  lemma {:induction false} SlotShift(a: nat, q: nat)
    ensures (a + q * SIZE) % SIZE == a % SIZE
  {
    if q > 0 { SlotShift(a, q - 1); }
  }

  lemma NextWraps(n: nat)
    ensures Next(Counter(n)) == Counter(n + 1)
  {
  }

  /** Counters less than a wrap apart are equal only if the counts are. */
  lemma SameCounter(m: nat, n: nat)
    requires m <= n < m + WRAP
    ensures Counter(m) == Counter(n) <==> m == n
    ensures Distance(Counter(n), Counter(m)) == n - m
  {
  }

  /** The slot after the last accepted message is none of the unread ones. */
  lemma SlotFree(released: nat, accepted: nat, k: nat)
    requires released <= k < accepted < released + SIZE
    ensures Masked(k) != Masked(accepted)
  {
  }

  // Every step of either thread keeps the invariant.

  lemma ProduceKeeps(s: State, msg: Msg)
    requires Inv(s)
    ensures Ready(s) && Inv(Produce(s, msg))
  {
    match s.producer
    case Idle =>
    case LoadedW(_, _) => assert s.readIdx == Counter(s.released);
    case LoadedBoth(_, w, r) => CheckKeeps(s, msg);
    case MayWrite(_, _) => WriteKeeps(s, msg);
    case Writing(_, _) => WriteKeeps(s, msg);
    case Written(_, _) => PublishKeeps(s, msg);
  }

  /** The full test, made with a possibly stale read counter, never lets the producer lap the worker. */
  lemma CheckKeeps(s: State, msg: Msg)
    requires Inv(s) && s.producer.LoadedBoth?
    ensures Inv(Produce(s, msg))
  {
    hide ConsumerOk, Counter, Masked;
    var seen: nat :| s.producer.r == Counter(seen) && seen <= s.released && |s.accepted| - seen <= SIZE;
    SameCounter(seen, |s.accepted|);
    SameConsumer(s, Produce(s, msg));
  }

  lemma WriteKeeps(s: State, msg: Msg)
    requires Inv(s) && (s.producer.MayWrite? || s.producer.Writing?)
    ensures Inv(Produce(s, msg))
  {
    hide ConsumerOk, Masked, Counter;
    var n := |s.accepted|;
    MaskWraps(n);
    var t := Produce(s, msg);
    forall k: nat | s.released <= k < n ensures t.slots[Masked(k)] == Holds(s.accepted[k]) {
      SlotFree(s.released, n, k);
    }
    SameConsumer(s, t);
  }

  lemma PublishKeeps(s: State, msg: Msg)
    requires Inv(s) && s.producer.Written?
    ensures Inv(Produce(s, msg))
  {
    hide ConsumerOk, Masked, Counter;
    NextWraps(|s.accepted|);
    SameConsumer(s, Produce(s, msg));
  }

  lemma SameConsumer(s: State, t: State)
    requires ConsumerOk(s) && t.consumer == s.consumer && t.printed == s.printed && t.released == s.released
    requires t.readIdx == s.readIdx && |t.accepted| >= |s.accepted|
    ensures ConsumerOk(t)
  {
    if s.consumer.Loaded? || s.consumer.Draining? {
      var n: nat :| s.consumer.w == Counter(n) && |s.printed| <= n <= |s.accepted|;
      assert Limit(t, s.consumer.w);
    }
  }

  lemma ConsumeKeeps(s: State)
    requires Inv(s)
    ensures Inv(Consume(s))
  {
    hide Masked, Counter;
    match s.consumer
    case Top => assert s.writeIdx == Counter(|s.accepted|);
    case Draining(r, w) =>
      if r != w { PrintKeeps(s); } else { ReleaseKeeps(s); }
    case _ =>
  }

  /** Printing the next slot: it holds the next accepted message. */
  lemma PrintKeeps(s: State)
    requires Inv(s) && s.consumer.Draining? && s.consumer.r != s.consumer.w
    ensures Inv(Consume(s))
  {
    hide Masked, Counter;
    var w, c := s.consumer.w, |s.printed|;
    var n: nat :| w == Counter(n) && c <= n <= |s.accepted|;
    MaskWraps(c);
    NextWraps(c);
    assert c < n;
    assert Limit(Consume(s), w);
  }

  /** Releasing what was printed; the producer's stale view stays below it. */
  lemma ReleaseKeeps(s: State)
    requires Inv(s) && s.consumer.Draining? && s.consumer.r == s.consumer.w
    ensures Inv(Consume(s))
  {
    hide Masked, Counter;
    var t := Consume(s);
    if s.producer.LoadedBoth? {
      var seen: nat :| s.producer.r == Counter(seen) && seen <= s.released && |s.accepted| - seen <= SIZE;
      assert seen <= t.released;
    }
  }

  lemma StepKeeps(s: State, a: Action)
    requires Inv(s)
    ensures Ready(s) && Inv(Apply(s, a))
  {
    hide Produce, Consume, Masked;
    match a
    case DoProduce(m) => ProduceKeeps(s, m);
    case DoConsume => ConsumeKeeps(s);
    case DoShutdown => SameConsumer(s, Shutdown(s));
  }

  lemma {:induction false} RunKeeps(states: seq<State>, actions: seq<Action>, k: nat)
    requires IsRun(states, actions) && k < |states|
    ensures Inv(states[k])
  {
    hide Apply;
    if k > 0 {
      RunKeeps(states, actions, k - 1);
      StepKeeps(states[k - 1], actions[k - 1]);
    }
  }

  // The theorems

  /** Under every interleaving, with counters that wrap: what was printed is a prefix of what was
      accepted, no message in the ring has been overwritten, and the ring never overflows. */
  lemma RingTheorem(states: seq<State>, actions: seq<Action>, k: nat)
    requires IsRun(states, actions) && k < |states|
    ensures var s := states[k];
            && |s.printed| <= |s.accepted| && (forall j :: 0 <= j < |s.printed| ==> s.printed[j] == Holds(s.accepted[j]))
            && |s.slots| == SIZE
            && (forall j: nat :: |s.printed| <= j < |s.accepted| ==> s.slots[Masked(j)] == Holds(s.accepted[j]))
            && |s.accepted| - s.released <= 4096
  {
    RunKeeps(states, actions, k);
  }

  /** The worker leaves its loop with every accepted message printed if and only if the write counter
      it last looked at is still the current one; after the test at the loop head it always is. */
  lemma DrainedAtExit(states: seq<State>, actions: seq<Action>, k: nat)
    requires IsRun(states, actions) && k < |actions| && actions[k] == DoConsume
    requires states[k].consumer != Exited && states[k + 1].consumer == Exited
    ensures states[k].consumer.HeadLoads? || states[k].consumer.Loaded?
    ensures |states[k + 1].printed| == |states[k + 1].accepted| <==>
            states[k].consumer.HeadLoads? || states[k].consumer.w == states[k].writeIdx
  {
    hide Counter, Unread, ProducerOk;
    RunKeeps(states, actions, k);
    var s := states[k];
    SameCounter(s.released, |s.accepted|);
  }

  // Once the worker has left, nothing more is printed; the producer may still publish.
  lemma {:induction false} ExitedStays(states: seq<State>, actions: seq<Action>, e: nat, k: nat)
    requires IsRun(states, actions) && e <= k < |states| && states[e].consumer == Exited
    ensures states[k].consumer == Exited && states[k].printed == states[e].printed && states[e].accepted <= states[k].accepted
  {
    if e < k {
      ExitedStays(states, actions, e, k - 1);
      assert states[(k - 1) + 1] == Apply(states[k - 1], actions[k - 1]);
    }
  }

  /** From the worker's exit on, for ever: everything accepted is printed if and only if it left with the write counter
      it had looked at still current, and nothing has been published since. */
  lemma DrainedForGood(states: seq<State>, actions: seq<Action>, e: nat, k: nat)
    requires IsRun(states, actions) && e < |actions| && e < k < |states| && actions[e] == DoConsume
    requires states[e].consumer != Exited && states[e + 1].consumer == Exited
    ensures states[e].consumer.HeadLoads? || states[e].consumer.Loaded?
    ensures |states[k].printed| == |states[k].accepted| <==>
      && (states[e].consumer.HeadLoads? || states[e].consumer.w == states[e].writeIdx)
      && states[k].accepted == states[e].accepted
  {
    DrainedAtExit(states, actions, e);
    ExitedStays(states, actions, e + 1, k);
    RingTheorem(states, actions, e + 1);
    assert states[e + 1] == Apply(states[e], actions[e]);
  }

  /** It can leave a message behind: shutdown right after a message that arrived after the worker
      had found the ring empty. */
  lemma LostAtShutdown(msg: Msg) returns (states: seq<State>, actions: seq<Action>)
    ensures IsRun(states, actions)
    ensures var s := states[|actions|]; s.consumer == Exited && !s.running && s.accepted == [msg] && s.printed == []
  {
    var s0 := State(seq(SIZE, _ => Torn), 0, 0, true, Idle, LoopHead, [], [], 0);
    var p := DoProduce(msg);
    actions := [DoConsume, DoConsume, p, p, p, p, p, p, DoShutdown, DoConsume];
    var s1 := Consume(s0);
    var s2 := Consume(s1);
    var s3 := Produce(s2, msg);
    var s4 := Produce(s3, msg);
    var s5 := Produce(s4, msg);
    assert s5.producer == MayWrite(msg, 0);
    var s6 := Produce(s5, msg);
    var s7 := Produce(s6, msg);
    var s8 := Produce(s7, msg);
    var s9 := Shutdown(s8);
    var s10 := Consume(s9);
    states := [s0, s1, s2, s3, s4, s5, s6, s7, s8, s9, s10];
  }

  /** And again, with the ring found empty at the loop head: a message in flight at shutdown is published after the
      worker has left. */
  lemma LostInFlight(msg: Msg) returns (states: seq<State>, actions: seq<Action>)
    ensures IsRun(states, actions)
    ensures exists e :: 0 <= e < |actions| && states[e].consumer.HeadLoads? && states[e + 1].consumer == Exited
    ensures var s := states[|actions|]; s.consumer == Exited && !s.running && s.accepted == [msg] && s.printed == []
  {
    var s0 := State(seq(SIZE, _ => Torn), 0, 0, true, Idle, LoopHead, [], [], 0);
    var p := DoProduce(msg);
    actions := [p, p, p, p, p, DoShutdown, DoConsume, DoConsume, p];
    var s1 := Produce(s0, msg);
    var s2 := Produce(s1, msg);
    var s3 := Produce(s2, msg);
    assert s3.producer == MayWrite(msg, 0);
    var s4 := Produce(s3, msg);
    var s5 := Produce(s4, msg);
    var s6 := Shutdown(s5);
    var s7 := Consume(s6);
    var s8 := Consume(s7);
    var s9 := Produce(s8, msg);
    states := [s0, s1, s2, s3, s4, s5, s6, s7, s8, s9];
    assert states[7].consumer.HeadLoads? && states[7 + 1].consumer == Exited;
  }

  // When a message is accepted

  /** The full test turns a message away if and only if the counters loaded are a whole ring apart. */
  lemma FullIff(s: State, msg: Msg)
    requires Inv(s) && s.producer.LoadedBoth?
    ensures Ready(s) && Produce(s, msg).producer ==
      if Distance(s.producer.w, s.producer.r) == SIZE then Idle else MayWrite(s.producer.msg, s.producer.w)
  {
    hide Counter, Masked, ConsumerOk, Unread;
    var seen: nat :| s.producer.r == Counter(seen) && seen <= s.released && |s.accepted| - seen <= SIZE;
    SameCounter(seen, |s.accepted|);
  }

  // While only the worker moves, the producer keeps what it has loaded.
  lemma {:induction false} LoadedStays(states: seq<State>, actions: seq<Action>, k: nat, j: nat)
    requires IsRun(states, actions) && k <= j < |states| && states[k].producer.LoadedBoth?
    requires forall i :: k <= i < j ==> !actions[i].DoProduce?
    ensures states[j].producer == states[k].producer
  {
    if k < j {
      LoadedStays(states, actions, k, j - 1);
      assert states[(j - 1) + 1] == Apply(states[j - 1], actions[j - 1]);
    }
  }

  /** Over every run: a log_msg that loads the read counter at k and makes its test at j is dropped if and only if the
      ring held 4096 unreleased messages at k; otherwise it goes on to write its own message. */
  lemma DroppedIff(states: seq<State>, actions: seq<Action>, k: nat, j: nat)
    requires IsRun(states, actions) && k < j < |actions| && actions[k].DoProduce? && actions[j].DoProduce?
    requires states[k].producer.LoadedW? && forall i :: k < i < j ==> !actions[i].DoProduce?
    ensures states[j + 1].producer ==
      if |states[k].accepted| - states[k].released == 4096 then Idle
      else MayWrite(states[k].producer.msg, states[k].producer.w)
  {
    hide Counter, Masked;
    var s := states[k];
    RunKeeps(states, actions, k);
    RunKeeps(states, actions, j);
    assert states[k + 1] == Apply(s, actions[k]) && states[j + 1] == Apply(states[j], actions[j]);
    LoadedStays(states, actions, k + 1, j);
    FullIff(states[j], actions[j].msg);
    SameCounter(s.released, |s.accepted|);
  }

  // The message a call was made with stays with it to the end.
  lemma {:induction false} MessageStays(states: seq<State>, actions: seq<Action>, k: nat, j: nat, msg: Msg)
    requires IsRun(states, actions) && k < j < |states| && states[k].producer.Idle? && actions[k] == DoProduce(msg)
    requires forall i :: k < i <= j ==> !states[i].producer.Idle?
    ensures states[j].producer.msg == msg
  {
    assert states[(j - 1) + 1] == Apply(states[j - 1], actions[j - 1]);
    if k + 1 < j {
      MessageStays(states, actions, k, j - 1, msg);
    }
  }

  /** And what it publishes is that message, after all that was accepted before. */
  lemma PublishesItsMessage(states: seq<State>, actions: seq<Action>, k: nat, j: nat, msg: Msg)
    requires IsRun(states, actions) && k < j < |actions| && states[k].producer.Idle? && actions[k] == DoProduce(msg)
    requires forall i :: k < i <= j ==> !states[i].producer.Idle?
    requires states[j].producer.Written? && actions[j].DoProduce?
    ensures states[j + 1].accepted == states[j].accepted + [msg] && states[j + 1].producer == Idle
  {
    MessageStays(states, actions, k, j, msg);
    assert states[j + 1] == Apply(states[j], actions[j]);
  }

  // The worker, left alone

  function ConsumeN(s: State, n: nat): (r: State)
    requires |s.slots| == SIZE
    ensures |r.slots| == SIZE
    decreases n
  {
    if n == 0 then s else ConsumeN(Consume(s), n - 1)
  }

  lemma {:induction false} ConsumeSplit(s: State, m: nat, n: nat)
    requires |s.slots| == SIZE
    ensures ConsumeN(s, m + n) == ConsumeN(ConsumeN(s, m), n)
    decreases m
  {
    if m > 0 { ConsumeSplit(Consume(s), m - 1, n); }
  }

  // Everything accepted is printed and released, and the worker is back at its loop's head.
  ghost predicate CaughtUp(s: State, t: State) {
    && t.consumer == LoopHead && t.accepted == s.accepted && t.running == s.running
    && |t.printed| == |t.accepted| && t.released == |t.accepted| && t.readIdx == t.writeIdx
  }

  lemma {:induction false} Drains(s: State, n: nat)
    requires Inv(s) && s.consumer.Draining? && s.consumer.w == s.writeIdx && n == |s.accepted| - |s.printed|
    ensures Inv(ConsumeN(s, n + 1)) && CaughtUp(s, ConsumeN(s, n + 1))
    decreases n
  {
    hide Counter, Masked, Unread, ProducerOk;
    SameCounter(|s.printed|, |s.accepted|);
    ConsumeKeeps(s);
    NextWraps(|s.printed|);
    if n > 0 {
      Drains(Consume(s), n - 1);
    } else {
      assert ConsumeN(s, 1) == ConsumeN(Consume(s), 0);
    }
  }

  /** From the top of its loop, the worker prints and releases all there is in one pass. */
  lemma WorkerCatchesUp(s: State)
    requires Inv(s) && s.consumer == Top && |s.printed| < |s.accepted|
    ensures var t := ConsumeN(s, |s.accepted| - |s.printed| + 3); Inv(t) && CaughtUp(s, t)
  {
    hide Counter, Masked, Unread, ProducerOk;
    var n := |s.accepted| - |s.printed|;
    var s1 := Consume(s);
    ConsumeKeeps(s);
    ConsumeKeeps(s1);
    SameCounter(s.released, |s.accepted|);
    Drains(Consume(s1), n);
    assert ConsumeN(s, n + 3) == ConsumeN(s1, n + 2) == ConsumeN(Consume(s1), n + 1);
  }

  /** After shutdown, with the producer at rest, the worker prints everything and leaves. */
  lemma ShutdownDrains(s: State) returns (n: nat)
    requires Inv(s) && s.consumer == LoopHead && !s.running
    ensures var t := ConsumeN(s, n); t.consumer == Exited && t.accepted == s.accepted && |t.printed| == |t.accepted|
  {
    hide Counter, Masked, Unread, ProducerOk;
    var s2 := Consume(Consume(s));
    ConsumeKeeps(s);
    ConsumeKeeps(Consume(s));
    SameCounter(s.released, |s.accepted|);
    assert ConsumeN(s, 2) == s2 by { assert ConsumeN(s, 2) == ConsumeN(Consume(s), 1) == ConsumeN(s2, 0); }
    if s.readIdx == s.writeIdx {
      n := 2;
    } else {
      var d := |s.accepted| - |s.printed| + 3;
      WorkerCatchesUp(s2);
      var t := ConsumeN(s2, d);
      n := 2 + (d + 2);
      ConsumeSplit(s, 2, d + 2);
      ConsumeSplit(s2, d, 2);
      assert ConsumeN(t, 2) == ConsumeN(Consume(t), 1) == ConsumeN(Consume(Consume(t)), 0);
    }
  }

  /** It leaves only after shutdown. */
  lemma {:induction false} LeavesAfterShutdown(states: seq<State>, actions: seq<Action>, k: nat)
    requires IsRun(states, actions) && k < |states| && states[k].consumer == Exited
    ensures !states[k].running
  {
    if k > 0 {
      assert states[(k - 1) + 1] == Apply(states[k - 1], actions[k - 1]);
      if states[k - 1].consumer == Exited {
        LeavesAfterShutdown(states, actions, k - 1);
      } else {
        HeadMeansShutdown(states, actions, k - 1);
      }
    }
  }

  lemma {:induction false} HeadMeansShutdown(states: seq<State>, actions: seq<Action>, k: nat)
    requires IsRun(states, actions) && k < |states|
    ensures states[k].consumer.HeadLoads? ==> !states[k].running
  {
    if k > 0 {
      HeadMeansShutdown(states, actions, k - 1);
      assert states[(k - 1) + 1] == Apply(states[k - 1], actions[k - 1]);
    }
  }

  /** The shared memory of the logger, updated in place one access at a time. */
  class Ring {
    const slots: array<Slot>
    var writeIdx: nat
    var readIdx: nat
    var running: bool
    var producer: Producer
    var consumer: Consumer
    var printed: seq<Slot>
    ghost var accepted: seq<Msg>
    ghost var released: nat

    ghost function View(): State
      reads this, slots
    {
      State(slots[..], writeIdx, readIdx, running, producer, consumer, accepted, printed, released)
    }

    constructor ()
      ensures Init(View()) && Inv(View()) && fresh(slots)
    {
      slots := new Slot[SIZE](_ => Torn);
      writeIdx, readIdx, running, producer, consumer := 0, 0, true, Idle, LoopHead;
      printed, accepted, released := [], [], 0;
    }

    method ProducerStep(msg: Msg)
      requires Inv(View())
      modifies this, slots
      ensures View() == Produce(old(View()), msg) && Inv(View())
    {
      ProduceKeeps(View(), msg);
      match producer
      case Idle => producer := LoadedW(msg, writeIdx);
      case LoadedW(m, w) => producer := LoadedBoth(m, w, readIdx);
      case LoadedBoth(m, w, r) => producer := if Distance(w, r) >= SIZE then Idle else MayWrite(m, w);
      case MayWrite(m, w) =>
        slots[Masked(w)] := Torn;
        producer := Writing(m, w);
      case Writing(m, w) =>
        slots[Masked(w)] := Holds(m);
        producer := Written(m, w);
      case Written(m, w) =>
        writeIdx, accepted, producer := Next(w), accepted + [m], Idle;
    }

    method WorkerStep()
      requires Inv(View())
      modifies this
      ensures View() == Consume(old(View())) && Inv(View())
    {
      ConsumeKeeps(View());
      match consumer
      case LoopHead => consumer := if running then Top else HeadLoads;
      case HeadLoads => consumer := if readIdx == writeIdx then Exited else Top;
      case Top => consumer := Loaded(readIdx, writeIdx);
      case Loaded(r, w) =>
        consumer := if r != w then Draining(r, w) else if running then LoopHead else Exited;
      case Draining(r, w) =>
        if r != w {
          printed, consumer := printed + [slots[Masked(r)]], Draining(Next(r), w);
        } else {
          readIdx, released, consumer := r, |printed|, LoopHead;
        }
      case Exited =>
    }
  }
}
