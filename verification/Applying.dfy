/** Applying, for one node alone: over every history of calls from a fresh node, whatever the messages claim, as
    long as the batches it accepts leave no gap and contradict no committed entry; and that this is exactly what
    keeps the log gap-free and its committed entries in place. */
module Applying {

  import opened RaftTypes
  import opened RaftLog
  import opened RaftStep
  import opened Commitment

  datatype Call =
    | CallTick(due: bool)
    | CallSubmit(data: Payload)
    | CallMessage(msg: Message)

  function Do(s: NodeState, call: Call): NodeState {
    match call
    case CallTick(due) => Tick(s, due).node
    case CallSubmit(data) => Submit(s, data)
    case CallMessage(m) =>
      match m {
        case RequestVote(_, _, _, _, _) => HandleRequestVote(s, m).node
        case VoteReply(_, _, _, _) => HandleVoteReply(s, m)
        case AppendEntries(_, _, _, _, _, _, _) => HandleAppendEntries(s, m).node
        case AppendReply(_, _, _, _, _) => HandleAppendReply(s, m)
      }
  }

  // The handler gets past its checks to the append loop.
  predicate Passes(s: NodeState, m: Message)
    requires m.AppendEntries?
  {
    m.term >= s.term && Consistent(Recognise(s, m), m)
  }

  // A batch of consecutive indices after the anchor.
  ghost predicate WellCut(m: Message)
    requires m.AppendEntries?
  {
    Contiguous(m.entries, 0, m.prevLogIndex)
  }

  // It starts inside the log or right at its end.
  ghost predicate Reaches(s: NodeState, m: Message)
    requires m.AppendEntries?
  {
    m.entries == [] || m.prevLogIndex <= |s.log|
  }

  // Its terms agree with the log's up to the commit index.
  ghost predicate SparesCommitted(s: NodeState, m: Message)
    requires m.AppendEntries?
  {
    forall k :: 0 <= k < |m.entries| && m.prevLogIndex + k < s.commitIndex && m.prevLogIndex + k < |s.log| ==>
      s.log[m.prevLogIndex + k].term == m.entries[k].term
  }

  // Asked only of requests that are not turned away.
  ghost predicate Cut(s: NodeState, call: Call) {
    call.CallMessage? && call.msg.AppendEntries? && Passes(s, call.msg) ==> WellCut(call.msg)
  }

  ghost predicate Allowed(s: NodeState, call: Call) {
    call.CallMessage? && call.msg.AppendEntries? && Passes(s, call.msg) ==>
      Reaches(s, call.msg) && SparesCommitted(s, call.msg)
  }

  ghost predicate IsHistory(states: seq<NodeState>, calls: seq<Call>) {
    && |states| == |calls| + 1
    && states[0] == NodeState(states[0].id, 0, NOBODY, [], Follower, 0, 0, states[0].peers, NOBODY, 0, 0, 0,
                              Durable(0, NOBODY, []), [])
    && forall k :: 0 <= k < |calls| ==> Cut(states[k], calls[k]) && states[k + 1] == Do(states[k], calls[k])
  }

  ghost predicate ApplyInv(s: NodeState) {
    AppliedOk(s) && WellIndexed(s.log, 0) && s.snapIndex == 0 && s.snapTerm == 0
  }

  // The applied payloads only grow.
  ghost predicate Extends(s: NodeState, t: NodeState) {
    s.applied <= t.applied && s.lastApplied <= t.lastApplied
  }

  lemma SameLogApplied(s: NodeState, t: NodeState)
    requires ApplyInv(s) && s.log <= t.log && WellIndexed(t.log, 0)
    requires t.commitIndex == s.commitIndex && t.lastApplied == s.lastApplied && t.applied == s.applied
    ensures AppliedOk(t)
  {
    assert t.log[..s.lastApplied] == s.log[..s.lastApplied];
  }

  lemma AppendApplied(s: NodeState, data: Payload)
    requires ApplyInv(s)
    ensures ApplyInv(Append(s, data)) && Extends(s, Append(s, data))
  {
    hide AppliedOk;
    SameLogApplied(s, Append(s, data));
  }

  lemma TickApplied(s: NodeState, due: bool)
    requires ApplyInv(s)
    ensures ApplyInv(Tick(s, due).node) && Extends(s, Tick(s, due).node)
  {
    hide Payloads;
    var t := if s.role == Leader then LeaderTick(s, due).node else if due then BecomeCandidate(s).node else s;
    ApplyCatchesUp(t);
    ApplyFrame(t);
    AppliedPrefix(s, ApplyCommitted(t));
  }

  lemma AppliedPrefix(s: NodeState, t: NodeState)
    requires AppliedOk(s) && AppliedOk(t) && s.log == t.log && s.lastApplied <= t.lastApplied
    ensures s.applied <= t.applied
  {
    assert forall k :: 0 <= k < s.lastApplied ==> s.log[..s.lastApplied][k] == t.log[..t.lastApplied][k];
  }

  // The log has no gap, and what s had committed is still there.
  ghost predicate KeepsCommitted(s: NodeState, log: Log) {
    WellIndexed(log, 0) && s.commitIndex <= |log| && s.commitIndex <= |s.log| && log[..s.commitIndex] == s.log[..s.commitIndex]
  }

  /** A contiguous batch above the snapshot leaves a gap-free log if and only if it is empty or starts no later than the
      log ends. */
  lemma GapIff(log: Log, snapIndex: nat, at: nat, batch: Log)
    requires WellIndexed(log, snapIndex) && Contiguous(batch, snapIndex, at)
    ensures WellIndexed(AppendAll(log, snapIndex, batch), snapIndex) <==> batch == [] || at <= |log|
  {
    hide AppendAll, Splice;
    if at <= |log| {
      AppendAllIsSplice(log, snapIndex, at, batch);
      SpliceKeepsIndices(log, snapIndex, at, batch);
    } else {
      AppendAllBeyond(log, snapIndex, at, batch);
      assert log + [] == log;
      if batch != [] {
        assert (log + batch)[|log|] == batch[0];
      }
    }
  }

  /** It keeps the first n entries if and only if its terms agree with theirs. */
  lemma SpareIff(log: Log, snapIndex: nat, at: nat, batch: Log, n: nat)
    requires Contiguous(batch, snapIndex, at) && at <= |log| && n <= |log|
    ensures var r := AppendAll(log, snapIndex, batch);
      (n <= |r| && r[..n] == log[..n]) <==>
      (forall k :: 0 <= k < |batch| && at + k < n ==> log[at + k].term == batch[k].term)
  {
    hide AppendAll, Agreement;
    AppendAllIsSplice(log, snapIndex, at, batch);
    var k, r := Agreement(log, at, batch), Splice(log, at, batch);
    if k < |batch| && at + k < n {
      assert r[at + k] == batch[k];
      assert log[..n][at + k] == log[at + k];
      assert n <= |r| ==> r[..n][at + k] == r[at + k];
    } else if k < |batch| {
      assert r[..n] == log[..n];
    }
  }

  /** For a request that passes the checks, both together: exactly these keep gap-freedom and committed entries. */
  lemma AcceptIff(s: NodeState, m: Message)
    requires ApplyInv(s) && m.AppendEntries? && WellCut(m)
    ensures KeepsCommitted(s, AppendAll(s.log, 0, m.entries)) <==> Reaches(s, m) && SparesCommitted(s, m)
  {
    hide AppendAll, WellIndexed, Contiguous, Payloads;
    GapIff(s.log, 0, m.prevLogIndex, m.entries);
    if m.entries == [] {
      AppendNothing(s.log, 0);
    } else if m.prevLogIndex <= |s.log| {
      SpareIff(s.log, 0, m.prevLogIndex, m.entries, s.commitIndex);
    }
  }

  lemma AcceptApplied(s: NodeState, m: Message)
    requires ApplyInv(s) && m.AppendEntries? && KeepsCommitted(s, AppendAll(s.log, 0, m.entries))
    ensures ApplyInv(Accept(s, m)) && Extends(s, Accept(s, m))
  {
    hide Payloads, AppendAll;
    var r := AppendAll(s.log, 0, m.entries);
    LastIsEnd(r, 0);
    assert r[..s.lastApplied] == r[..s.commitIndex][..s.lastApplied] == s.log[..s.lastApplied];
  }

  lemma HandlerLog(s: NodeState, m: Message)
    requires m.AppendEntries? && s.snapIndex == 0
    ensures HandleAppendEntries(s, m).node.log == if Passes(s, m) then AppendAll(s.log, 0, m.entries) else s.log
  {
    hide AppendAll, Consistent;
  }

  lemma AppendEntriesApplied(s: NodeState, m: Message)
    requires ApplyInv(s) && m.AppendEntries? && (Passes(s, m) ==> WellCut(m) && Reaches(s, m) && SparesCommitted(s, m))
    ensures ApplyInv(HandleAppendEntries(s, m).node) && Extends(s, HandleAppendEntries(s, m).node)
  {
    hide Payloads, Accept, Consistent, WellIndexed, AppendAll;
    if m.term >= s.term {
      var t := Recognise(s, m);
      assert ApplyInv(t);
      if Consistent(t, m) {
        AcceptIff(t, m);
        AcceptApplied(t, m);
      }
    }
  }

  /** For a whole call: the log stays gap-free and its committed entries in place exactly when the call is allowed. */
  lemma DoIff(s: NodeState, call: Call)
    requires ApplyInv(s) && Cut(s, call)
    ensures KeepsCommitted(s, Do(s, call).log) <==> Allowed(s, call)
  {
    hide AppendAll, Payloads;
    if call.CallMessage? && call.msg.AppendEntries? {
      hide HandleAppendEntries, Passes, WellIndexed;
      HandlerLog(s, call.msg);
      if Passes(s, call.msg) { AcceptIff(s, call.msg); }
    } else {
      DoApplied(s, call);
      LogGrows(s, call);
    }
  }

  // Other calls only ever add to the log.
  lemma LogGrows(s: NodeState, call: Call)
    requires !(call.CallMessage? && call.msg.AppendEntries?)
    ensures s.log <= Do(s, call).log
  {
    hide ApplyCommitted;
    if call.CallTick? {
      ApplyFrame(if s.role == Leader then LeaderTick(s, call.due).node else if call.due then BecomeCandidate(s).node else s);
    }
  }

  lemma DoApplied(s: NodeState, call: Call)
    requires ApplyInv(s) && Cut(s, call) && Allowed(s, call)
    ensures ApplyInv(Do(s, call)) && Extends(s, Do(s, call))
  {
    match call
    case CallTick(due) => TickApplied(s, due);
    case CallSubmit(data) => if s.role == Leader { AppendApplied(s, data); }
    case CallMessage(m) =>
      match m {
        case RequestVote(_, _, _, _, _) =>
        case VoteReply(_, _, _, _) => VoteReplyApplied(s, m);
        case AppendEntries(_, _, _, _, _, _, _) => AppendEntriesApplied(s, m);
        case AppendReply(_, _, _, _, _) =>
      }
  }

  lemma VoteReplyApplied(s: NodeState, m: Message)
    requires ApplyInv(s) && m.VoteReply?
    ensures ApplyInv(HandleVoteReply(s, m)) && Extends(s, HandleVoteReply(s, m))
  {
    hide Payloads;
    var k := PeerIndex(s.peers, m.src);
    if s.role == Candidate && m.term == s.term && k < |s.peers| {
      var t := s.(peers := s.peers[k := s.peers[k].(voteGranted := true)], votesReceived := s.votesReceived + 1);
      AppendApplied(t.(role := Leader, leaderId := t.id, peers := ResetProgress(t.peers, MyLastIndex(t) + 1)), NOOP);
    }
  }

  /** In order, gap-free, exactly once: at every point of every allowed history, lastApplied <= commitIndex <=
      last index, the applied payloads are exactly those of entries 1..lastApplied, and later calls only add to them. */
  lemma {:induction false} ApplyTheorem(states: seq<NodeState>, calls: seq<Call>, j: nat, k: nat)
    requires IsHistory(states, calls) && j <= k < |states|
    requires forall i :: 0 <= i < k ==> Allowed(states[i], calls[i])
    ensures states[k].lastApplied <= states[k].commitIndex <= |states[k].log| == MyLastIndex(states[k])
    ensures states[k].applied == Payloads(states[k].log[..states[k].lastApplied])
    ensures states[j].applied <= states[k].applied
  {
    hide Do, Allowed, Cut;
    HistoryApplied(states, calls, k);
    LastIsEnd(states[k].log, 0);
    if j < k {
      ApplyTheorem(states, calls, j, k - 1);
      HistoryApplied(states, calls, k - 1);
      DoApplied(states[k - 1], calls[k - 1]);
    }
  }

  lemma {:induction false} HistoryApplied(states: seq<NodeState>, calls: seq<Call>, k: nat)
    requires IsHistory(states, calls) && k < |states|
    requires forall i :: 0 <= i < k ==> Allowed(states[i], calls[i])
    ensures ApplyInv(states[k])
  {
    hide Do, Allowed, Cut;
    if k > 0 {
      HistoryApplied(states, calls, k - 1);
      DoApplied(states[k - 1], calls[k - 1]);
    }
  }

  /** The condition is exact: a history is allowed throughout if and only if at each of its calls the log stays
      gap-free and keeps what was committed. */
  lemma AllowedIff(states: seq<NodeState>, calls: seq<Call>)
    requires IsHistory(states, calls)
    ensures (forall k :: 0 <= k < |calls| ==> Allowed(states[k], calls[k]))
      <==> (forall k :: 0 <= k < |calls| ==> KeepsCommitted(states[k], states[k + 1].log))
  {
    hide Do, Allowed, Cut, KeepsCommitted;
    if forall k :: 0 <= k < |calls| ==> KeepsCommitted(states[k], states[k + 1].log) {
      KeptIsAllowed(states, calls, |calls|);
    } else if forall k :: 0 <= k < |calls| ==> Allowed(states[k], calls[k]) {
      forall k | 0 <= k < |calls| ensures KeepsCommitted(states[k], states[k + 1].log) {
        HistoryApplied(states, calls, k);
        DoIff(states[k], calls[k]);
      }
      assert false;
    }
  }

  lemma {:induction false} KeptIsAllowed(states: seq<NodeState>, calls: seq<Call>, k: nat)
    requires IsHistory(states, calls) && k <= |calls|
    requires forall i :: 0 <= i < k ==> KeepsCommitted(states[i], states[i + 1].log)
    ensures forall i :: 0 <= i < k ==> Allowed(states[i], calls[i])
  {
    hide Do, Allowed, Cut, KeepsCommitted;
    if k > 0 {
      KeptIsAllowed(states, calls, k - 1);
      HistoryApplied(states, calls, k - 1);
      DoIff(states[k - 1], calls[k - 1]);
      assert KeepsCommitted(states[k - 1], states[(k - 1) + 1].log);
    }
  }

  // Any batch, after any snapshot

  lemma OneIff(log: Log, snapIndex: nat, e: LogEntry)
    requires WellIndexed(log, snapIndex)
    ensures WellIndexed(AppendOne(log, snapIndex, e), snapIndex) <==> snapIndex < e.index <= snapIndex + |log| + 1
  {
    var r := AppendOne(log, snapIndex, e);
    if e.index <= snapIndex || e.index > snapIndex + |log| {
      assert r == log + [e];
      assert r[|log|] == e;
    } else {
      assert r == log || r == log[..e.index - snapIndex - 1] + [e];
    }
  }

  // The log after the first j passes of the loop.
  function After(log: Log, snapIndex: nat, batch: Log, j: nat): Log
    requires j <= |batch|
  {
    AppendAll(log, snapIndex, batch[..j])
  }

  lemma AfterStep(log: Log, snapIndex: nat, batch: Log, j: nat)
    requires j < |batch|
    ensures After(log, snapIndex, batch, j + 1) == AppendOne(After(log, snapIndex, batch, j), snapIndex, batch[j])
  {
    assert batch[..j + 1][..j] == batch[..j];
  }

  /** For any batch: every pass of the loop leaves a gap-free log if and only if every entry's index is, when its
      turn comes, above the snapshot and at most one beyond the end. */
  lemma {:induction false} PassesIff(log: Log, snapIndex: nat, batch: Log, n: nat)
    requires WellIndexed(log, snapIndex) && n <= |batch|
    ensures (forall j :: 0 <= j <= n ==> WellIndexed(After(log, snapIndex, batch, j), snapIndex))
      <==> (forall j :: 0 <= j < n ==> snapIndex < batch[j].index <= snapIndex + |After(log, snapIndex, batch, j)| + 1)
  {
    hide WellIndexed, AppendOne;
    if n == 0 {
      assert batch[..0] == [];
    } else {
      hide After;
      PassesIff(log, snapIndex, batch, n - 1);
      AfterStep(log, snapIndex, batch, n - 1);
      var before := After(log, snapIndex, batch, n - 1);
      if WellIndexed(before, snapIndex) { OneIff(before, snapIndex, batch[n - 1]); }
    }
  }

  // Consecutive indices after prev, wherever the snapshot is.
  ghost predicate Follows(batch: Log, prev: nat) {
    forall k :: 0 <= k < |batch| ==> batch[k].index == prev + 1 + k
  }

  /** For a batch of consecutive indices, that is: it is empty, or its anchor is neither below the snapshot nor beyond
      the end. */
  lemma AnchorIff(log: Log, snapIndex: nat, prev: nat, batch: Log)
    requires WellIndexed(log, snapIndex) && Follows(batch, prev)
    ensures (forall j :: 0 <= j <= |batch| ==> WellIndexed(After(log, snapIndex, batch, j), snapIndex))
      <==> batch == [] || snapIndex <= prev <= snapIndex + |log|
  {
    hide WellIndexed, AppendAll;
    PassesIff(log, snapIndex, batch, |batch|);
    FirstPass(log, snapIndex, batch);
    if snapIndex <= prev <= snapIndex + |log| {
      forall j | 0 <= j <= |batch| ensures WellIndexed(After(log, snapIndex, batch, j), snapIndex) {
        GapIff(log, snapIndex, prev - snapIndex, batch[..j]);
      }
    } else if batch != [] {
      assert !(snapIndex < batch[0].index <= snapIndex + |After(log, snapIndex, batch, 0)| + 1);
    }
  }

  lemma FirstPass(log: Log, snapIndex: nat, batch: Log)
    ensures After(log, snapIndex, batch, 0) == log
  {
    assert batch[..0] == [];
  }

  /** It happens: a batch with a gap takes the commit index past the log's end. */
  lemma GapBreaksApplying(s: NodeState, leader: NodeId, data: Payload)
    requires s == NodeState(s.id, 0, NOBODY, [], Follower, 0, 0, s.peers, NOBODY, 0, 0, 0, Durable(0, NOBODY, []), [])
    ensures var t := HandleAppendEntries(s, AppendEntries(leader, s.id, 1, 0, 0, [LogEntry(1, 5, 0, data)], 5)).node;
      t.commitIndex == 5 && |t.log| == 1
  {
    var e := LogEntry(1, 5, 0, data);
    assert [e][..0] == [] && AppendAll([], 0, []) == [];
    assert AppendAll([], 0, [e]) == AppendOne([], 0, e) == [e];
  }
}
