/** The asynchronous server session (src/protocol/rpc_handler.c): one event at a time, over values. */
module RpcSession {

  import opened Bytes
  import opened Numbers
  import opened Serializer

  const MAX_PAYLOAD_SIZE: nat := 10 * 1024 * 1024
  const CMD_JOIN_REQ: nat := 1
  const CMD_JOIN_RESP: nat := 2
  const CMD_LEAVE: nat := 3
  const CMD_SYNC_RULES: nat := 16
  const JOIN_REQUEST_SIZE: nat := 89
  const SYNC_HEADER_SIZE: nat := 68

  datatype Phase = ReadingHeader | ReadingPayload | Processing | Sending | Done

  datatype Request = Request(header: RpcHeader, payload: seq<byte>)

  // requests and out are history: what was handed to the processing step, and what send took.
  datatype Session = Session(phase: Phase, head: seq<byte>, header: RpcHeader, payload: seq<byte>, total: nat,
                             response: seq<byte>, sent: nat, alive: bool, requests: seq<Request>, out: seq<byte>)

  // The result of the recv call, should there be one: count is what has arrived and is not yet read.
  datatype Recv = Blocked | Failed | Arrived(count: nat)

  datatype Send = Full | Broken | Room(count: nat)

  // cluster_handle_join_req
  datatype Join = Refused | Answered(payload: seq<byte>)

  datatype Event = Event(readable: bool, writable: bool, error: bool,
                         recv: Recv, send: Send, join: Join, armed: bool)

  datatype Step = Step(s: Session, unread: seq<byte>, ok: bool)

  // A zeroed id field, as calloc and a partial initializer leave it.
  function NoId(): seq<byte> {
    seq(ID_SIZE, _ => 0)
  }

  function Fresh(): Session {
    Session(ReadingHeader, [], RpcHeader(0, 0, 0, 0, NoId(), NoId()), [], 0, [], 0, true, [], [])
  }

  // The buffers are within bounds.
  predicate Bounded(s: Session) {
    && |s.head| <= HEADER_SIZE && |s.payload| <= s.total && s.sent <= |s.response|
    && (s.phase.ReadingHeader? ==> s.total == 0)
    && (!s.phase.Sending? && !s.phase.Done? ==> s.sent == 0)
  }

  // read_into_buffer: a byte count, 0 to try again later, -1 on error or end of stream
  function Received(recv: Recv, want: nat, unread: seq<byte>): (n: int)
    ensures -1 <= n <= want && n <= |unread|
  {
    if want == 0 then 0
    else match recv
      case Blocked => 0
      case Failed => -1
      case Arrived(count) =>
        var n := Min(Min(count, want), |unread|);
        if n == 0 then -1 else n
  }

  // write_from_buffer
  function Written(send: Send, left: nat): (n: int)
    ensures -1 <= n <= left
  {
    match send
    case Full => 0
    case Broken => if left == 0 then 0 else -1
    case Room(count) => Min(count, left)
  }

  predicate Acceptable(h: RpcHeader) {
    h.magic == RPC_MAGIC && h.payloadLen <= MAX_PAYLOAD_SIZE
  }

  function HeaderComplete(s: Session): (r: (Session, bool))
    requires Bounded(s) && s.phase == ReadingHeader && |s.head| == HEADER_SIZE
    ensures Bounded(r.0) && r.0.alive == s.alive
  {
    var t := s.(header := Unpacked(s.head));
    if !Acceptable(t.header) then (t, false)
    else if t.header.payloadLen > 0 then (t.(total := t.header.payloadLen, phase := ReadingPayload), true)
    else (t.(phase := Processing), true)
  }

  function HandleReadingHeader(s: Session, unread: seq<byte>, recv: Recv): (r: Step)
    requires Bounded(s) && s.phase == ReadingHeader
    ensures Bounded(r.s) && r.s.alive == s.alive
  {
    var n := Received(recv, HEADER_SIZE - |s.head|, unread);
    if n < 0 then Step(s, unread, false)
    else if n == 0 then Step(s, unread, true)
    else
      var s1 := s.(head := s.head + unread[..n]);
      if |s1.head| < HEADER_SIZE then Step(s1, unread[n..], true)
      else
        var (s2, ok) := HeaderComplete(s1);
        Step(s2, unread[n..], ok)
  }

  function HandleReadingPayload(s: Session, unread: seq<byte>, recv: Recv): (r: Step)
    requires Bounded(s) && s.phase == ReadingPayload
    ensures Bounded(r.s) && r.s.alive == s.alive
  {
    var n := Received(recv, s.total - |s.payload|, unread);
    if n < 0 then Step(s, unread, false)
    else if n == 0 then Step(s, unread, true)
    else
      var s1 := s.(payload := s.payload + unread[..n]);
      Step(if |s1.payload| == s.total then s1.(phase := Processing) else s1, unread[n..], true)
  }

  // strncpy of at most 36 bytes into a zeroed field of 37
  function CopiedId(id: seq<byte>): (r: seq<byte>)
    ensures |r| == ID_SIZE
  {
    seq(ID_SIZE, i requires 0 <= i => if i < ID_SIZE - 1 && i < |id| && 0 !in id[..i] then id[i] else 0)
  }

  function AnswerHeader(origin: seq<byte>, length: nat): RpcHeader {
    RpcHeader(RPC_MAGIC, 1, CMD_JOIN_RESP, length, CopiedId(origin), NoId())
  }

  function Answer(origin: seq<byte>, payload: seq<byte>): seq<byte> {
    Packed(AnswerHeader(origin, |payload|)) + payload
  }

  function HandleProcessing(s: Session, join: Join, armed: bool): (r: (Session, bool))
    requires Bounded(s) && s.phase == Processing
    ensures Bounded(r.0) && r.0.alive == s.alive
  {
    var s1 := s.(requests := s.requests + [Request(s.header, s.payload)]);
    if s.header.command == CMD_JOIN_REQ then
      if s.total != JOIN_REQUEST_SIZE || join.Refused? then (s1, false)
      else
        (s1.(response := Answer(s.header.origin, join.payload), phase := Sending), armed)
    else if s.header.command == CMD_LEAVE then (s1.(phase := Done), true)
    else if s.header.command == CMD_SYNC_RULES then
      if s.total < SYNC_HEADER_SIZE then (s1, false) else (s1.(phase := Done), true)
    else (s1, false)
  }

  function HandleSendingResponse(s: Session, send: Send): (r: (Session, bool))
    requires Bounded(s) && s.phase == Sending
    ensures Bounded(r.0) && r.0.alive == s.alive && !r.0.phase.Processing?
  {
    var n := Written(send, |s.response| - s.sent);
    if n < 0 then (s, false)
    else if n == 0 then (s, true)
    else
      var s1 := s.(sent := s.sent + n, out := s.out + s.response[s.sent..s.sent + n]);
      (if s1.sent == |s.response| then s1.(phase := Done) else s1, true)
  }

  // How far a session is from its end: an event only repeats its loop after a drop in rank.
  function Rank(p: Phase): nat {
    match p
    case ReadingHeader => 4
    case ReadingPayload => 3
    case Processing => 2
    case Sending => 1
    case Done => 0
  }

  // One pass of the loop of rpc_on_client_event; more is keep_processing.
  function Pass(s: Session, unread: seq<byte>, ev: Event): (r: (Step, bool))
    requires Bounded(s)
    ensures Bounded(r.0.s)
    ensures r.1 ==> Rank(r.0.s.phase) < Rank(s.phase)
  {
    match s.phase
    case ReadingHeader =>
      if !ev.readable then (Step(s, unread, true), false)
      else var r := HandleReadingHeader(s, unread, ev.recv); (r, r.s.phase.Processing?)
    case ReadingPayload =>
      if !ev.readable then (Step(s, unread, true), false)
      else var r := HandleReadingPayload(s, unread, ev.recv); (r, r.s.phase.Processing?)
    case Processing =>
      var (s1, ok) := HandleProcessing(s, ev.join, ev.armed); (Step(s1, unread, ok), s1.phase.Sending?)
    case Sending =>
      if !ev.writable then (Step(s, unread, true), false)
      else var (s1, ok) := HandleSendingResponse(s, ev.send); (Step(s1, unread, ok), false)
    case Done => (Step(s, unread, false), false)
  }

  function Loop(s: Session, unread: seq<byte>, ev: Event): (r: Step)
    requires Bounded(s)
    ensures Bounded(r.s)
    decreases Rank(s.phase)
  {
    var (r, more) := Pass(s, unread, ev);
    if more && r.ok then Loop(r.s, r.unread, ev) else r
  }

  // rpc_on_client_event; a destroyed session gets no more events.
  function OnEvent(s: Session, unread: seq<byte>, ev: Event): (r: (Session, seq<byte>))
    requires Bounded(s)
    ensures Bounded(r.0)
  {
    if !s.alive then (s, unread)
    else if ev.error then (s.(alive := false), unread)
    else
      var r := Loop(s, unread, ev);
      (r.s.(alive := r.ok), r.unread)
  }

  function Run(input: seq<byte>, events: seq<Event>): (r: (Session, seq<byte>))
    ensures Bounded(r.0)
    decreases |events|
  {
    if events == [] then (Fresh(), input)
    else
      var (s, unread) := Run(input, events[..|events| - 1]);
      OnEvent(s, unread, events[|events| - 1])
  }

  // Where the message at the front of input ends: after its header if that is refused.
  function MessageEnd(input: seq<byte>): nat
    requires |input| >= HEADER_SIZE
  {
    var h := Unpacked(input[..HEADER_SIZE]);
    HEADER_SIZE + if Acceptable(h) then h.payloadLen else 0
  }

  /** What a session holds, from the number of bytes it has taken and nothing else. */
  ghost predicate Tracks(s: Session, input: seq<byte>, taken: nat) {
    && taken <= |input|
    && if taken < HEADER_SIZE then
        s.phase == ReadingHeader && s.head == input[..taken] && s.payload == [] && s.requests == []
      else
        var h := Unpacked(input[..HEADER_SIZE]);
        && s.head == input[..HEADER_SIZE] && s.header == h && taken <= MessageEnd(input)
        && if !Acceptable(h) then !s.alive && s.requests == []
          else
            && s.payload == input[HEADER_SIZE..taken] && s.total == h.payloadLen
            && if taken < MessageEnd(input) then s.phase == ReadingPayload && s.requests == []
              else
                && s.requests == [Request(h, input[HEADER_SIZE..taken])]
                && (s.alive ==> s.phase.Sending? || s.phase.Done?)
  }

  // As Tracks, in the middle of an event, when a complete request has not been processed yet.
  ghost predicate Ready(s: Session, input: seq<byte>, taken: nat) {
    && HEADER_SIZE <= taken <= |input|
    && s.phase == Processing && s.requests == [] && taken == MessageEnd(input)
    && Acceptable(Unpacked(input[..HEADER_SIZE]))
    && s.head == input[..HEADER_SIZE] && s.header == Unpacked(s.head)
    && s.payload == input[HEADER_SIZE..taken] && s.total == s.header.payloadLen
  }

  // What one pass hands on: a complete request to process, or a session that tracks the input.
  ghost predicate Advances(r: Step, input: seq<byte>, taken: nat) {
    var t := |input| - |r.unread|;
    && taken <= t <= |input| && r.unread == input[t..]
    && if r.ok && r.s.phase == Processing then Ready(r.s, input, t) else Tracks(r.s.(alive := r.ok), input, t)
  }

  lemma HeaderTracks(s: Session, input: seq<byte>, taken: nat, recv: Recv)
    requires Bounded(s) && s.phase == ReadingHeader && s.alive && Tracks(s, input, taken)
    ensures Advances(HandleReadingHeader(s, input[taken..], recv), input, taken)
  {
    hide Unpacked, Packed;
    var n := Received(recv, HEADER_SIZE - |s.head|, input[taken..]);
    if n > 0 {
      assert s.head + input[taken..][..n] == input[..taken + n];
      assert input[taken..][n..] == input[taken + n..];
    }
  }

  lemma PayloadTracks(s: Session, input: seq<byte>, taken: nat, recv: Recv)
    requires Bounded(s) && s.phase == ReadingPayload && s.alive && Tracks(s, input, taken)
    ensures Advances(HandleReadingPayload(s, input[taken..], recv), input, taken)
  {
    hide Unpacked, Packed;
    var n := Received(recv, s.total - |s.payload|, input[taken..]);
    if n > 0 {
      assert s.payload + input[taken..][..n] == input[HEADER_SIZE..taken + n];
      assert input[taken..][n..] == input[taken + n..];
    }
  }

  lemma ProcessingTracks(s: Session, input: seq<byte>, taken: nat, join: Join, armed: bool)
    requires Bounded(s) && Ready(s, input, taken)
    ensures var (s', ok) := HandleProcessing(s, join, armed); Tracks(s'.(alive := ok), input, taken)
  {
    hide Unpacked, Packed, CopiedId;
  }

  lemma SendingTracks(s: Session, input: seq<byte>, taken: nat, send: Send)
    requires Bounded(s) && s.phase == Sending && s.alive && Tracks(s, input, taken)
    ensures var (s', ok) := HandleSendingResponse(s, send); Tracks(s'.(alive := ok), input, taken)
  {
    hide Unpacked, Packed;
  }

  lemma PassTracks(s: Session, input: seq<byte>, taken: nat, ev: Event)
    requires Bounded(s) && taken <= |input|
    requires s.alive && (Tracks(s, input, taken) || Ready(s, input, taken))
    ensures Advances(Pass(s, input[taken..], ev).0, input, taken)
    ensures var (r, more) := Pass(s, input[taken..], ev); r.s.alive && (r.ok && !more ==> r.s.phase != Processing)
  {
    hide Unpacked, Packed, HandleReadingHeader, HandleReadingPayload, HandleProcessing, HandleSendingResponse;
    match s.phase
    case ReadingHeader => HeaderTracks(s, input, taken, ev.recv);
    case ReadingPayload => PayloadTracks(s, input, taken, ev.recv);
    case Processing => ProcessingTracks(s, input, taken, ev.join, ev.armed);
    case Sending => SendingTracks(s, input, taken, ev.send);
    case Done =>
  }

  lemma {:induction false} LoopTracks(s: Session, input: seq<byte>, taken: nat, ev: Event)
    requires Bounded(s) && taken <= |input|
    requires s.alive && (Tracks(s, input, taken) || Ready(s, input, taken))
    ensures var r := Loop(s, input[taken..], ev);
      Advances(r, input, taken) && (r.ok ==> r.s.phase != Processing)
    decreases Rank(s.phase)
  {
    hide Pass, Unpacked, Packed;
    var (r, more) := Pass(s, input[taken..], ev);
    PassTracks(s, input, taken, ev);
    if more && r.ok {
      LoopTracks(r.s, input, |input| - |r.unread|, ev);
    }
  }

  lemma EventTracks(s: Session, input: seq<byte>, taken: nat, ev: Event)
    requires Bounded(s) && Tracks(s, input, taken)
    ensures var (s', unread) := OnEvent(s, input[taken..], ev);
      var t := |input| - |unread|;
      taken <= t <= |input| && unread == input[t..] && Tracks(s', input, t)
  {
    hide Loop, Unpacked, Packed;
    if s.alive && !ev.error {
      LoopTracks(s, input, taken, ev);
    }
  }

  /**
   * Chunk independence: after any events, with the input split in any way, the session holds what the
   * number of bytes it has taken says, and exactly the other bytes are still unread.
   */
  lemma {:induction false} RunTracks(input: seq<byte>, events: seq<Event>)
    ensures var (s, unread) := Run(input, events);
      |unread| <= |input| && unread == input[|input| - |unread|..] && Tracks(s, input, |input| - |unread|)
    decreases |events|
  {
    hide OnEvent, Unpacked, Packed;
    if events != [] {
      RunTracks(input, events[..|events| - 1]);
      var (s, unread) := Run(input, events[..|events| - 1]);
      EventTracks(s, input, |input| - |unread|, events[|events| - 1]);
    }
  }

  // A packed message is one message, and its parts are where they should be.
  lemma MessageParts(h: RpcHeader, payload: seq<byte>, extra: seq<byte>)
    requires Fits(h) && Acceptable(h) && h.payloadLen == |payload|
    ensures var input := Packed(h) + payload + extra;
      && |input| >= HEADER_SIZE && Unpacked(input[..HEADER_SIZE]) == h
      && MessageEnd(input) == HEADER_SIZE + |payload|
      && input[HEADER_SIZE..MessageEnd(input)] == payload && input[MessageEnd(input)..] == extra
  {
    hide Unpacked, Packed;
    UnpackPacked(h);
    assert (Packed(h) + payload + extra)[..HEADER_SIZE] == Packed(h);
  }

  /** A message followed by anything: it alone is read, and it is processed once, as soon as it is complete. */
  lemma ChunkTheorem(h: RpcHeader, payload: seq<byte>, extra: seq<byte>, events: seq<Event>)
    requires Fits(h) && Acceptable(h) && h.payloadLen == |payload|
    ensures var (s, unread) := Run(Packed(h) + payload + extra, events);
      && |unread| >= |extra| && unread[|unread| - |extra|..] == extra
      && s.requests == if |unread| == |extra| then [Request(h, payload)] else []
  {
    hide Unpacked, Packed, Run, MessageEnd;
    var input := Packed(h) + payload + extra;
    RunTracks(input, events);
    MessageParts(h, payload, extra);
    UnpackPacked(h);
  }

  /** A header with the wrong magic or an oversized length: the session ends there and nothing is processed. */
  lemma RefusalTheorem(input: seq<byte>, events: seq<Event>)
    requires |input| >= HEADER_SIZE && !Acceptable(Unpacked(input[..HEADER_SIZE]))
    ensures var (s, unread) := Run(input, events);
      s.requests == [] && |unread| >= |input| - HEADER_SIZE && (|unread| == |input| - HEADER_SIZE ==> !s.alive)
  {
    hide Unpacked, Packed, Run;
    RunTracks(input, events);
  }

  // A read event that finds something.
  predicate Feeds(ev: Event) {
    ev.readable && !ev.error && ev.recv.Arrived? && ev.recv.count > 0
  }

  lemma HeaderProgress(s: Session, input: seq<byte>, taken: nat, recv: Recv)
    requires Bounded(s) && s.phase == ReadingHeader && s.alive && Tracks(s, input, taken)
    requires recv.Arrived? && recv.count > 0
    requires |input| >= HEADER_SIZE && Acceptable(Unpacked(input[..HEADER_SIZE]))
    ensures var r := HandleReadingHeader(s, input[taken..], recv); r.ok && |r.unread| < |input| - taken
  {
    hide Unpacked, Packed;
    var n := Received(recv, HEADER_SIZE - |s.head|, input[taken..]);
    assert 0 < n <= HEADER_SIZE - taken;
    assert s.head + input[taken..][..n] == input[..taken + n];
    assert |input[taken..][n..]| == |input| - taken - n;
  }

  lemma PayloadProgress(s: Session, input: seq<byte>, taken: nat, recv: Recv)
    requires Bounded(s) && s.phase == ReadingPayload && s.alive && Tracks(s, input, taken)
    requires recv.Arrived? && recv.count > 0
    requires |input| >= HEADER_SIZE && taken < MessageEnd(input) <= |input|
    ensures var r := HandleReadingPayload(s, input[taken..], recv); r.ok && |r.unread| < |input| - taken
  {
    hide Unpacked, Packed;
    var n := Received(recv, s.total - |s.payload|, input[taken..]);
    assert 0 < n;
    assert |input[taken..][n..]| == |input| - taken - n;
  }

  lemma PassProgress(s: Session, input: seq<byte>, taken: nat, ev: Event)
    requires Bounded(s) && s.alive && Tracks(s, input, taken) && Feeds(ev)
    requires |input| >= HEADER_SIZE && Acceptable(Unpacked(input[..HEADER_SIZE]))
    requires taken < MessageEnd(input) <= |input|
    ensures var (r, more) := Pass(s, input[taken..], ev);
      r.ok && |r.unread| < |input| - taken && (more ==> r.s.phase == Processing)
  {
    hide Unpacked, Packed, HandleProcessing, HandleSendingResponse;
    if s.phase == ReadingHeader {
      HeaderProgress(s, input, taken, ev.recv);
    } else {
      PayloadProgress(s, input, taken, ev.recv);
    }
  }

  lemma EventProgress(s: Session, input: seq<byte>, taken: nat, ev: Event)
    requires Bounded(s) && s.alive && Tracks(s, input, taken) && Feeds(ev)
    requires |input| >= HEADER_SIZE && Acceptable(Unpacked(input[..HEADER_SIZE]))
    requires taken < MessageEnd(input) <= |input|
    ensures var (s', unread) := OnEvent(s, input[taken..], ev);
      |unread| < |input| - taken && (s'.alive || |unread| == |input| - MessageEnd(input))
  {
    hide Unpacked, Packed, Pass, Tracks, MessageEnd, Acceptable;
    PassProgress(s, input, taken, ev);
    PassTracks(s, input, taken, ev);
    EventTracks(s, input, taken, ev);
    var (s', unread) := OnEvent(s, input[taken..], ev);
    WithinMessage(s', input, |input| - |unread|);
    var (r, more) := Pass(s, input[taken..], ev);
    if more {
      LoopTracks(r.s, input, |input| - |r.unread|, ev);
    }
  }

  // An event that finds nothing to read, or is not about reading.
  predicate Waits(ev: Event) {
    !ev.error && (!ev.readable || ev.recv == Blocked)
  }

  function Feedings(events: seq<Event>): nat {
    if events == [] then 0 else Feedings(events[..|events| - 1]) + (if Feeds(events[|events| - 1]) then 1 else 0)
  }

  /** A would-block leaves a reading session exactly as it is. */
  lemma WaitingChangesNothing(s: Session, unread: seq<byte>, ev: Event)
    requires Bounded(s) && s.alive && (s.phase.ReadingHeader? || s.phase.ReadingPayload?) && Waits(ev)
    ensures OnEvent(s, unread, ev) == (s, unread)
  {
    hide Unpacked, HeaderComplete;
  }

  /** Fed with one byte or more now and then, with any would-blocks between, the session is done with the message after
      at most one feeding a byte. */
  lemma {:induction false} CompletionTheorem(h: RpcHeader, payload: seq<byte>, extra: seq<byte>, events: seq<Event>)
    requires Fits(h) && Acceptable(h) && h.payloadLen == |payload|
    requires forall i :: 0 <= i < |events| ==> Feeds(events[i]) || Waits(events[i])
    requires Feedings(events) >= HEADER_SIZE + |payload|
    ensures Run(Packed(h) + payload + extra, events).0.requests == [Request(h, payload)]
  {
    hide Unpacked, Packed, Run, MessageEnd, Tracks, Feeds;
    MessageParts(h, payload, extra);
    UnpackPacked(h);
    RunProgress(Packed(h) + payload + extra, events);
    ChunkTheorem(h, payload, extra, events);
  }

  lemma {:induction false} RunProgress(input: seq<byte>, events: seq<Event>)
    requires |input| >= HEADER_SIZE && Acceptable(Unpacked(input[..HEADER_SIZE])) && MessageEnd(input) <= |input|
    requires forall i :: 0 <= i < |events| ==> Feeds(events[i]) || Waits(events[i])
    ensures var (s, unread) := Run(input, events);
      || |unread| == |input| - MessageEnd(input)
      || (s.alive && |unread| <= |input| - Feedings(events))
    decreases |events|
  {
    hide Unpacked, Packed, OnEvent, MessageEnd, Tracks, Feeds, Waits;
    if events != [] {
      var before, ev := events[..|events| - 1], events[|events| - 1];
      var (s, unread) := Run(input, before);
      RunTracks(input, before);
      RunTracks(input, events);
      RunProgress(input, before);
      var taken := |input| - |unread|;
      WithinMessage(s, input, taken);
      if taken == MessageEnd(input) {
        EventTracks(s, input, taken, ev);
        var (s', rest) := Run(input, events);
        WithinMessage(s', input, |input| - |rest|);
      } else if Feeds(ev) {
        EventProgress(s, input, taken, ev);
      } else {
        StillReading(s, input, taken);
        WaitingChangesNothing(s, unread, ev);
      }
    }
  }

  lemma StillReading(s: Session, input: seq<byte>, taken: nat)
    requires Tracks(s, input, taken) && s.alive && |input| >= HEADER_SIZE && taken < MessageEnd(input)
    ensures s.phase.ReadingHeader? || s.phase.ReadingPayload?
  {
    hide Unpacked;
  }

  lemma WithinMessage(s: Session, input: seq<byte>, taken: nat)
    requires Tracks(s, input, taken) && |input| >= HEADER_SIZE
    ensures taken <= MessageEnd(input)
  {
    hide Unpacked;
  }

  /** The response goes out from its front, and a session that is done has sent all of it. */
  ghost predicate Answers(s: Session) {
    && s.sent <= |s.response| && s.out == s.response[..s.sent]
    && (s.phase == Done ==> s.sent == |s.response|) && (s.phase == Sending ==> s.sent < |s.response|)
    && (s.response == [] || (Announced(s) && (s.phase.Sending? || s.phase.Done?)))
  }

  // Its header announces the length of what follows and is addressed to the client.
  ghost predicate Announced(s: Session) {
    exists p: seq<byte> :: s.response == Answer(s.header.origin, p)
  }

  lemma AnswerNotEmpty(origin: seq<byte>, payload: seq<byte>)
    ensures |Answer(origin, payload)| == HEADER_SIZE + |payload|
  {
    hide Packed, CopiedId;
    PackedSize(AnswerHeader(origin, |payload|));
  }

  lemma PassAnswers(s: Session, unread: seq<byte>, ev: Event)
    requires Bounded(s) && Answers(s)
    ensures Answers(Pass(s, unread, ev).0.s)
  {
    hide Unpacked, Packed, CopiedId, Answer;
    if s.phase.Processing? && ev.join.Answered? {
      AnswerNotEmpty(s.header.origin, ev.join.payload);
    }
    if s.phase.Sending? && ev.writable {
      var n := Written(ev.send, |s.response| - s.sent);
      if n > 0 {
        assert s.response[..s.sent] + s.response[s.sent..s.sent + n] == s.response[..s.sent + n];
      }
    }
  }

  lemma {:induction false} LoopAnswers(s: Session, unread: seq<byte>, ev: Event)
    requires Bounded(s) && Answers(s)
    ensures Answers(Loop(s, unread, ev).s)
    decreases Rank(s.phase)
  {
    hide Pass, Answers;
    PassAnswers(s, unread, ev);
    var (r, more) := Pass(s, unread, ev);
    if more && r.ok {
      LoopAnswers(r.s, r.unread, ev);
    }
  }

  lemma {:induction false} ResponseTheorem(input: seq<byte>, events: seq<Event>)
    ensures Answers(Run(input, events).0)
    decreases |events|
  {
    hide Loop, Unpacked, Packed;
    if events != [] {
      var (s, unread) := Run(input, events[..|events| - 1]);
      ResponseTheorem(input, events[..|events| - 1]);
      LoopAnswers(s, unread, events[|events| - 1]);
    }
  }
}
