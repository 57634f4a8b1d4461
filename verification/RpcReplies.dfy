/** What becomes of a complete request (src/protocol/rpc_handler.c): which commands and sizes are answered, which just
    end, which end the session; and that the answer is the one prepared for this request, sent whole. */
module RpcReplies {

  import opened Bytes
  import opened Serializer
  import opened RpcSession

  // The three ends of the processing step.
  datatype Fate = Replies(payload: seq<byte>) | Finishes | Ends

  // What each command and size comes to.
  function FateOf(h: RpcHeader, total: nat, join: Join): Fate {
    if h.command == CMD_LEAVE then Finishes
    else if h.command == CMD_SYNC_RULES && total >= SYNC_HEADER_SIZE then Finishes
    else if h.command == CMD_JOIN_REQ && total == JOIN_REQUEST_SIZE && join.Answered? then Replies(join.payload)
    else Ends
  }

  /** The commands by their wire values: 1 is answered, if of 89 bytes and not refused; 3 and, from 68 bytes on, 16 are
      done with; everything else ends the session. */
  lemma FateTable(h: RpcHeader, total: nat, join: Join)
    ensures FateOf(h, total, join).Replies? <==> h.command == 1 && total == 89 && join.Answered?
    ensures FateOf(h, total, join) == Finishes <==> h.command == 3 || (h.command == 16 && total >= 68)
  {
  }

  /** A header is accepted if and only if it has the magic number and announces at most ten mebibytes. */
  lemma AcceptableTable(h: RpcHeader)
    ensures Acceptable(h) <==> h.magic == 0xCAFEBABE && h.payloadLen <= 10_485_760
  {
  }

  /** An answer is a header of command 2 that announces the payload and goes back to its origin, then the payload. */
  lemma AnswerParts(origin: seq<byte>, payload: seq<byte>)
    requires |payload| < Pow256(8)
    ensures var r := Answer(origin, payload);
      && |r| == 90 + |payload| && r[90..] == payload
      && Unpacked(r[..90]) == RpcHeader(0xCAFEBABE, 1, 2, |payload|, CopiedId(origin), NoId())
  {
    hide Packed, Unpacked, CopiedId, ToBigEndian;
    var h := AnswerHeader(origin, |payload|);
    Magics();
    UnpackPacked(h);
    assert Answer(origin, payload)[..90] == Packed(h);
  }

  lemma Magics()
    ensures RPC_MAGIC < Pow256(4) && 2 < Pow256(2) && 1 < Pow256(2)
  {
    assert Pow256(1) == 256 && Pow256(2) == 0x1_0000 && Pow256(3) == 0x100_0000 && Pow256(4) == 0x1_0000_0000;
  }

  /** An id that is a name of at most 36 bytes padded with zeros comes back unchanged. */
  lemma IdComesBack(name: seq<byte>, zeros: seq<byte>)
    requires |name| <= 36 && 0 !in name && |name| + |zeros| == ID_SIZE && forall k :: 0 <= k < |zeros| ==> zeros[k] == 0
    ensures CopiedId(name + zeros) == name + zeros
  {
    var id, r := name + zeros, CopiedId(name + zeros);
    forall k | 0 <= k < ID_SIZE ensures r[k] == id[k] {
      if k < |name| {
        assert id[..k] == name[..k];
        assert 0 !in id[..k];
      }
    }
  }

  // The session right after the event that completed request (h, payload).
  ghost predicate Met(s: Session, h: RpcHeader, payload: seq<byte>, ev: Event) {
    match FateOf(h, |payload|, ev.join)
    case Replies(p) =>
      && s.response == Answer(h.origin, p) && (s.phase.Sending? || s.phase.Done?) && (s.alive ==> ev.armed)
      && (ev.armed && !ev.writable ==> s.alive && s.phase == Sending && s.out == [])
    case Finishes => s.alive && s.phase == Done && s.response == []
    case Ends => !s.alive && s.response == []
  }

  lemma ProcessingMeets(s: Session, unread: seq<byte>, ev: Event)
    requires Bounded(s) && s.phase == Processing && s.response == [] && s.out == [] && |s.payload| == s.total
    ensures var r := Loop(s, unread, ev); Met(r.s.(alive := r.ok), s.header, s.payload, ev)
  {
    hide Packed, Unpacked, CopiedId, Answer, Written;
    var (s1, ok) := HandleProcessing(s, ev.join, ev.armed);
    assert Pass(s, unread, ev) == (Step(s1, unread, ok), s1.phase.Sending?);
    if s1.phase.Sending? && ok {
      assert Loop(s, unread, ev) == Loop(s1, unread, ev) == Pass(s1, unread, ev).0;
    }
  }

  // A session that has not processed anything has nothing to send.
  ghost predicate Silent(s: Session) {
    s.requests == [] ==> s.response == [] && s.out == []
  }

  lemma PassSilent(s: Session, unread: seq<byte>, ev: Event)
    requires Bounded(s) && Silent(s) && (s.phase.Sending? ==> s.requests != [])
    ensures Silent(Pass(s, unread, ev).0.s) && (Pass(s, unread, ev).0.s.phase.Sending? ==> Pass(s, unread, ev).0.s.requests != [])
  {
    hide Packed, Unpacked, Answer, Received, Written;
  }

  lemma {:induction false} LoopSilent(s: Session, unread: seq<byte>, ev: Event)
    requires Bounded(s) && Silent(s) && (s.phase.Sending? ==> s.requests != [])
    ensures Silent(Loop(s, unread, ev).s) && (Loop(s, unread, ev).s.phase.Sending? ==> Loop(s, unread, ev).s.requests != [])
    decreases Rank(s.phase)
  {
    hide Pass, Silent;
    PassSilent(s, unread, ev);
    var (r, more) := Pass(s, unread, ev);
    if more && r.ok { LoopSilent(r.s, r.unread, ev); }
  }

  lemma {:induction false} RunSilent(input: seq<byte>, events: seq<Event>)
    ensures var s := Run(input, events).0; Silent(s) && (s.phase.Sending? ==> s.requests != [])
    decreases |events|
  {
    hide Loop, Unpacked, Packed;
    if events != [] {
      var before := events[..|events| - 1];
      RunSilent(input, before);
      LoopSilent(Run(input, before).0, Run(input, before).1, events[|events| - 1]);
    }
  }

  // The event that completes a request goes through a reading pass to a complete request.
  lemma CompletingEvent(s: Session, input: seq<byte>, taken: nat, ev: Event)
    requires Bounded(s) && s.alive && Tracks(s, input, taken) && Silent(s) && s.requests == [] && !ev.error
    requires OnEvent(s, input[taken..], ev).0.requests != []
    ensures var s' := OnEvent(s, input[taken..], ev).0;
      |s'.requests| == 1 && Met(s', s'.requests[0].header, s'.requests[0].payload, ev)
  {
    hide Packed, Unpacked, HandleProcessing, HandleSendingResponse, HandleReadingHeader, HandleReadingPayload, Met, Silent;
    EventTracks(s, input, taken, ev);
    PassTracks(s, input, taken, ev);
    ReadingPass(s, input, taken, ev);
    var (r, more) := Pass(s, input[taken..], ev);
    assert more && r.ok && r.s.phase == Processing;
    ProcessingMeets(r.s, r.unread, ev);
    ProcessedOnce(r.s, r.unread, ev);
  }

  // Reading passes process nothing.
  lemma ReadingPass(s: Session, input: seq<byte>, taken: nat, ev: Event)
    requires Bounded(s) && s.alive && Tracks(s, input, taken) && Silent(s) && s.requests == []
    ensures s.phase.ReadingHeader? || s.phase.ReadingPayload?
    ensures var (r, more) := Pass(s, input[taken..], ev);
      && r.s.requests == [] && r.s.response == [] && r.s.out == []
      && (more ==> r.s.phase == Processing && |r.s.payload| == r.s.total)
  {
    hide Packed, Unpacked, Received;
  }

  lemma ProcessedOnce(s: Session, unread: seq<byte>, ev: Event)
    requires Bounded(s) && s.phase == Processing && s.requests == []
    ensures Loop(s, unread, ev).s.requests == [Request(s.header, s.payload)]
  {
    hide Packed, Unpacked, Answer, Written;
    var (s1, ok) := HandleProcessing(s, ev.join, ev.armed);
    assert Pass(s, unread, ev) == (Step(s1, unread, ok), s1.phase.Sending?);
    if s1.phase.Sending? && ok {
      assert Loop(s, unread, ev) == Loop(s1, unread, ev) == Pass(s1, unread, ev).0;
    }
  }

  /** However it was split: at the event that takes a message's last byte, the session does what its command, its size and
      that very event's join answer call for. */
  lemma FateTheorem(h: RpcHeader, payload: seq<byte>, extra: seq<byte>, before: seq<Event>, ev: Event)
    requires Fits(h) && Acceptable(h) && h.payloadLen == |payload|
    requires Run(Packed(h) + payload + extra, before).0.requests == []
    requires Run(Packed(h) + payload + extra, before + [ev]).0.requests != []
    ensures Met(Run(Packed(h) + payload + extra, before + [ev]).0, h, payload, ev)
  {
    hide Packed, Unpacked, Loop, Met, Tracks;
    var input := Packed(h) + payload + extra;
    var (s, unread) := Run(input, before);
    assert (before + [ev])[..|before|] == before;
    assert Run(input, before + [ev]) == OnEvent(s, unread, ev);
    RunTracks(input, before);
    RunSilent(input, before);
    CompletingEvent(s, input, |input| - |unread|, ev);
    ChunkTheorem(h, payload, extra, before + [ev]);
  }

  // After processing, the response and the phase's side stay.
  lemma EventKeepsResponse(s: Session, unread: seq<byte>, ev: Event)
    requires Bounded(s) && (s.alive ==> s.phase.Sending? || s.phase.Done?)
    ensures var s' := OnEvent(s, unread, ev).0;
      s'.response == s.response && (s'.alive ==> s'.phase.Sending? || s'.phase.Done?)
  {
    hide Packed, Unpacked, Written;
  }

  lemma {:induction false} RunKeepsResponse(input: seq<byte>, events: seq<Event>, more: seq<Event>)
    requires var s := Run(input, events).0; s.alive ==> s.phase.Sending? || s.phase.Done?
    ensures var s, s' := Run(input, events).0, Run(input, events + more).0;
      s'.response == s.response && (s'.alive ==> s'.phase.Sending? || s'.phase.Done?)
    decreases |more|
  {
    hide OnEvent;
    if more == [] {
      assert events + more == events;
    } else {
      var n := |more| - 1;
      RunKeepsResponse(input, events, more[..n]);
      assert (events + more)[..|events| + n] == events + more[..n];
      EventKeepsResponse(Run(input, events + more[..n]).0, Run(input, events + more[..n]).1, more[n]);
    }
  }

  /** A join of 89 bytes to which p is the answer: from that event on, for ever, the response is the header for p followed
      by p, and what has been sent is a prefix of it. */
  lemma JoinTheorem(h: RpcHeader, payload: seq<byte>, extra: seq<byte>, before: seq<Event>, ev: Event, more: seq<Event>)
    requires Fits(h) && Acceptable(h) && h.payloadLen == |payload| == 89 && h.command == 1
    requires ev.join.Answered? && |ev.join.payload| < Pow256(8)
    requires Run(Packed(h) + payload + extra, before).0.requests == []
    requires Run(Packed(h) + payload + extra, before + [ev]).0.requests != []
    ensures var s := Run(Packed(h) + payload + extra, before + [ev] + more).0;
      && |s.response| == 90 + |ev.join.payload| && s.response[90..] == ev.join.payload
      && Unpacked(s.response[..90]) == RpcHeader(0xCAFEBABE, 1, 2, |ev.join.payload|, CopiedId(h.origin), NoId())
      && s.out <= s.response && (s.phase == Done ==> s.out == s.response)
  {
    hide Packed, Unpacked, Run, CopiedId, Answer;
    var input := Packed(h) + payload + extra;
    FateTheorem(h, payload, extra, before, ev);
    RunKeepsResponse(input, before + [ev], more);
    AnswerParts(h.origin, ev.join.payload);
    ResponseTheorem(input, before + [ev] + more);
  }

  // A write event that finds room.
  predicate Flushes(ev: Event) {
    ev.writable && !ev.error && ev.send.Room? && ev.send.count > 0
  }

  lemma EventFlushes(s: Session, unread: seq<byte>, ev: Event)
    requires Bounded(s) && Answers(s) && s.alive && s.phase == Sending && Flushes(ev)
    ensures var s' := OnEvent(s, unread, ev).0;
      && s'.alive && s'.response == s.response && s'.sent > s.sent
      && s'.phase == if s'.sent == |s.response| then Done else Sending
  {
    hide Packed, Unpacked, Announced;
  }

  // Sent whole, be the session still there or not.
  predicate SentAll(s: Session) {
    s.phase == Done && s.out == s.response
  }

  /** A session that is done ends at the next event, whatever that is. */
  lemma EventAfterDone(s: Session, unread: seq<byte>, ev: Event)
    requires Bounded(s) && SentAll(s)
    ensures OnEvent(s, unread, ev).0 == s.(alive := false)
  {
  }

  /** Once the session is sending, events that find room for a byte or more send the whole response, in at most one event
      a byte. */
  lemma {:induction false} SentTheorem(input: seq<byte>, events: seq<Event>, more: seq<Event>)
    requires var s := Run(input, events).0; s.alive && s.phase == Sending
    requires forall i :: 0 <= i < |more| ==> Flushes(more[i])
    ensures var s, s' := Run(input, events).0, Run(input, events + more).0;
      && s'.response == s.response
      && (SentAll(s') || (s'.alive && s'.phase == Sending && |s.response| > s'.sent >= s.sent + |more|))
      && (|more| >= |s.response| - s.sent ==> SentAll(s'))
    decreases |more|
  {
    hide OnEvent, Announced;
    var s := Run(input, events).0;
    ResponseTheorem(input, events);
    if more == [] {
      assert events + more == events;
    } else {
      var n := |more| - 1;
      SentTheorem(input, events, more[..n]);
      assert (events + more)[..|events| + n] == events + more[..n];
      var (t, unread) := Run(input, events + more[..n]);
      ResponseTheorem(input, events + more[..n]);
      ResponseTheorem(input, events + more);
      if SentAll(t) {
        EventAfterDone(t, unread, more[n]);
      } else {
        EventFlushes(t, unread, more[n]);
      }
    }
  }

  // Events that read or write nothing

  /** An error, a failed recv and the end of the stream end a reading session, and it has taken nothing. */
  lemma ReadEnds(s: Session, unread: seq<byte>, ev: Event)
    requires Bounded(s) && s.alive
    requires (s.phase.ReadingHeader? && |s.head| < HEADER_SIZE) || (s.phase.ReadingPayload? && |s.payload| < s.total)
    requires ev.error || (ev.readable && (ev.recv == Failed || (ev.recv.Arrived? && (ev.recv.count == 0 || unread == []))))
    ensures OnEvent(s, unread, ev) == (s.(alive := false), unread)
  {
    hide Unpacked, HeaderComplete;
  }

  /** A sending session waits when there is no room, and ends when the connection is broken. */
  lemma WriteWaitsOrEnds(s: Session, unread: seq<byte>, ev: Event)
    requires Bounded(s) && s.alive && s.phase == Sending && s.sent < |s.response| && !ev.error
    ensures !ev.writable || ev.send == Full || ev.send == Room(0) ==> OnEvent(s, unread, ev) == (s, unread)
    ensures ev.writable && ev.send == Broken ==> OnEvent(s, unread, ev) == (s.(alive := false), unread)
  {
    hide Packed, Unpacked;
  }
}
