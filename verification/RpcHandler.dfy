/** The session object of src/protocol/rpc_handler.c, with its buffers, refining RpcSession event by event. */
module RpcHandler {

  import opened Bytes
  import opened Serializer
  import opened RpcSession

  class ClientSession {
    var phase: Phase
    const headerBuf: array<byte>
    var headerBytesRead: nat
    var payloadBuf: array<byte>
    var payloadBytesRead: nat
    var payloadTotal: nat
    var header: RpcHeader
    var responseBuf: array<byte>
    var responseBytesSent: nat
    var alive: bool
    ghost var requests: seq<Request>
    ghost var out: seq<byte>

    ghost predicate Valid()
      reads this
    {
      && headerBuf.Length == HEADER_SIZE && headerBytesRead <= HEADER_SIZE
      && payloadTotal == payloadBuf.Length && payloadBytesRead <= payloadTotal
      && responseBytesSent <= responseBuf.Length
      && headerBuf != payloadBuf && headerBuf != responseBuf && payloadBuf != responseBuf
    }

    // The counters say how much of each buffer is filled.
    ghost function View(): Session
      requires Valid()
      reads this, headerBuf, payloadBuf, responseBuf
    {
      Session(phase, headerBuf[..headerBytesRead], header, payloadBuf[..payloadBytesRead], payloadTotal,
              responseBuf[..], responseBytesSent, alive, requests, out)
    }

    // session_create
    constructor ()
      ensures Valid() && View() == Fresh()
      ensures fresh(headerBuf) && fresh(payloadBuf) && fresh(responseBuf)
    {
      phase, headerBytesRead, payloadBytesRead, payloadTotal := ReadingHeader, 0, 0, 0;
      header := RpcHeader(0, 0, 0, 0, NoId(), NoId());
      headerBuf, payloadBuf, responseBuf := new byte[HEADER_SIZE], new byte[0], new byte[0];
      responseBytesSent, alive, requests, out := 0, true, [], [];
    }

    method HandleReadingHeader(unread: seq<byte>, recv: Recv) returns (rest: seq<byte>, ok: bool)
      requires Valid() && Bounded(View()) && phase == ReadingHeader
      modifies this, headerBuf
      ensures Valid() && Step(View(), rest, ok) == RpcSession.HandleReadingHeader(old(View()), unread, recv)
      ensures responseBuf == old(responseBuf) && (payloadBuf == old(payloadBuf) || fresh(payloadBuf))
    {
      hide Unpacked, Packed, Received, RpcSession.HeaderComplete;
      var n := Received(recv, HEADER_SIZE - headerBytesRead, unread);
      if n < 0 {
        return unread, false;
      }
      if n == 0 {
        return unread, true;
      }
      CopyInto(headerBuf, headerBytesRead, unread[..n]);
      headerBytesRead, rest, ok := headerBytesRead + n, unread[n..], true;
      if headerBytesRead == HEADER_SIZE {
        ok := HeaderComplete();
      }
    }

    method HeaderComplete() returns (ok: bool)
      requires Valid() && Bounded(View()) && phase == ReadingHeader && headerBytesRead == HEADER_SIZE
      modifies this
      ensures Valid() && (View(), ok) == RpcSession.HeaderComplete(old(View()))
      ensures responseBuf == old(responseBuf) && (payloadBuf == old(payloadBuf) || fresh(payloadBuf))
    {
      hide Unpacked, Packed;
      assert headerBuf[..] == headerBuf[..headerBytesRead];
      header, ok := Unpacked(headerBuf[..]), true;
      if header.magic != RPC_MAGIC || header.payloadLen > MAX_PAYLOAD_SIZE {
        ok := false;
      } else if header.payloadLen > 0 {
        payloadBuf, payloadTotal, phase := new byte[header.payloadLen], header.payloadLen, ReadingPayload;
      } else {
        phase := Processing;
      }
    }

    method HandleReadingPayload(unread: seq<byte>, recv: Recv) returns (rest: seq<byte>, ok: bool)
      requires Valid() && Bounded(View()) && phase == ReadingPayload
      modifies this, payloadBuf
      ensures Valid() && Step(View(), rest, ok) == RpcSession.HandleReadingPayload(old(View()), unread, recv)
      ensures responseBuf == old(responseBuf) && payloadBuf == old(payloadBuf)
    {
      var n := Received(recv, payloadTotal - payloadBytesRead, unread);
      if n < 0 {
        return unread, false;
      }
      if n == 0 {
        return unread, true;
      }
      CopyInto(payloadBuf, payloadBytesRead, unread[..n]);
      payloadBytesRead, rest, ok := payloadBytesRead + n, unread[n..], true;
      if payloadBytesRead == payloadTotal {
        phase := Processing;
      }
    }

    static method BuildResponse(origin: seq<byte>, payload: seq<byte>) returns (buffer: array<byte>)
      ensures fresh(buffer) && buffer[..] == Answer(origin, payload)
    {
      hide Packed, CopiedId;
      buffer := new byte[HEADER_SIZE + |payload|];
      PackRpc(AnswerHeader(origin, |payload|), buffer);
      PackedSize(AnswerHeader(origin, |payload|));
      assert buffer[..HEADER_SIZE] == Packed(AnswerHeader(origin, |payload|));
      CopyInto(buffer, HEADER_SIZE, payload);
      assert buffer[..] == buffer[..HEADER_SIZE + |payload|];
    }

    method HandleProcessing(join: Join, armed: bool) returns (ok: bool)
      requires Valid() && Bounded(View()) && phase == Processing
      modifies this
      ensures Valid() && (View(), ok) == RpcSession.HandleProcessing(old(View()), join, armed)
      ensures payloadBuf == old(payloadBuf) && (responseBuf == old(responseBuf) || fresh(responseBuf))
    {
      hide Answer, CopiedId, Packed, Unpacked;
      requests := requests + [Request(header, payloadBuf[..payloadBytesRead])];
      match header.command {
        case 1 =>
          if payloadTotal != JOIN_REQUEST_SIZE || join.Refused? {
            return false;
          }
          responseBuf := BuildResponse(header.origin, join.payload);
          phase, ok := Sending, armed;
        case 3 =>
          phase, ok := Done, true;
        case 16 =>
          if payloadTotal < SYNC_HEADER_SIZE {
            return false;
          }
          phase, ok := Done, true;
        case _ =>
          ok := false;
      }
    }

    method HandleSendingResponse(send: Send) returns (ok: bool)
      requires Valid() && Bounded(View()) && phase == Sending
      modifies this
      ensures Valid() && (View(), ok) == RpcSession.HandleSendingResponse(old(View()), send)
      ensures payloadBuf == old(payloadBuf) && responseBuf == old(responseBuf)
    {
      var n := Written(send, responseBuf.Length - responseBytesSent);
      if n < 0 {
        return false;
      }
      if n > 0 {
        out := out + responseBuf[responseBytesSent..responseBytesSent + n];
        responseBytesSent := responseBytesSent + n;
        if responseBytesSent == responseBuf.Length {
          phase := Done;
        }
      }
      ok := true;
    }

    /** rpc_on_client_event: unread is what the socket holds before the event, rest what it holds after. */
    method OnClientEvent(unread: seq<byte>, ev: Event) returns (rest: seq<byte>)
      requires Valid() && Bounded(View()) && alive
      modifies this, headerBuf, payloadBuf
      ensures Valid() && (View(), rest) == OnEvent(old(View()), unread, ev)
    {
      hide RpcSession.HandleReadingHeader, RpcSession.HandleReadingPayload;
      hide RpcSession.HandleProcessing, RpcSession.HandleSendingResponse, Bounded;
      rest := unread;
      if ev.error {
        alive := false;
        return;
      }
      var ok, keepProcessing := true, true;
      while keepProcessing && ok
        invariant Valid() && Bounded(View()) && alive
        invariant payloadBuf == old(payloadBuf) || fresh(payloadBuf)
        invariant if keepProcessing && ok then Loop(View(), rest, ev) == Loop(old(View()), unread, ev)
                  else Loop(old(View()), unread, ev) == Step(View(), rest, ok)
        decreases keepProcessing && ok, Rank(phase)
      {
        keepProcessing := false;
        match phase {
          case ReadingHeader =>
            if ev.readable {
              rest, ok := HandleReadingHeader(rest, ev.recv);
              keepProcessing := phase == Processing;
            }
          case ReadingPayload =>
            if ev.readable {
              rest, ok := HandleReadingPayload(rest, ev.recv);
              keepProcessing := phase == Processing;
            }
          case Processing =>
            ok := HandleProcessing(ev.join, ev.armed);
            keepProcessing := phase == Sending;
          case Sending =>
            if ev.writable {
              ok := HandleSendingResponse(ev.send);
            }
          case Done =>
            ok := false;
        }
      }
      alive := ok;
    }
  }
}
