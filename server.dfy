/**
 * The IPC server's request handling (daemon/src/ipc/server.rs): the shared
 * status updated by `process_request`, the 4-byte little-endian length
 * header with its 1 MiB ceiling, and the per-connection loop of
 * `handle_client`. The socket, the accept loop, tasks and the shutdown
 * broadcast are not modelled. What the client sends before closing is a
 * byte sequence; JSON parsing and encoding are parameters; the clock is a
 * reading in nanoseconds, `clock(k)` being the reading at the k-th request.
 */
module Server {
  import opened Wrappers
  import opened Protocol

  type byte = b: int | 0 <= b < 256

  /** Largest accepted request body: 1 MiB. */
  const MAX_MESSAGE_LEN: nat := 0x10_0000

  /** Exclusive upper bound of `u32`. */
  const U32_LIMIT: nat := 0x1_0000_0000

  const NANOS_PER_SEC: nat := 1_000_000_000

  // ---------------------------------------------------------------------------
  // Length header

  /** `u32::from_le_bytes`. */
  function DecodeLength(header: seq<byte>): (n: nat)
    requires |header| == 4
    ensures n < U32_LIMIT
  {
    header[0] + 0x100 * (header[1] + 0x100 * (header[2] + 0x100 * (header[3] as int)))
  }

  /** `u32::to_le_bytes`. */
  function EncodeLength(n: nat): (header: seq<byte>)
    requires n < U32_LIMIT
    ensures |header| == 4
  {
    var q1 := n / 0x100;
    var q2 := q1 / 0x100;
    var q3 := q2 / 0x100;
    [n % 0x100, q1 % 0x100, q2 % 0x100, q3]
  }

  /** Decoding an encoded length gives it back. */
  lemma LengthRoundTrip(n: nat)
    requires n < U32_LIMIT
    ensures DecodeLength(EncodeLength(n)) == n
  {
    var q1 := n / 0x100;
    var q2 := q1 / 0x100;
    var q3 := q2 / 0x100;
    assert n == n % 0x100 + 0x100 * q1;
    assert q1 == q1 % 0x100 + 0x100 * q2;
    assert q2 == q2 % 0x100 + 0x100 * q3;
  }

  /** `a + 256 * m` with `a` a byte splits back into `a` and `m`. */
  lemma SplitLowByte(a: int, m: nat)
    requires 0 <= a < 0x100
    ensures (a + 0x100 * m) % 0x100 == a && (a + 0x100 * m) / 0x100 == m
  {
  }

  /** Every header is the encoding of the length it declares. */
  lemma HeaderRoundTrip(header: seq<byte>)
    requires |header| == 4
    ensures EncodeLength(DecodeLength(header)) == header
  {
    var a, b, c, d: int := header[0], header[1], header[2], header[3];
    var m2 := c + 0x100 * d;
    var m1 := b + 0x100 * m2;
    SplitLowByte(a, m1);
    SplitLowByte(b, m2);
    SplitLowByte(c, d);
  }

  /** The size check: a declared length is accepted up to and including 1 MiB. */
  predicate LengthAccepted(len: nat) {
    len <= MAX_MESSAGE_LEN
  }

  // ---------------------------------------------------------------------------
  // Reading one request frame

  datatype FrameRead =
    | EndOfStream                           // fewer than 4 bytes left: a clean disconnect
    | Oversized(len: nat)                   // declared length above 1 MiB
    | Truncated(len: nat)                   // the body ends before `len` bytes
    | Frame(body: seq<byte>, rest: seq<byte>)

  /** The header read, the size check and the body read of one loop iteration. */
  function ReadFrame(input: seq<byte>): (r: FrameRead)
    ensures r.EndOfStream? <==> |input| < 4
    ensures r.Oversized? ==> |input| >= 4 && r.len == DecodeLength(input[..4]) && !LengthAccepted(r.len)
    ensures r.Truncated? ==> |input| < 4 + r.len && LengthAccepted(r.len)
    ensures r.Frame? ==> LengthAccepted(|r.body|) && |input| == 4 + |r.body| + |r.rest|
  {
    if |input| < 4 then EndOfStream
    else
      var len := DecodeLength(input[..4]);
      if !LengthAccepted(len) then Oversized(len)
      else if |input| - 4 < len then Truncated(len)
      else Frame(input[4..4 + len], input[4 + len..])
  }

  /** A frame that is read is exactly its header, its body and what follows. */
  lemma ReadFrameSplits(input: seq<byte>)
    ensures var r := ReadFrame(input);
      r.Frame? ==> input == EncodeLength(|r.body|) + r.body + r.rest
  {
    if |input| >= 4 {
      var len := DecodeLength(input[..4]);
      if LengthAccepted(len) && |input| - 4 >= len {
        HeaderRoundTrip(input[..4]);
        assert input == input[..4] + input[4..4 + len] + input[4 + len..];
      }
    }
  }

  /** A client's frame of at most 1 MiB is read back as sent, whatever follows it. */
  lemma FrameRoundTrip(body: seq<byte>, rest: seq<byte>)
    requires LengthAccepted(|body|)
    ensures ReadFrame(EncodeLength(|body|) + body + rest) == Frame(body, rest)
  {
    var input := EncodeLength(|body|) + body + rest;
    LengthRoundTrip(|body|);
    assert input[..4] == EncodeLength(|body|);
    assert input[4..4 + |body|] == body;
    assert input[4 + |body|..] == rest;
  }

  /** A header declaring exactly 1 MiB is accepted; one byte more is refused. */
  lemma SizeLimitBoundary(body: seq<byte>, rest: seq<byte>)
    requires |body| == MAX_MESSAGE_LEN
    ensures ReadFrame(EncodeLength(|body|) + body + rest) == Frame(body, rest)
    ensures ReadFrame(EncodeLength(MAX_MESSAGE_LEN + 1) + rest) == Oversized(MAX_MESSAGE_LEN + 1)
  {
    FrameRoundTrip(body, rest);
    LengthRoundTrip(MAX_MESSAGE_LEN + 1);
    assert (EncodeLength(MAX_MESSAGE_LEN + 1) + rest)[..4] == EncodeLength(MAX_MESSAGE_LEN + 1);
  }

  // ---------------------------------------------------------------------------
  // Request processing

  /** `start_time.elapsed().as_secs()`: whole seconds, never negative. */
  function UptimeSecs(startTime: nat, now: nat): (secs: nat)
    ensures startTime <= now ==> secs * NANOS_PER_SEC <= now - startTime < (secs + 1) * NANOS_PER_SEC
    ensures now <= startTime ==> secs == 0
  {
    if now >= startTime then (now - startTime) / NANOS_PER_SEC else 0
  }

  datatype Processed = Processed(status: DaemonStatus, response: Response)

  /**
   * `process_request` on the shared status, at clock reading `now`. Only the
   * version and the hotkey flag are never touched.
   */
  function Process(st: DaemonStatus, startTime: nat, now: nat, request: Request): (p: Processed)
    ensures p.status.version == st.version && p.status.hotkeyRegistered == st.hotkeyRegistered
    ensures request.Ping? ==> p == Processed(st, Pong)
    ensures request.GetStatus? ==>
      && p.status == st.(uptimeSecs := UptimeSecs(startTime, now))
      && p.response == Status(p.status)
    ensures request.SetMode? ==>
      && p.status == st.(mode := request.mode)
      && p.response == ModeChange(request.mode, IsActive(request.mode))
  {
    match request
    case Ping => Processed(st, Pong)
    case GetStatus =>
      var updated := st.(uptimeSecs := UptimeSecs(startTime, now));
      Processed(updated, Status(updated))
    case SetMode(mode) => Processed(st.(mode := mode), ModeChange(mode, mode != Idle))
  }

  /** The shared `ServerState`. */
  class ServerState {
    var status: DaemonStatus
    const startTime: nat

    /** The state `Server::new` creates at clock reading `now`. */
    constructor (version: string, now: nat)
      ensures status == DefaultStatus(version) && startTime == now
    {
      status := DefaultStatus(version);
      startTime := now;
    }

    /** `process_request`, with the write lock held, at clock reading `now`. */
    method ProcessRequest(request: Request, now: nat) returns (response: Response)
      modifies this
      ensures Processed(status, response) == Process(old(status), startTime, now, request)
    {
      match request
      case Ping =>
        response := Pong;
      case GetStatus =>
        status := status.(uptimeSecs := UptimeSecs(startTime, now));
        response := Status(status);
      case SetMode(mode) =>
        status := status.(mode := mode);
        response := ModeChange(mode, mode != Idle);
    }
  }

  // ---------------------------------------------------------------------------
  // One connection

  /** How a connection ends. The first two end `handle_client` with `Ok`, the others with an error. */
  datatype Ending = PeerClosed | FrameTooLarge(len: nat) | BodyTruncated(len: nat) | Unparseable

  predicate IsError(e: Ending) {
    e.BodyTruncated? || e.Unparseable?
  }

  /** The status a connection leaves behind, its responses in order, and how it ended. */
  datatype Session = Session(status: DaemonStatus, responses: seq<Response>, ending: Ending)

  /**
   * The connection loop as a function: frame after frame, each parsed
   * request is processed and answered before the next header is read.
   */
  function Serve(st: DaemonStatus, startTime: nat, input: seq<byte>,
                 parse: seq<byte> -> Option<Request>, clock: nat -> nat, k: nat): (s: Session)
    ensures 4 * |s.responses| <= |input|
    decreases |input|
  {
    match ReadFrame(input)
    case EndOfStream => Session(st, [], PeerClosed)
    case Oversized(len) => Session(st, [], FrameTooLarge(len))
    case Truncated(len) => Session(st, [], BodyTruncated(len))
    case Frame(body, rest) =>
      match parse(body)
      case None => Session(st, [], Unparseable)
      case Some(request) =>
        var p := Process(st, startTime, clock(k), request);
        var s := Serve(p.status, startTime, rest, parse, clock, k + 1);
        Session(s.status, [p.response] + s.responses, s.ending)
  }

  /** A response on the wire: its length as `u32` (the cast keeps the low 32 bits), then its bytes. */
  function ResponseFrame(bytes: seq<byte>): (frame: seq<byte>)
    ensures |frame| == 4 + |bytes| && frame[4..] == bytes
    ensures |bytes| < U32_LIMIT ==> ReadLength(frame) == |bytes|
  {
    LengthRoundTrip(|bytes| % U32_LIMIT);
    EncodeLength(|bytes| % U32_LIMIT) + bytes
  }

  /** The length a frame's header declares. */
  function ReadLength(frame: seq<byte>): nat
    requires |frame| >= 4
  {
    DecodeLength(frame[..4])
  }

  /** Everything written for `responses`, in order. */
  function Frames(encode: Response -> seq<byte>, responses: seq<Response>): seq<byte>
    decreases |responses|
  {
    if responses == [] then [] else ResponseFrame(encode(responses[0])) + Frames(encode, responses[1..])
  }

  lemma {:induction false} FramesSnoc(encode: Response -> seq<byte>, responses: seq<Response>, r: Response)
    ensures Frames(encode, responses + [r]) == Frames(encode, responses) + ResponseFrame(encode(r))
    decreases |responses|
  {
    if responses == [] {
      assert [r][1..] == [];
    } else {
      assert (responses + [r])[1..] == responses[1..] + [r];
      FramesSnoc(encode, responses[1..], r);
    }
  }

  /** `ReadFrame` on the input left at position `pos`, in terms of the whole input. */
  lemma ReadFrameAt(input: seq<byte>, pos: nat)
    requires pos <= |input|
    ensures ReadFrame(input[pos..]) ==
      if |input| - pos < 4 then EndOfStream
      else
        var len := DecodeLength(input[pos..pos + 4]);
        if !LengthAccepted(len) then Oversized(len)
        else if |input| - pos - 4 < len then Truncated(len)
        else Frame(input[pos + 4..pos + 4 + len], input[pos + 4 + len..])
  {
    var remaining := input[pos..];
    if |remaining| >= 4 {
      assert remaining[..4] == input[pos..pos + 4];
      var len := DecodeLength(input[pos..pos + 4]);
      if LengthAccepted(len) && |input| - pos - 4 >= len {
        assert remaining[4..4 + len] == input[pos + 4..pos + 4 + len];
        assert remaining[4 + len..] == input[pos + 4 + len..];
      }
    }
  }

  /** One turn of the connection loop at position `pos`, in terms of the whole input. */
  lemma ServeAt(st: DaemonStatus, startTime: nat, input: seq<byte>, pos: nat, len: nat, request: Request,
                parse: seq<byte> -> Option<Request>, clock: nat -> nat, k: nat,
                response: Response, after: DaemonStatus, next: nat)
    requires pos + 4 <= |input| && len == DecodeLength(input[pos..pos + 4])
    requires LengthAccepted(len) && pos + 4 + len <= |input|
    requires parse(input[pos + 4..pos + 4 + len]) == Some(request)
    requires Process(st, startTime, clock(k), request) == Processed(after, response)
    requires next == pos + 4 + len
    ensures var s := Serve(after, startTime, input[next..], parse, clock, k + 1);
      Serve(st, startTime, input[pos..], parse, clock, k) == Session(s.status, [response] + s.responses, s.ending)
  {
    ReadFrameAt(input, pos);
    assert ReadFrame(input[pos..]) == Frame(input[pos + 4..pos + 4 + len], input[next..]);
  }

  /** What one turn of the connection loop did: answer a request, or end the connection. */
  datatype Turn = Answered(response: Response, frame: seq<byte>, next: nat) | Ended(result: Result<(), Ending>)

  /**
   * `handle_client`: read a header, refuse an oversized frame, read the body,
   * parse, process, write the framed response, and repeat. Returns the
   * handler's result and every byte written.
   */
  method HandleClient(state: ServerState, input: seq<byte>, parse: seq<byte> -> Option<Request>,
                      encode: Response -> seq<byte>, clock: nat -> nat)
    returns (result: Result<(), Ending>, output: seq<byte>)
    modifies state
    ensures var s := Serve(old(state.status), state.startTime, input, parse, clock, 0);
      && state.status == s.status
      && output == Frames(encode, s.responses)
      && (if IsError(s.ending) then result == Err(s.ending) else result == Ok(()))
  {
    var start := state.startTime;
    ghost var whole := Serve(state.status, start, input, parse, clock, 0);
    ghost var answered: seq<Response> := [];
    var pos: nat, k: nat := 0, 0;
    output := [];
    while true
      invariant output == Frames(encode, answered)
      invariant Pending(whole, answered, state.status, start, input, pos, parse, clock, k)
      decreases |input| - pos
    {
      var turn := Exchange(state, start, input, pos, k, parse, encode, clock, whole, answered);
      if turn.Ended? {
        return turn.result, output;
      }
      FramesSnoc(encode, answered, turn.response);
      output := output + turn.frame;
      answered := answered + [turn.response];
      pos, k := turn.next, k + 1;
    }
  }

  /**
   * One turn of `handle_client`'s loop at position `pos` of the input, for the
   * `k`-th request: the response, the frame written for it and where the next
   * header starts, or how the connection ends.
   */
  method Exchange(state: ServerState, start: nat, input: seq<byte>, pos: nat, k: nat,
                  parse: seq<byte> -> Option<Request>, encode: Response -> seq<byte>, clock: nat -> nat,
                  ghost whole: Session, ghost answered: seq<Response>)
    returns (turn: Turn)
    requires state.startTime == start
    requires Pending(whole, answered, state.status, start, input, pos, parse, clock, k)
    modifies state
    ensures turn.Ended? ==>
      && whole.status == state.status && whole.responses == answered
      && (if IsError(whole.ending) then turn.result == Err(whole.ending) else turn.result == Ok(()))
    ensures turn.Answered? ==>
      && pos < turn.next
      && turn.frame == ResponseFrame(encode(turn.response))
      && Pending(whole, answered + [turn.response], state.status, start, input, turn.next, parse, clock, k + 1)
  {
    Halt(whole, answered, state.status, start, input, pos, parse, clock, k);
    if |input| - pos < 4 {
      // EOF at a frame boundary: the client disconnected
      return Ended(Ok(()));
    }
    var len := DecodeLength(input[pos..pos + 4]);
    if len > MAX_MESSAGE_LEN {
      // message too large: disconnect without a response
      return Ended(Ok(()));
    }
    if |input| - pos - 4 < len {
      return Ended(Err(BodyTruncated(len)));
    }
    var request := parse(input[pos + 4..pos + 4 + len]);
    if request.None? {
      HaltUnparseable(whole, answered, state.status, start, input, pos, len, parse, clock, k);
      return Ended(Err(Unparseable));
    }
    ghost var before := state.status;
    var response := state.ProcessRequest(request.value, clock(k));
    var bytes := encode(response);
    turn := Answered(response, ResponseFrame(bytes), pos + 4 + len);
    Advance(whole, answered, before, start, input, pos, len, request.value, parse, clock, k,
            response, state.status, turn.next);
  }

  /**
   * The connection loop's invariant: the session over the whole input is
   * `answered` followed by the session over what is left from `pos`.
   */
  ghost predicate Pending(whole: Session, answered: seq<Response>, st: DaemonStatus, startTime: nat,
                          input: seq<byte>, pos: nat, parse: seq<byte> -> Option<Request>, clock: nat -> nat, k: nat)
  {
    pos <= |input| &&
    var s := Serve(st, startTime, input[pos..], parse, clock, k);
    whole == Session(s.status, answered + s.responses, s.ending)
  }

  /** The loop invariant carried over one answered request. */
  lemma Advance(whole: Session, answered: seq<Response>, st: DaemonStatus, startTime: nat, input: seq<byte>,
                pos: nat, len: nat, request: Request, parse: seq<byte> -> Option<Request>, clock: nat -> nat, k: nat,
                response: Response, after: DaemonStatus, next: nat)
    requires pos + 4 <= |input| && len == DecodeLength(input[pos..pos + 4])
    requires LengthAccepted(len) && pos + 4 + len <= |input|
    requires parse(input[pos + 4..pos + 4 + len]) == Some(request)
    requires Pending(whole, answered, st, startTime, input, pos, parse, clock, k)
    requires Process(st, startTime, clock(k), request) == Processed(after, response)
    requires next == pos + 4 + len
    ensures Pending(whole, answered + [response], after, startTime, input, next, parse, clock, k + 1)
  {
    ServeAt(st, startTime, input, pos, len, request, parse, clock, k, response, after, next);
    var s := Serve(after, startTime, input[next..], parse, clock, k + 1);
    assert answered + ([response] + s.responses) == (answered + [response]) + s.responses;
    assert whole == Session(s.status, (answered + [response]) + s.responses, s.ending);
  }

  /** Where the connection loop stops, the session over the whole input ends with `answered`. */
  lemma Halt(whole: Session, answered: seq<Response>, st: DaemonStatus, startTime: nat, input: seq<byte>,
             pos: nat, parse: seq<byte> -> Option<Request>, clock: nat -> nat, k: nat)
    requires Pending(whole, answered, st, startTime, input, pos, parse, clock, k)
    ensures |input| - pos < 4 ==> whole == Session(st, answered, PeerClosed)
    ensures |input| - pos >= 4 && !LengthAccepted(DecodeLength(input[pos..pos + 4])) ==>
      whole == Session(st, answered, FrameTooLarge(DecodeLength(input[pos..pos + 4])))
    ensures (|input| - pos >= 4 && LengthAccepted(DecodeLength(input[pos..pos + 4]))
             && |input| - pos - 4 < DecodeLength(input[pos..pos + 4])) ==>
      whole == Session(st, answered, BodyTruncated(DecodeLength(input[pos..pos + 4])))
  {
    ReadFrameAt(input, pos);
    assert answered + [] == answered;
  }

  /** Where a frame's body does not parse, the session over the whole input ends with `answered`. */
  lemma HaltUnparseable(whole: Session, answered: seq<Response>, st: DaemonStatus, startTime: nat, input: seq<byte>,
                        pos: nat, len: nat, parse: seq<byte> -> Option<Request>, clock: nat -> nat, k: nat)
    requires pos + 4 <= |input| && len == DecodeLength(input[pos..pos + 4])
    requires LengthAccepted(len) && pos + 4 + len <= |input|
    requires parse(input[pos + 4..pos + 4 + len]).None?
    requires Pending(whole, answered, st, startTime, input, pos, parse, clock, k)
    ensures whole == Session(st, answered, Unparseable)
  {
    ReadFrameAt(input, pos);
    assert answered + [] == answered;
  }

  // ---------------------------------------------------------------------------
  // What a well-behaved client gets

  /** The bytes a client sends for `bodies`, each framed with its length. */
  function RequestFrames(bodies: seq<seq<byte>>): (input: seq<byte>)
    requires forall i :: 0 <= i < |bodies| ==> LengthAccepted(|bodies[i]|)
    decreases |bodies|
  {
    if bodies == [] then []
    else
      assert LengthAccepted(|bodies[0]|);
      EncodeLength(|bodies[0]|) + bodies[0] + RequestFrames(bodies[1..])
  }

  /** Processing `requests` one after the other from status `st`. */
  function ProcessAll(st: DaemonStatus, startTime: nat, requests: seq<Request>, clock: nat -> nat, k: nat)
    : (s: Session)
    ensures |s.responses| == |requests|
    decreases |requests|
  {
    if requests == [] then Session(st, [], PeerClosed)
    else
      var p := Process(st, startTime, clock(k), requests[0]);
      var s := ProcessAll(p.status, startTime, requests[1..], clock, k + 1);
      Session(s.status, [p.response] + s.responses, PeerClosed)
  }

  /**
   * A client that sends well-formed frames of at most 1 MiB, each holding a
   * valid request, and then closes, gets exactly one response per request,
   * in order, and the connection ends without error.
   */
  lemma {:induction false} OneResponsePerRequest(
    st: DaemonStatus, startTime: nat, bodies: seq<seq<byte>>, requests: seq<Request>,
    parse: seq<byte> -> Option<Request>, clock: nat -> nat, k: nat)
    requires |bodies| == |requests|
    requires forall i :: 0 <= i < |bodies| ==> LengthAccepted(|bodies[i]|)
    requires forall i :: 0 <= i < |bodies| ==> parse(bodies[i]) == Some(requests[i])
    ensures Serve(st, startTime, RequestFrames(bodies), parse, clock, k) ==
      ProcessAll(st, startTime, requests, clock, k)
    decreases |bodies|
  {
    if bodies != [] {
      FrameRoundTrip(bodies[0], RequestFrames(bodies[1..]));
      var p := Process(st, startTime, clock(k), requests[0]);
      OneResponsePerRequest(p.status, startTime, bodies[1..], requests[1..], parse, clock, k + 1);
    }
  }

  /** A header declaring more than 1 MiB ends the connection at once, silently and without error. */
  lemma OversizedFrameGetsNoResponse(
    st: DaemonStatus, startTime: nat, input: seq<byte>, parse: seq<byte> -> Option<Request>,
    clock: nat -> nat, k: nat)
    requires |input| >= 4 && !LengthAccepted(DecodeLength(input[..4]))
    ensures var s := Serve(st, startTime, input, parse, clock, k);
      s.status == st && s.responses == [] && !IsError(s.ending)
  {
  }

  /** Fewer than four bytes at a frame boundary: the client closed; no response and no error. */
  lemma EndOfStreamClosesCleanly(st: DaemonStatus, startTime: nat, input: seq<byte>,
                                 parse: seq<byte> -> Option<Request>, clock: nat -> nat, k: nat)
    requires |input| < 4
    ensures var s := Serve(st, startTime, input, parse, clock, k);
      s == Session(st, [], PeerClosed) && !IsError(s.ending)
  {
  }

  /** A complete frame whose body does not parse ends the connection with an error and no response. */
  lemma UnparseableFrameFails(st: DaemonStatus, startTime: nat, body: seq<byte>, rest: seq<byte>,
                              parse: seq<byte> -> Option<Request>, clock: nat -> nat, k: nat)
    requires LengthAccepted(|body|) && parse(body).None?
    ensures var s := Serve(st, startTime, EncodeLength(|body|) + body + rest, parse, clock, k);
      s == Session(st, [], Unparseable) && IsError(s.ending)
  {
    FrameRoundTrip(body, rest);
  }

  /** A frame declaring 2,000,000 bytes gets no response. */
  lemma TwoMillionByteFrameDisconnects(st: DaemonStatus, startTime: nat, rest: seq<byte>,
                                        parse: seq<byte> -> Option<Request>, clock: nat -> nat)
    ensures Serve(st, startTime, EncodeLength(2_000_000) + rest, parse, clock, 0) ==
      Session(st, [], FrameTooLarge(2_000_000))
  {
    LengthRoundTrip(2_000_000);
    assert (EncodeLength(2_000_000) + rest)[..4] == EncodeLength(2_000_000);
  }
}
