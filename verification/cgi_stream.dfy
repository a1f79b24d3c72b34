/**
 * One CGI response from the script's pipe to the client's socket: pipe reads, re-framing as
 * chunks and partial sends in any order.
 */
module CgiStream {
  import opened Wrappers
  import opened Text
  import opened Numerals
  import opened BodyStore
  import opened ParserModel
  import opened Fragmentation
  import opened ResponseModel
  import opened ChunkCodec

  /**
   * The CGI object, the response and the write side of the client. `head` and `pieces` log
   * what was handed to the chunk machine's buffer, `produced` whether it was terminated.
   */
  datatype Delivery = Delivery(
    live: bool,           // the CGI object exists
    exited: bool,         // client state CGI_COMPLETED, as opposed to CGI_JUST_STARTED
    succeeded: bool,      // exit status 0
    pipe: string,         // bytes read from the pipe and not yet framed
    reply: Reply,
    writeBuffer: string,
    sent: string,         // bytes the socket took
    reset: bool,          // resetClientState was called
    head: string,
    pieces: seq<string>)

  /** What the clock, the error page and the session store contribute to a visit. */
  datatype Outside = Outside(date: string, page: PageSource, cookie: Option<string>)

  datatype Event =
    | PipeRead(bytes: string)
    | Hangup(succeeded: bool)                  // POLLHUP of a script that ended
    | Writable(accepted: int, o: Outside)      // POLLOUT of the client; a negative count is a failed send

  // ------------------------------------------------------------------- steps

  /** The logs after the chunk machine was opened as `s` and streamed what `s` holds. */
  function Log(d: Delivery, s: CgiStep): Delivery {
    d.(head := if d.reply.chunkState.ParseHeaders? && |d.reply.outBuffer| <= |s.reply.outBuffer|
               then s.reply.outBuffer[|d.reply.outBuffer|..] else d.head,
       pieces := if s.reply.chunkState.StreamBody? && s.buffer != "" then d.pieces + [s.buffer] else d.pieces)
  }

  /** `appendOutputToResponse`. */
  function FrameMiddle(d: Delivery, date: string): Delivery {
    match Open(d.reply, d.pipe, date)
    case None => d
    case Some(s) =>
      var framed := AppendMiddle(d.reply, d.pipe, date);
      Log(d, s).(reply := framed.reply, pipe := framed.buffer)
  }

  /** `applyAuthFromResponse`, if the session store answers with a cookie. */
  function WithCookie(r: Reply, cookie: Option<string>): Reply {
    if cookie.Some? then AddHeader(r, "Set-Cookie", cookie.value) else r
  }

  /** `appendFinalOutputToResponse`. */
  function FrameFinal(d: Delivery, date: string): Delivery {
    var framed := AppendFinal(d.reply, d.pipe, date);
    Log(d, OpenFinal(d.reply, d.pipe, date)).(reply := framed.reply, pipe := framed.buffer)
  }

  /** `handleCgiIO` for a script that ended well. */
  function FrameRest(d: Delivery, o: Outside): Delivery {
    var m := FrameMiddle(d, o.date);
    FrameFinal(m.(reply := WithCookie(m.reply, o.cookie)), o.date).(live := false)
  }

  /** `handleCgiIO`. */
  function CgiIo(d: Delivery, o: Outside): Delivery {
    if !d.live then d
    else if !d.exited then FrameMiddle(d, o.date)
    else if !d.succeeded then d.(reply := BuildErrorResponse(d.reply, HTTP_SERVER_ERR, o.page, o.date), live := false)
    else FrameRest(d, o)
  }

  /** `prepareWriteBuffer`. */
  function Prepare(d: Delivery): Delivery {
    var w := if d.writeBuffer == "" && !d.reply.isChunked then ResponseText(d.reply) else d.writeBuffer;
    if d.reply.isChunked then d.(writeBuffer := w + d.reply.outBuffer, reply := d.reply.(outBuffer := ""))
    else d.(writeBuffer := w)
  }

  /** `sendToClientSocket` and `finalizeChunkedWrite`. */
  function Send(d: Delivery, accepted: nat): Delivery {
    var n := if accepted < |d.writeBuffer| then accepted else |d.writeBuffer|;
    var q := d.(sent := d.sent + d.writeBuffer[..n], writeBuffer := d.writeBuffer[n..]);
    if q.writeBuffer == "" && q.reply.isChunked && q.reply.chunkState.ChunkFinished?
    then q.(reply := q.reply.(isChunked := false)) else q
  }

  /** `handleResponse`. */
  function HandleResponse(d: Delivery, accepted: int): Delivery {
    var p := Prepare(d);
    if p.writeBuffer == "" || accepted < 0 then p
    else
      var q := Send(p, accepted);
      if q.writeBuffer == "" && !q.reply.isChunked then q.(reset := true) else q
  }

  /** After the reset nothing belongs to this response any more. */
  function Step(d: Delivery, e: Event): Delivery {
    if d.reset then d
    else
      match e
      case PipeRead(bytes) => if d.live then d.(pipe := d.pipe + bytes) else d
      case Hangup(ok) => if d.live && !d.exited then d.(exited := true, succeeded := ok) else d
      case Writable(n, o) => HandleResponse(CgiIo(d, o), n)
  }

  function Run(d: Delivery, events: seq<Event>): Delivery
    decreases |events|
  {
    if events == [] then d else Run(Step(d, events[0]), events[1..])
  }

  /** A client right after `launchCgi`. */
  predicate Launched(d: Delivery) {
    d.live && !d.exited && d.pipe == "" && d.writeBuffer == "" && d.sent == "" && !d.reset
    && d.head == "" && d.pieces == []
    && d.reply.statusCode == "" && !d.reply.isChunked && !d.reply.headersParsed
    && d.reply.chunkState.ParseHeaders? && d.reply.outBuffer == ""
  }

  /** All bytes the pipe delivers to a live script in this run. */
  function Output(d: Delivery, events: seq<Event>): string
    decreases |events|
  {
    if events == [] then ""
    else
      (if events[0].PipeRead? && d.live && !d.reset then events[0].bytes else "")
        + Output(Step(d, events[0]), events[1..])
  }

  // --------------------------------------------------------------- invariant

  /** Everything framed so far, as it has to travel. */
  function Framed(d: Delivery): string {
    d.head + Encode(d.pieces) + if d.reply.chunkState.ChunkFinished? then TERMINATOR else ""
  }

  /** Before the head: nothing was framed, and the pipe holds all output. */
  predicate Waiting(d: Delivery, output: string) {
    d.reply.chunkState.ParseHeaders? && !d.reply.isChunked && !d.reply.headersParsed
    && d.reply.statusCode == "" && d.reply.outBuffer == ""
    && d.writeBuffer == "" && d.sent == "" && d.head == "" && d.pieces == []
    && d.pipe == output && !d.reset && d.live
  }

  predicate AllPieces(pieces: seq<string>) {
    forall i | 0 <= i < |pieces| :: pieces[i] != ""
  }

  /** From the head on: conservation of the framed bytes and of the script's output behind `cut`. */
  predicate Streaming(d: Delivery, output: string, cut: nat) {
    && !d.reply.chunkState.ParseHeaders?
    && d.sent + d.writeBuffer + d.reply.outBuffer == Framed(d)
    && AllPieces(d.pieces)
    && cut <= |output| && Concat(d.pieces) + d.pipe == output[cut..]
    && (d.reply.chunkState.ChunkFinished? ==> d.pipe == "" && !d.live && d.succeeded)
    && (d.reply.chunkState.StreamBody? ==> d.reply.isChunked && !d.reset)
    && (d.reset <==> d.reply.chunkState.ChunkFinished? && !d.reply.isChunked)
    && (d.reset ==> d.writeBuffer == "" && d.reply.outBuffer == "")
  }

  /** A terminated response that is not out has bytes to send. */
  predicate Pending(d: Delivery) {
    !d.reset && d.reply.chunkState.ChunkFinished? ==> d.writeBuffer != "" || d.reply.outBuffer != ""
  }

  /** The script failed before its head went out: a plain error response instead. */
  predicate Refused(d: Delivery) {
    && !d.live && d.exited && !d.succeeded && d.reply.chunkState.ParseHeaders? && !d.reply.isChunked
    && d.reply.outBuffer == "" && ResponseText(d.reply) != ""
    && d.sent + d.writeBuffer == (if d.sent == "" && d.writeBuffer == "" then "" else ResponseText(d.reply))
    && (d.reset ==> d.sent == ResponseText(d.reply)) && (d.writeBuffer == "" && !d.reset ==> d.sent == "")
  }

  // ------------------------------------------------------------ framing steps

  lemma {:induction false} EncodeAppend(pieces: seq<string>, piece: string)
    ensures Encode(pieces + [piece]) == Encode(pieces) + EncodePiece(piece)
    ensures Concat(pieces + [piece]) == Concat(pieces) + piece
  {
    if pieces == [] {
      assert [piece][1..] == [];
      assert EncodePiece(piece) + "" == EncodePiece(piece) && piece + "" == piece;
      assert "" + EncodePiece(piece) == EncodePiece(piece);
    } else {
      EncodeAppend(pieces[1..], piece);
      assert (pieces + [piece])[1..] == pieces[1..] + [piece];
      Assoc(EncodePiece(pieces[0]), Encode(pieces[1..]), EncodePiece(piece));
      Assoc(pieces[0], Concat(pieces[1..]), piece);
    }
  }

  /** One more piece moves from the pipe's buffer into the framed bytes. */
  lemma PieceKeeps(d: Delivery, output: string, cut: nat)
    requires Streaming(d, output, cut) && d.reply.chunkState.StreamBody? && d.pipe != ""
    ensures Streaming(d.(reply := d.reply.(outBuffer := d.reply.outBuffer + EncodePiece(d.pipe)), pipe := "",
                         pieces := d.pieces + [d.pipe]), output, cut)
  {
    EncodeAppend(d.pieces, d.pipe);
    var e := EncodePiece(d.pipe);
    Assoc(d.sent + d.writeBuffer, d.reply.outBuffer, e);
    Assoc(d.head, Encode(d.pieces), e);
    assert Concat(d.pieces) + d.pipe + "" == Concat(d.pieces) + d.pipe;
    assert d.head + Encode(d.pieces) + "" == d.head + Encode(d.pieces);
    assert d.head + Encode(d.pieces + [d.pipe]) + "" == d.head + Encode(d.pieces + [d.pipe]);
  }

  lemma FrameMiddleKeeps(d: Delivery, date: string, output: string, cut: nat)
    requires Streaming(d, output, cut) && d.reply.chunkState.StreamBody?
    ensures var q := FrameMiddle(d, date);
            Streaming(q, output, cut) && q.reply.chunkState.StreamBody? && q.pipe == ""
            && q == d.(reply := q.reply, pipe := q.pipe, pieces := q.pieces)
  {
    if d.pipe != "" {
      PieceKeeps(d, output, cut);
    }
  }

  /** The head that starts the stream, and nothing else, is in the out-buffer. */
  lemma StartStreamIs(r: Reply, date: string)
    requires r.chunkState.ParseHeaders? && !r.isChunked && r.outBuffer == ""
    ensures var q := StartStream(r, date);
            q.chunkState.StreamBody? && q.isChunked && q.outBuffer == ResponseText(InitChunked(r, date))
  {
    var text := ResponseText(InitChunked(r, date));
    assert "" + text == text;
  }

  /** The state in which the head is out and no piece yet. */
  lemma HeadIsOut(d: Delivery, output: string, cut: nat, s: CgiStep)
    requires Waiting(d, output) && cut <= |output| && s.buffer == output[cut..]
    requires s.reply.chunkState.StreamBody? && s.reply.isChunked
    ensures Streaming(d.(reply := s.reply, pipe := s.buffer, head := s.reply.outBuffer), output, cut)
  {
    assert "" + "" + s.reply.outBuffer == s.reply.outBuffer + "" + "";
    assert "" + s.buffer == s.buffer;
  }

  lemma OpenedAt(d: Delivery, date: string, output: string, cut: nat, r: Reply)
    requires Waiting(d, output) && cut <= |output|
    requires r.chunkState.ParseHeaders? && !r.isChunked && r.outBuffer == ""
    requires Open(d.reply, d.pipe, date) == Some(CgiStep(StartStream(r, date), output[cut..]))
    ensures var q := FrameMiddle(d, date);
            Streaming(q, output, cut) && q.reply.chunkState.StreamBody? && q.pipe == ""
            && q == d.(reply := q.reply, pipe := q.pipe, pieces := q.pieces, head := q.head)
            && q.head == ResponseText(InitChunked(r, date))
  {
    StartStreamIs(r, date);
    var s := CgiStep(StartStream(r, date), output[cut..]);
    HeadIsOut(d, output, cut, s);
    var atHead := d.(reply := s.reply, pipe := s.buffer, head := s.reply.outBuffer);
    assert s.reply.outBuffer[0..] == s.reply.outBuffer;
    assert FrameMiddle(d, date) == FrameMiddle(atHead, date);
    FrameMiddleKeeps(atHead, date, output, cut);
  }

  lemma WithCgiHeadKeeps(r: Reply, h: CgiHead)
    ensures var q := WithCgiHead(r, h);
            q.chunkState == r.chunkState && q.isChunked == r.isChunked && q.outBuffer == r.outBuffer
  {
  }

  lemma OpenIs(r: Reply, buffer: string, date: string) returns (h: CgiHead)
    requires r.chunkState.ParseHeaders? && Separator(buffer).Some?
    ensures var sep := Separator(buffer).value;
            Open(r, buffer, date) == Some(CgiStep(StartStream(WithCgiHead(r, h), date), buffer[sep.0 + sep.1..]))
  {
    h := ReadCgiLines(CgiHead(r.headers, None, false), GetLines(buffer[..Separator(buffer).value.0]));
  }

  /** The reply whose text is the head: of the script's header block, or the default one. */
  function HeadReply(r: Reply, output: string, o: Outside): Reply {
    InitChunked(match Separator(output)
                case Some(sep) => TakeCgiHead(r, output[..sep.0])
                case None => BuildResponse(WithCookie(r, o.cookie), HTTP_OK, "", o.date),
                o.date)
  }

  /** The first complete header block opens the stream right behind its separator. */
  lemma FrameMiddleOpens(d: Delivery, o: Outside, output: string)
    requires Waiting(d, output) && Separator(output).Some?
    ensures var sep := Separator(output).value; var q := FrameMiddle(d, o.date);
            Streaming(q, output, sep.0 + sep.1)
            && q.reply.chunkState.StreamBody? && q.pipe == ""
            && q == d.(reply := q.reply, pipe := q.pipe, pieces := q.pieces, head := q.head)
            && q.head == ResponseText(HeadReply(d.reply, output, o))
  {
    var sep := Separator(output).value;
    var h := OpenIs(d.reply, output, o.date);
    WithCgiHeadKeeps(d.reply, h);
    OpenedAt(d, o.date, output, sep.0 + sep.1, WithCgiHead(d.reply, h));
  }

  lemma TerminateKeeps(d: Delivery, output: string, cut: nat)
    requires Streaming(d, output, cut) && d.reply.chunkState.StreamBody? && d.pipe == "" && d.succeeded
    ensures Streaming(d.(reply := Terminate(d.reply), live := false), output, cut) && Terminate(d.reply).outBuffer != ""
  {
    assert |Terminate(d.reply).outBuffer| >= |TERMINATOR|;
    Assoc(d.sent + d.writeBuffer, d.reply.outBuffer, TERMINATOR);
    assert d.head + Encode(d.pieces) + "" == d.head + Encode(d.pieces);
  }

  /** The last call, on a stream that is open. */
  lemma FrameFinalKeeps(d: Delivery, date: string, output: string, cut: nat)
    requires Streaming(d, output, cut) && d.reply.chunkState.StreamBody? && d.succeeded
    ensures var q := FrameFinal(d, date).(live := false);
            Streaming(q, output, cut) && q.reply.chunkState.ChunkFinished? && q.reply.isChunked && !q.reset
            && q.exited == d.exited && q.succeeded && q.head == d.head && Pending(q)
  {
    FrameMiddleKeeps(d, date, output, cut);
    var m := FrameMiddle(d, date);
    TerminateKeeps(m, output, cut);
    assert FrameFinal(d, date).(live := false) == m.(reply := Terminate(m.reply), live := false);
  }

  /** A cookie behind the head changes nothing that is sent. */
  lemma CookieKeeps(d: Delivery, cookie: Option<string>, output: string, cut: nat)
    requires Streaming(d, output, cut)
    ensures Streaming(d.(reply := WithCookie(d.reply, cookie)), output, cut)
    ensures WithCookie(d.reply, cookie).chunkState == d.reply.chunkState
  {
  }

  /** The two last calls, on a stream that is open. */
  lemma FrameRestKeeps(d: Delivery, o: Outside, output: string, cut: nat)
    requires Streaming(d, output, cut) && d.reply.chunkState.StreamBody? && d.succeeded
    ensures var q := FrameRest(d, o);
            Streaming(q, output, cut) && q.reply.chunkState.ChunkFinished? && q.reply.isChunked && !q.reset
            && !q.live && q.exited == d.exited && q.succeeded && q.head == d.head && Pending(q)
  {
    FrameMiddleKeeps(d, o.date, output, cut);
    var m := FrameMiddle(d, o.date);
    CookieKeeps(m, o.cookie, output, cut);
    FrameFinalKeeps(m.(reply := WithCookie(m.reply, o.cookie)), o.date, output, cut);
  }

  /** The last call, without any header block: a plain head, and all output is payload. */
  lemma FrameFinalOpens(d: Delivery, date: string, output: string)
    requires Waiting(d, output) && d.succeeded
    ensures var q := FrameFinal(d, date).(live := false);
            Streaming(q, output, 0) && q.reply.chunkState.ChunkFinished? && q.reply.isChunked && !q.reset
            && q.exited == d.exited && q.succeeded
            && q.head == ResponseText(InitChunked(BuildResponse(d.reply, HTTP_OK, "", date), date)) && Pending(q)
  {
    var r := BuildResponse(d.reply, HTTP_OK, "", date);
    StartStreamIs(r, date);
    var s := CgiStep(StartStream(r, date), output);
    assert output[0..] == output;
    HeadIsOut(d, output, 0, s);
    var atHead := d.(reply := s.reply, pipe := s.buffer, head := s.reply.outBuffer);
    assert s.reply.outBuffer[0..] == s.reply.outBuffer;
    assert FrameFinal(d, date) == FrameFinal(atHead, date);
    FrameFinalKeeps(atHead, date, output, 0);
  }

  /** The two last calls on a script whose head was not out: a head, all the rest, and the end. */
  lemma FrameRestOpens(d: Delivery, o: Outside, output: string)
    requires Waiting(d, output) && d.succeeded
    ensures var q := FrameRest(d, o);
            Streaming(q, output, CutOf(output)) && q.reply.chunkState.ChunkFinished? && q.reply.isChunked && !q.reset
            && !q.live && q.exited == d.exited && q.succeeded
            && q.head == ResponseText(HeadReply(d.reply, output, o)) && Pending(q)
  {
    var m := FrameMiddle(d, o.date);
    if Separator(output).Some? {
      FrameMiddleOpens(d, o, output);
      CookieKeeps(m, o.cookie, output, CutOf(output));
      FrameFinalKeeps(m.(reply := WithCookie(m.reply, o.cookie)), o.date, output, CutOf(output));
    } else {
      assert m == d;
      FrameFinalOpens(d.(reply := WithCookie(d.reply, o.cookie)), o.date, output);
    }
  }

  // -------------------------------------------------------------- write side

  /** The bytes move from buffer to buffer to the socket, in order. */
  lemma HandleResponseKeeps(d: Delivery, accepted: int, output: string, cut: nat)
    requires Streaming(d, output, cut) && !d.reset
    ensures var q := HandleResponse(d, accepted);
            Streaming(q, output, cut)
              && q == d.(reply := q.reply, writeBuffer := q.writeBuffer, sent := q.sent, reset := q.reset)
            && q.reply.chunkState == d.reply.chunkState && (Pending(d) ==> Pending(q))
  {
    var p := Prepare(d);
    PrepareKeeps(d, output, cut);
    if p.writeBuffer != "" && accepted >= 0 {
      SendKeeps(p, accepted, output, cut);
    }
  }

  lemma PrepareKeeps(d: Delivery, output: string, cut: nat)
    requires Streaming(d, output, cut) && !d.reset
    ensures var p := Prepare(d);
            Streaming(p, output, cut) && !p.reset && p.reply.outBuffer == "" && p.reply.isChunked
            && p == d.(reply := p.reply, writeBuffer := p.writeBuffer) && p.reply.chunkState == d.reply.chunkState
            && (p.writeBuffer == "" <==> d.writeBuffer == "" && d.reply.outBuffer == "")
  {
    Assoc(d.sent, d.writeBuffer, d.reply.outBuffer);
    assert d.sent + (d.writeBuffer + d.reply.outBuffer) + "" == d.sent + (d.writeBuffer + d.reply.outBuffer);
  }

  lemma SendKeeps(p: Delivery, accepted: nat, output: string, cut: nat)
    requires Streaming(p, output, cut) && !p.reset && p.reply.outBuffer == "" && p.reply.isChunked
    ensures var q := Send(p, accepted); var done := q.writeBuffer == "" && !q.reply.isChunked;
            Streaming(if done then q.(reset := true) else q, output, cut)
            && q == p.(reply := q.reply, writeBuffer := q.writeBuffer, sent := q.sent)
            && q.reply.chunkState == p.reply.chunkState
            && (accepted >= |p.writeBuffer| && p.reply.chunkState.ChunkFinished? ==> done)
  {
    var n := if accepted < |p.writeBuffer| then accepted else |p.writeBuffer|;
    assert p.writeBuffer[..n] + p.writeBuffer[n..] == p.writeBuffer;
    Assoc(p.sent, p.writeBuffer[..n], p.writeBuffer[n..]);
  }

  // ------------------------------------------------------------ whole visits

  /** Where the header block ends in the output, 0 when there is none. */
  function CutOf(output: string): nat {
    match Separator(output)
    case None => 0
    case Some(sep) => sep.0 + sep.1
  }

  lemma CutInside(output: string)
    ensures CutOf(output) <= |output|
  {
  }

  /** An error page, wherever it comes from, is a plain response with a text. */
  lemma ErrorPageIs(r: Reply, source: PageSource, date: string)
    ensures var q := BuildErrorResponse(r, HTTP_SERVER_ERR, source, date);
            q == r.(statusCode := q.statusCode, statusMsg := q.statusMsg, body := q.body, headers := q.headers)
            && q.statusCode != "" && ResponseText(q) != ""
  {
  }

  /** What one visit of the client's socket does to a script whose head was not out yet. */
  lemma WritableFromWaiting(d: Delivery, output: string, accepted: int, o: Outside)
    requires Waiting(d, output)
    ensures var q := Step(d, Writable(accepted, o));
            if d.exited && !d.succeeded
              then Refused(q) && q.reply == BuildErrorResponse(d.reply, HTTP_SERVER_ERR, o.page, o.date)
            else if !d.exited && Separator(output).None? then Waiting(q, output) && q == d
            else Streaming(q, output, CutOf(output)) && (d.exited ==> !q.live && q.reply.chunkState.ChunkFinished?)
                 && (!d.exited ==> q.live && q.reply.chunkState.StreamBody?)
                 && q.exited == d.exited && q.succeeded == d.succeeded
                 && q.head == ResponseText(HeadReply(d.reply, output, o)) && Pending(q)
  {
    CutInside(output);
    if d.exited && !d.succeeded {
      ErrorPageIs(d.reply, o.page, o.date);
      RefusedSends(CgiIo(d, o), accepted);
    } else if !d.exited && Separator(output).None? {
      assert CgiIo(d, o) == d;
      assert Prepare(d) == d;
    } else {
      if d.exited {
        FrameRestOpens(d, o, output);
      } else {
        FrameMiddleOpens(d, o, output);
      }
      HandleResponseKeeps(CgiIo(d, o), accepted, output, CutOf(output));
    }
  }

  lemma RefusedSends(d: Delivery, accepted: int)
    requires Refused(d) && !d.reset
    ensures Refused(HandleResponse(d, accepted)) && HandleResponse(d, accepted).reply == d.reply
    ensures accepted >= |ResponseText(d.reply)| ==> HandleResponse(d, accepted).reset
  {
    var text := ResponseText(d.reply);
    assert d.writeBuffer == "" ==> d.sent + text == text;
    var p := d.(writeBuffer := if d.writeBuffer == "" then text else d.writeBuffer);
    assert Prepare(d) == p;
    if accepted >= 0 {
      PlainSend(p, accepted);
    }
  }

  lemma PlainSend(p: Delivery, accepted: nat)
    requires !p.reply.isChunked && p.writeBuffer != ""
    ensures var q := Send(p, accepted);
            q.sent + q.writeBuffer == p.sent + p.writeBuffer
              && (q.writeBuffer == "" ==> q.sent == p.sent + p.writeBuffer)
            && q == p.(sent := q.sent, writeBuffer := q.writeBuffer)
  {
    var n := if accepted < |p.writeBuffer| then accepted else |p.writeBuffer|;
    assert p.writeBuffer[..n] + p.writeBuffer[n..] == p.writeBuffer;
    Assoc(p.sent, p.writeBuffer[..n], p.writeBuffer[n..]);
    assert p.sent + p.writeBuffer[..n] + "" == p.sent + p.writeBuffer[..n];
  }

  /** What one visit of the client's socket does to an open stream. */
  lemma WritableFromStreaming(d: Delivery, output: string, cut: nat, accepted: int, o: Outside)
    requires Streaming(d, output, cut) && (d.live ==> d.reply.chunkState.StreamBody?)
    ensures var q := Step(d, Writable(accepted, o));
            Streaming(q, output, cut) && (q.live ==> q.reply.chunkState.StreamBody?)
            && q.exited == d.exited && q.succeeded == d.succeeded && q.head == d.head
            && (d.live && d.exited ==> !q.live && (d.succeeded <==> q.reply.chunkState.ChunkFinished?))
            && (!d.live || (d.exited && !d.succeeded) ==> q.reply.chunkState == d.reply.chunkState)
            && (!d.live ==> !q.live) && (Pending(d) ==> Pending(q))
  {
    if !d.reset {
      if d.live && !d.exited {
        FrameMiddleKeeps(d, o.date, output, cut);
      } else if d.live && d.succeeded {
        FrameRestKeeps(d, o, output, cut);
      } else if d.live {
        assert Streaming(CgiIo(d, o), output, cut);
      }
      HandleResponseKeeps(CgiIo(d, o), accepted, output, cut);
    }
  }

  // -------------------------------------------------------------- whole runs

  /** No LF LF stands before the first CRLF CRLF, or there is no CRLF CRLF at all. */
  predicate Unambiguous(output: string) {
    match IndexOf(output, CRLF2)
    case None => true
    case Some(c) => IndexOf(output, LF2).Some? ==> IndexOf(output, LF2).value > c
  }

  lemma NoLfPairInSeparator(output: string, c: nat, q: nat)
    requires MatchesAt(output, CRLF2, c) && MatchesAt(output, LF2, q)
    ensures q < c || c + 3 <= q
  {
    assert output[c..c + 4] == CRLF2 && output[q..q + 2] == LF2;
    assert output[c] == CRLF2[0] && output[c + 1] == CRLF2[1] && output[c + 2] == CRLF2[2];
    assert output[q] == LF2[0] && output[q + 1] == LF2[1];
  }

  /** A prefix of unambiguous output splits where all of it splits. */
  lemma PrefixSplits(early: string, late: string)
    requires Unambiguous(early + late) && Separator(early).Some?
    ensures Separator(early + late) == Separator(early)
  {
    if IndexOf(early, CRLF2).Some? {
      IndexOfAppend(early, late, CRLF2, 0);
    } else {
      IndexOfAppend(early, late, LF2, 0);
      var q := IndexOf(early, LF2).value;
      if IndexOf(early + late, CRLF2).Some? {
        var c := IndexOf(early + late, CRLF2).value;
        NoLfPairInSeparator(early + late, c, q);
        FirstMatch(early, CRLF2, 0);
        FirstMatch(early + late, LF2, 0);
        assert c + 4 <= |early| ==> !MatchesAt(early, CRLF2, c);
        if c + 4 <= |early| {
          MatchesAtAppend(early, late, CRLF2, c);
        }
      }
    }
  }

  /** A state of a run that has read `output` so far and will have read `total`. */
  ghost predicate Reached(d: Delivery, output: string, total: string) {
    Waiting(d, output) || Refused(d)
    || (Streaming(d, output, CutOf(total)) && (d.live ==> d.reply.chunkState.StreamBody?))
  }

  lemma ReadKeeps(d: Delivery, bytes: string, output: string, cut: nat)
    requires Streaming(d, output, cut) && d.live && !d.reset
    ensures Streaming(Step(d, PipeRead(bytes)), output + bytes, cut)
  {
    Assoc(Concat(d.pieces), d.pipe, bytes);
    assert (output + bytes)[cut..] == output[cut..] + bytes;
  }

  /** The bytes one event adds to the output. */
  function Added(d: Delivery, e: Event): string {
    if e.PipeRead? && d.live && !d.reset then e.bytes else ""
  }

  /** The head is that of the whole output, or the page that of the failure; before that the response is as it was. */
  ghost predicate HeadKept(d: Delivery, r: Reply, total: string) {
    if !d.reply.chunkState.ParseHeaders? then exists o: Outside :: d.head == ResponseText(HeadReply(r, total, o))
    else if d.live then d.reply == r
    else exists o: Outside :: d.reply == BuildErrorResponse(r, HTTP_SERVER_ERR, o.page, o.date)
  }

  /** The head of the output so far is the head of all of it. */
  lemma HeadOfPrefix(r: Reply, early: string, late: string, o: Outside)
    requires Unambiguous(early + late) && (Separator(early).Some? || late == "")
    ensures HeadReply(r, early, o) == HeadReply(r, early + late, o) && CutOf(early) == CutOf(early + late)
  {
    if Separator(early).Some? {
      PrefixSplits(early, late);
      var sep := Separator(early).value;
      assert (early + late)[..sep.0] == early[..sep.0];
    } else {
      assert early + late == early;
    }
  }

  lemma StepReached(d: Delivery, e: Event, output: string, total: string, later: string, r: Reply)
    requires Reached(d, output, total) && Unambiguous(total) && total == output + Added(d, e) + later
    requires HeadKept(d, r, total) && (!Step(d, e).live ==> later == "")
    ensures Reached(Step(d, e), output + Added(d, e), total) && HeadKept(Step(d, e), r, total)
  {
    assert output + "" == output;
    if Waiting(d, output) {
      if e.Writable? {
        WritableFromWaiting(d, output, e.accepted, e.o);
        if Separator(output).Some? || later == "" {
          HeadOfPrefix(d.reply, output, later, e.o);
        }
      }
    } else if Refused(d) {
      if e.Writable? && !d.reset {
        RefusedSends(d, e.accepted);
      }
    } else if e.Writable? {
      WritableFromStreaming(d, output, CutOf(total), e.accepted, e.o);
    } else if e.PipeRead? && d.live && !d.reset {
      ReadKeeps(d, e.bytes, output, CutOf(total));
    }
  }

  lemma {:induction false} DeadReadsNothing(d: Delivery, events: seq<Event>)
    requires !d.live
    ensures Output(d, events) == ""
    decreases |events|
  {
    if events != [] {
      StepStaysDead(d, events[0]);
      DeadReadsNothing(Step(d, events[0]), events[1..]);
    }
  }

  lemma StepStaysDead(d: Delivery, e: Event)
    requires !d.live
    ensures !Step(d, e).live
  {
  }

  lemma {:induction false} RunReached(d: Delivery, events: seq<Event>, output: string, total: string, r: Reply)
    requires Reached(d, output, total) && Unambiguous(total) && total == output + Output(d, events)
      && HeadKept(d, r, total)
    ensures Reached(Run(d, events), total, total) && HeadKept(Run(d, events), r, total)
    decreases |events|
  {
    if events == [] {
      assert output + "" == output;
    } else {
      var next := Step(d, events[0]);
      var later := Output(next, events[1..]);
      Assoc(output, Added(d, events[0]), later);
      if !next.live {
        DeadReadsNothing(next, events[1..]);
      }
      StepReached(d, events[0], output, total, later, r);
      RunReached(next, events[1..], output + Added(d, events[0]), total, r);
    }
  }

  // -------------------------------------------------------------- one head

  /** The value of a `Status` line, as it stands behind the colon. */
  function StatusValue(line: string): Option<string> {
    match IndexOf(line, ":")
    case None => None
    case Some(colon) => if line[..colon] == "Status" then Some(line[colon + 1..]) else None
  }

  /** The last `Status` line of a header block. */
  function LastStatus(lines: seq<string>): Option<string>
    decreases |lines|
  {
    if lines == [] || lines[0] == "" || lines[0] == "\r" then None
    else
      var later := LastStatus(lines[1..]);
      if later.Some? then later else StatusValue(DropCr(lines[0]))
  }

  /** The script names a status, or none at all: no `Status` line is the last one and empty. */
  predicate NamesStatus(output: string) {
    match Separator(output)
    case None => true
    case Some(sep) => LastStatus(GetLines(output[..sep.0])) != Some("")
  }

  /** Reading the block ends with the status of its last `Status` line; its code is empty only if its value is. */
  lemma {:induction false} StatusRead(h: CgiHead, lines: seq<string>)
    ensures var q := ReadCgiLines(h, lines).status; var last := LastStatus(lines);
            (last.None? ==> q == h.status)
            && (last.Some? ==> q.Some? && (q.value.code == "" <==> last.value == ""))
    decreases |lines|
  {
    if !(lines == [] || lines[0] == "" || lines[0] == "\r") {
      var line := DropCr(lines[0]);
      StatusRead(ReadCgiLine(h, line), lines[1..]);
      StatusOfLine(h, line);
    }
  }

  lemma StatusOfLine(h: CgiHead, line: string)
    ensures var q := ReadCgiLine(h, line).status; var v := StatusValue(line);
            (v.None? ==> q == h.status) && (v.Some? ==> q.Some? && (q.value.code == "" <==> v.value == ""))
  {
  }

  /** A head is printed if and only if the script's last `Status` line, if any, has a value. */
  lemma HeadPrintedIff(r: Reply, output: string, o: Outside)
    requires !r.isChunked
    ensures ResponseText(HeadReply(r, output, o)) != "" <==> NamesStatus(output)
  {
    if Separator(output).Some? {
      StatusRead(CgiHead(r.headers, None, false), GetLines(output[..Separator(output).value.0]));
    }
  }

  lemma OneLineBlock(line: string)
    requires line != "" && '\n' !in line
    ensures GetLines(line) == [line]
  {
    NotIn(line, "\n", 0);
  }

  /** A script that prints an empty `Status` gets no head at all: its chunks start the response. */
  lemma EmptyStatusHidesHead(r: Reply, o: Outside)
    requires !r.isChunked
    ensures ResponseText(HeadReply(r, "Status:" + CRLF2, o)) == ""
  {
    var line := "Status:";
    assert line + CRLF2 + "" == line + CRLF2 && "Status" + ":" + "" == line;
    FirstAfter(line, CRLF2, "");
    OneLineBlock(line);
    FirstAfter("Status", ":", "");
    assert LastStatus([line]) == Some("") by {
      assert [line][1..] == [];
    }
    HeadPrintedIff(r, line + CRLF2, o);
  }

  /** The whole response as it has to be on the wire. */
  predicate WholeResponse(d: Delivery, payload: string) {
    d.sent == d.head + Encode(d.pieces) + TERMINATOR && AllPieces(d.pieces) && Concat(d.pieces) == payload
  }

  /** At no time is anything on the wire but the beginning of what was framed, in order. */
  predicate NothingLost(d: Delivery) {
    d.sent + d.writeBuffer + d.reply.outBuffer == Framed(d) || Refused(d)
  }

  /** The error page of a script that failed before its head went out. */
  ghost predicate ErrorPageFor(d: Delivery, r: Reply) {
    Refused(d) && exists o: Outside :: d.reply == BuildErrorResponse(r, HTTP_SERVER_ERR, o.page, o.date)
  }

  /** The head of this response is that of the script's output, whatever the visits contributed. */
  ghost predicate HeadOf(head: string, r: Reply, output: string) {
    (exists o: Outside :: head == ResponseText(HeadReply(r, output, o))) && (head != "" <==> NamesStatus(output))
  }

  /**
   * CGI streaming: for every schedule of pipe reads, hang-up, visits, failed and partial
   * sends, the framed bytes are conserved at the end of the run, and the client is reset only
   * with the whole response on the wire: the head of the script's header block, non-empty
   * chunks that concatenate to the output behind it, and one terminator; or the error page.
   * The head is there if and only if the script's last status, if any, is not empty.
   */
  lemma StreamedInOrder(d: Delivery, events: seq<Event>)
    requires Launched(d) && Unambiguous(Output(d, events))
    ensures var r := Run(d, events); var output := Output(d, events);
            NothingLost(r)
            && (r.reset ==> ErrorPageFor(r, d.reply)
                            || (WholeResponse(r, output[CutOf(output)..]) && HeadOf(r.head, d.reply, output)))
  {
    var output := Output(d, events);
    assert "" + output == output;
    RunReached(d, events, "", output, d.reply);
    CutInside(output);
    var r := Run(d, events);
    if r.reset && !Refused(r) {
      assert Streaming(r, output, CutOf(output));
      assert r.sent + "" + "" == r.sent && Concat(r.pieces) + "" == Concat(r.pieces);
      var o: Outside :| r.head == ResponseText(HeadReply(d.reply, output, o));
      HeadPrintedIff(d.reply, output, o);
    }
  }

  // ------------------------------------------------- which responses complete

  /** The script failed, but its head was out already. */
  predicate FailedBehindHead(d: Delivery) {
    d.exited && !d.succeeded && !d.reply.chunkState.ParseHeaders?
  }

  /** A failed script whose head is already out leaves a response that never completes. */
  lemma {:induction false} FailureAfterHeadNeverCompletes(d: Delivery, output: string, cut: nat, events: seq<Event>)
    requires Streaming(d, output, cut) && d.exited && !d.succeeded && d.reply.chunkState.StreamBody?
    ensures !Run(d, events).reset
    decreases |events|
  {
    if events != [] {
      var e := events[0];
      match e
      case Writable(n, o) =>
        WritableFromStreaming(d, output, cut, n, o);
        FailureAfterHeadNeverCompletes(Step(d, e), output, cut, events[1..]);
      case PipeRead(bytes) =>
        if d.live {
          ReadKeeps(d, bytes, output, cut);
          FailureAfterHeadNeverCompletes(Step(d, e), output + bytes, cut, events[1..]);
        } else {
          FailureAfterHeadNeverCompletes(d, output, cut, events[1..]);
        }
      case Hangup(_) => FailureAfterHeadNeverCompletes(d, output, cut, events[1..]);
    }
  }

  // -------------------------------------- exactly when the schedule is invisible

  /** Every schedule that delivers this output completely delivers this payload. */
  ghost predicate AlwaysDelivers(d: Delivery, output: string, payload: string) {
    forall events: seq<Event> {:trigger Run(d, events)} |
      Output(d, events) == output && Run(d, events).reset && Run(d, events).succeeded ::
      WholeResponse(Run(d, events), payload)
  }

  /** Enough room in the socket completes an open stream whose script succeeded. */
  lemma LastWritable(d: Delivery, output: string, cut: nat) returns (e: Event)
    requires Streaming(d, output, cut) && d.live && d.exited && d.succeeded && d.reply.chunkState.StreamBody?
    ensures var q := Step(d, e);
            e.Writable? && Streaming(q, output, cut) && q.reset && q.succeeded && q.reply.chunkState.ChunkFinished?
  {
    var o := Outside("", Generated(""), None);
    FrameRestKeeps(d, o, output, cut);
    var q := CgiIo(d, o);
    var n := Drained(q, output, cut);
    e := Writable(n, o);
  }

  /** Enough room takes a terminated response as a whole. */
  lemma Drained(d: Delivery, output: string, cut: nat) returns (n: nat)
    requires Streaming(d, output, cut) && !d.reset && d.reply.chunkState.ChunkFinished? && Pending(d)
    ensures var q := HandleResponse(d, n);
            Streaming(q, output, cut) && q.reset && q.succeeded && q.reply.chunkState.ChunkFinished?
  {
    PrepareKeeps(d, output, cut);
    var p := Prepare(d);
    n := |p.writeBuffer|;
    SendKeeps(p, n, output, cut);
  }

  lemma RunStep(d: Delivery, e: Event, events: seq<Event>)
    ensures Run(d, [e] + events) == Run(Step(d, e), events)
    ensures Output(d, [e] + events) == Added(d, e) + Output(Step(d, e), events)
  {
    assert ([e] + events)[1..] == events;
  }

  /** A completed stream that was split at `cut`. */
  predicate Completed(d: Delivery, output: string, cut: nat) {
    Streaming(d, output, cut) && d.reset && d.succeeded
  }

  /** A run of these events from here reads `more` and completes. */
  ghost predicate Completes(d: Delivery, events: seq<Event>, more: string, output: string, cut: nat) {
    Output(d, events) == more && Completed(Run(d, events), output, cut)
  }

  lemma CompletesStep(d: Delivery, e: Event, events: seq<Event>, more: string, output: string, cut: nat)
    requires Completes(Step(d, e), events, more, output, cut)
    ensures Completes(d, [e] + events, Added(d, e) + more, output, cut)
  {
    RunStep(d, e, events);
  }

  lemma LastEvents(d: Delivery, output: string, cut: nat) returns (events: seq<Event>)
    requires Streaming(d, output, cut) && d.live && d.exited && d.succeeded && d.reply.chunkState.StreamBody?
    ensures Completes(d, events, "", output, cut)
  {
    var e := LastWritable(d, output, cut);
    CompletesStep(d, e, [], "", output, cut);
    events := [e] + [];
  }

  lemma ExitEvents(d: Delivery, output: string, cut: nat) returns (events: seq<Event>)
    requires Streaming(d, output, cut) && d.live && !d.exited && d.reply.chunkState.StreamBody?
    ensures Completes(d, events, "", output, cut)
  {
    events := LastEvents(d.(exited := true, succeeded := true), output, cut);
    CompletesStep(d, Hangup(true), events, "", output, cut);
    events := [Hangup(true)] + events;
  }

  lemma LateEvents(d: Delivery, early: string, late: string, cut: nat) returns (events: seq<Event>)
    requires Streaming(d, early, cut) && d.live && !d.exited && d.reply.chunkState.StreamBody?
    ensures Completes(d, events, late, early + late, cut)
  {
    ReadKeeps(d, late, early, cut);
    events := ExitEvents(d.(pipe := d.pipe + late), early + late, cut);
    CompletesStep(d, PipeRead(late), events, "", early + late, cut);
    assert late + "" == late;
    events := [PipeRead(late)] + events;
  }

  /** The chunk machine looks at `early` before the rest of the output arrives. */
  lemma LookEvents(d: Delivery, early: string, late: string) returns (events: seq<Event>)
    requires Waiting(d, early) && !d.exited && Separator(early).Some?
    ensures Completes(d, events, late, early + late, CutOf(early))
  {
    var e := Writable(0, Outside("", Generated(""), None));
    WritableFromWaiting(d, early, 0, e.o);
    events := LateEvents(Step(d, e), early, late, CutOf(early));
    CompletesStep(d, e, events, late, early + late, CutOf(early));
    assert "" + late == late;
    events := [e] + events;
  }

  /** There is a schedule under which the part behind `early`'s separator becomes the payload. */
  lemma EarlyLookRuns(d: Delivery, early: string, late: string) returns (events: seq<Event>)
    requires Launched(d) && Separator(early).Some?
    ensures var r := Run(d, events);
            Output(d, events) == early + late && r.reset && r.succeeded
            && CutOf(early) <= |early| && WholeResponse(r, (early + late)[CutOf(early)..])
  {
    CutInside(early);
    assert "" + early == early;
    events := LookEvents(d.(pipe := early), early, late);
    CompletesStep(d, PipeRead(early), events, late, early + late, CutOf(early));
    events := [PipeRead(early)] + events;
    CompletedIsWhole(Run(d, events), early + late, CutOf(early));
  }

  lemma CompletedIsWhole(d: Delivery, output: string, cut: nat)
    requires Completed(d, output, cut)
    ensures WholeResponse(d, output[cut..])
  {
    assert d.sent + "" + "" == d.sent;
    assert Concat(d.pieces) + "" == Concat(d.pieces);
  }

  /** In ambiguous output the early LF LF and the later CRLF CRLF both can become the split. */
  lemma AmbiguousSplitsEarly(output: string) returns (q: nat)
    requires !Unambiguous(output)
    ensures q + 2 <= |output| && CutOf(output[..q + 2]) == q + 2 < CutOf(output) && Separator(output[..q + 2]).Some?
  {
    var c := IndexOf(output, CRLF2).value;
    q := IndexOf(output, LF2).value;
    var early := output[..q + 2];
    IndexOfPrefix(output, LF2, 0, q, q + 2);
    NoLfPairInSeparator(output, c, q);
    assert output == early + output[q + 2..];
    if IndexOf(early, CRLF2).Some? {
      IndexOfAppend(early, output[q + 2..], CRLF2, 0);
    }
  }

  /**
   * The schedule is invisible, and the payload is everything behind the header separator, if
   * and only if no LF LF precedes the CRLF CRLF of the output.
   */
  lemma ScheduleInvisibleIff(d: Delivery, output: string)
    requires Launched(d)
    ensures CutOf(output) <= |output|
    ensures AlwaysDelivers(d, output, output[CutOf(output)..]) <==> Unambiguous(output)
  {
    CutInside(output);
    if Unambiguous(output) {
      forall events: seq<Event> | Output(d, events) == output && Run(d, events).reset && Run(d, events).succeeded
        ensures WholeResponse(Run(d, events), output[CutOf(output)..])
      {
        StreamedInOrder(d, events);
      }
    } else {
      var q := AmbiguousSplitsEarly(output);
      var early, late := output[..q + 2], output[q + 2..];
      assert early + late == output;
      var events := EarlyLookRuns(d, early, late);
      var r := Run(d, events);
      assert WholeResponse(r, output[q + 2..]);
      assert |output[q + 2..]| != |output[CutOf(output)..]|;
    }
  }

  // ---------------------------------------------- exactly which responses complete

  /** Where every run from `Launched` is, with all output that was read and not dropped. */
  predicate Alive(d: Delivery) {
    Waiting(d, d.pipe) || Refused(d)
    || (Streaming(d, Concat(d.pieces) + d.pipe, 0) && (d.live ==> d.reply.chunkState.StreamBody?)
        && (!d.live && d.reply.chunkState.StreamBody? ==> d.exited && !d.succeeded) && Pending(d))
  }

  lemma Rebase(d: Delivery, output: string, cut: nat)
    requires Streaming(d, output, cut)
    ensures Streaming(d, Concat(d.pieces) + d.pipe, 0)
  {
    assert (Concat(d.pieces) + d.pipe)[0..] == Concat(d.pieces) + d.pipe;
  }

  lemma StepAlive(d: Delivery, e: Event)
    requires Alive(d)
    ensures Alive(Step(d, e))
  {
    var q := Step(d, e);
    var output := Concat(d.pieces) + d.pipe;
    if Waiting(d, d.pipe) {
      if e.Writable? {
        WritableFromWaiting(d, d.pipe, e.accepted, e.o);
        if Streaming(q, d.pipe, CutOf(d.pipe)) { Rebase(q, d.pipe, CutOf(d.pipe)); }
      }
    } else if Refused(d) {
      if e.Writable? && !d.reset {
        RefusedSends(d, e.accepted);
      }
    } else if e.Writable? {
      WritableFromStreaming(d, output, 0, e.accepted, e.o);
      Rebase(q, output, 0);
    } else if e.PipeRead? && d.live && !d.reset {
      ReadKeeps(d, e.bytes, output, 0);
      Rebase(q, output + e.bytes, 0);
    }
  }

  lemma {:induction false} RunAlive(d: Delivery, events: seq<Event>)
    requires Alive(d)
    ensures Alive(Run(d, events))
    decreases |events|
  {
    if events != [] {
      StepAlive(d, events[0]);
      RunAlive(Step(d, events[0]), events[1..]);
    }
  }

  lemma ResetsAfter(d: Delivery, e: Event, events: seq<Event>)
    requires Run(Step(d, e), events).reset
    ensures Run(d, [e] + events).reset
  {
    RunStep(d, e, events);
  }

  /** A terminated stream completes at the next visit whose socket takes everything. */
  lemma TerminatedCompletes(d: Delivery, output: string, cut: nat) returns (events: seq<Event>)
    requires Streaming(d, output, cut) && !d.live && d.reply.chunkState.ChunkFinished? && Pending(d)
    ensures Run(d, events).reset
  {
    events := [];
    if !d.reset {
      var n := Drained(d, output, cut);
      var e := Writable(n, Outside("", Generated(""), None));
      assert CgiIo(d, e.o) == d;
      ResetsAfter(d, e, []);
      events := [e] + [];
    }
  }

  lemma RefusedCompletes(d: Delivery) returns (events: seq<Event>)
    requires Refused(d)
    ensures Run(d, events).reset
  {
    events := [];
    if !d.reset {
      var e := Writable(|ResponseText(d.reply)|, Outside("", Generated(""), None));
      RefusedSends(d, e.accepted);
      assert CgiIo(d, e.o) == d;
      ResetsAfter(d, e, []);
      events := [e] + [];
    }
  }

  lemma WaitingCompletes(d: Delivery, output: string) returns (events: seq<Event>)
    requires Waiting(d, output) && d.exited
    ensures Run(d, events).reset
  {
    var e := Writable(0, Outside("", Generated(""), None));
    WritableFromWaiting(d, output, 0, e.o);
    if d.succeeded {
      events := TerminatedCompletes(Step(d, e), output, CutOf(output));
    } else {
      events := RefusedCompletes(Step(d, e));
    }
    ResetsAfter(d, e, events);
    events := [e] + events;
  }

  lemma StreamingCompletes(d: Delivery, output: string, cut: nat) returns (events: seq<Event>)
    requires Streaming(d, output, cut) && d.live && d.exited && d.succeeded && d.reply.chunkState.StreamBody?
    ensures Run(d, events).reset
  {
    events := LastEvents(d, output, cut);
  }

  /** A run that is not stuck can be continued until its response is out. */
  lemma CanComplete(d: Delivery) returns (events: seq<Event>)
    requires Alive(d) && !FailedBehindHead(d)
    ensures Run(d, events).reset
  {
    var output := Concat(d.pieces) + d.pipe;
    if d.reset {
      events := [];
    } else if Refused(d) {
      events := RefusedCompletes(d);
    } else if !d.live {
      events := TerminatedCompletes(d, output, 0);
    } else if d.exited {
      if Waiting(d, d.pipe) {
        events := WaitingCompletes(d, d.pipe);
      } else {
        events := StreamingCompletes(d, output, 0);
      }
    } else {
      var q := Step(d, Hangup(true));
      if Waiting(d, d.pipe) {
        events := WaitingCompletes(q, d.pipe);
      } else {
        events := StreamingCompletes(q, output, 0);
      }
      ResetsAfter(d, Hangup(true), events);
      events := [Hangup(true)] + events;
    }
  }

  /**
   * At every point of every run the response can still be completed, if and only if the script
   * did not fail after its head went out.
   */
  lemma CompletesIffNotFailedBehindHead(d: Delivery, events: seq<Event>)
    requires Launched(d)
    ensures (exists more: seq<Event> :: Run(Run(d, events), more).reset) <==> !FailedBehindHead(Run(d, events))
  {
    RunAlive(d, events);
    var r := Run(d, events);
    if FailedBehindHead(r) {
      forall more: seq<Event> ensures !Run(r, more).reset {
        FailureAfterHeadNeverCompletes(r, Concat(r.pieces) + r.pipe, 0, more);
      }
    } else {
      var more := CanComplete(r);
    }
  }

  lemma LfPairSeparates()
    ensures Separator("a" + LF2) == Some((1, 2))
  {
    NotIn("a" + LF2, CRLF2, 0);
    assert "a" + LF2 + "" == "a" + LF2;
    FirstAfter("a", LF2, "");
  }

  lemma RunOfThree(d: Delivery, e1: Event, e2: Event, e3: Event)
    ensures Run(d, [e1, e2, e3]) == Step(Step(Step(d, e1), e2), e3)
  {
    var d1 := Step(d, e1);
    var d2 := Step(d1, e2);
    RunStep(d2, e3, []);
    RunStep(d1, e2, [e3]);
    RunStep(d, e1, [e2, e3]);
    assert [e3] + [] == [e3] && [e2] + [e3] == [e2, e3] && [e1] + [e2, e3] == [e1, e2, e3];
  }

  lemma FailureAfterLook(d: Delivery, output: string, o: Outside)
    requires Waiting(d, output) && !d.exited && Separator(output).Some?
    ensures FailedBehindHead(Step(Step(d, Writable(0, o)), Hangup(false)))
  {
    WritableFromWaiting(d, output, 0, o);
  }

  /** A header line, a visit, a failure: no continuation of this run completes the response. */
  lemma FailureIsReached(d: Delivery, o: Outside)
    requires Launched(d)
    ensures FailedBehindHead(Run(d, [PipeRead("a" + LF2), Writable(0, o), Hangup(false)]))
  {
    var output := "a" + LF2;
    assert "" + output == output;
    LfPairSeparates();
    RunOfThree(d, PipeRead(output), Writable(0, o), Hangup(false));
    FailureAfterLook(d.(pipe := output), output, o);
  }

  // ------------------------------------------------------- read by its own parser

  lemma {:induction false} PiecesAreShort(pieces: seq<string>)
    requires AllPieces(pieces) && |Concat(pieces)| < TWO_64
    ensures NonEmpty(pieces)
  {
    if pieces != [] {
      PiecesAreShort(pieces[1..]);
    }
  }

  /**
   * End to end: what a completed stream put on the wire behind the head, read back by the
   * repository's own request parser in any fragmentation and with any bytes behind it, is the
   * payload of the script.
   */
  lemma ReadBack(d: Delivery, payload: string, p: Intake, suffix: string, cuts: seq<string>)
    requires WholeResponse(d, payload) && |payload| < TWO_64
    requires BeforeChunks(p) && Inv(p) && p.buffer == ""
    requires cuts != [] && forall i | 0 <= i < |cuts| :: cuts[i] != ""
    requires d.head + Concat(cuts) == d.sent + suffix
    ensures var r := ParseReads(p, cuts);
            r.verdict.Done? && HoldsBody(r.intake, p, payload, suffix)
  {
    PiecesAreShort(d.pieces);
    var wire := Encode(d.pieces) + TERMINATOR + suffix;
    Assoc(d.head, Encode(d.pieces), TERMINATOR);
    Assoc(d.head, Encode(d.pieces) + TERMINATOR, suffix);
    SameTail(d.head, Concat(cuts), wire);
    RoundTrip(p, d.pieces, suffix, cuts);
  }

  lemma SameTail(head: string, a: string, b: string)
    requires head + a == head + b
    ensures a == b
  {
    assert (head + a)[|head|..] == a && (head + b)[|head|..] == b;
  }
}
