/** Requests that follow each other on one connection are parsed one by one, byte for byte. */
module Pipelining {
  import opened Wrappers
  import opened Text
  import opened Numerals
  import opened Config
  import opened BodyStore
  import opened ParserModel
  import opened Fragmentation
  import opened ChunkCodec

  datatype Framing =
    | NoBody
    | Sized(body: string)
    | InChunks(chunks: seq<Chunk>, last: string, eol: string)

  /** A request as it travels: request line, raw header lines, body. */
  datatype Message = Message(line: string, headers: seq<string>, framing: Framing)

  function BodyWire(f: Framing): string {
    match f
    case NoBody => ""
    case Sized(body) => body
    case InChunks(chunks, last, eol) => Wire(chunks) + LastWire(last, eol)
  }

  function Render(m: Message): string {
    m.line + CRLF + (Lines(m.headers) + CRLF + BodyWire(m.framing))
  }

  function BodyOf(f: Framing): string {
    match f
    case NoBody => ""
    case Sized(body) => body
    case InChunks(chunks, _, _) => Payload(chunks)
  }

  function HeaderMap(headers: map<string, string>, lines: seq<string>): map<string, string>
    decreases |lines|
  {
    if lines == [] then headers else HeaderMap(PutHeader(headers, lines[0]), lines[1..])
  }

  predicate GoodHeaders(headers: seq<string>) {
    forall i | 0 <= i < |headers| :: headers[i] != "" && NoCr(headers[i])
  }

  predicate WellFramed(f: Framing, headers: map<string, string>, location: Option<Location>) {
    match f
    case NoBody => !IsChunked(headers) && !HasLength(headers)
    case Sized(body) =>
      !IsChunked(headers) && HasLength(headers) && StrToUl(headers["Content-Length"], 10) == |body|
      && location.Some? && |body| <= location.value.maxBody
    case InChunks(chunks, last, eol) =>
      IsChunked(headers) && GoodChunks(chunks) && GoodLast(last, eol)
      && location.Some? && |Payload(chunks)| <= location.value.maxBody < TWO_64
  }

  /** A request within the limits, with at least one header line. */
  predicate WellFormed(m: Message, config: ServerConfig) {
    && NoCr(m.line) && ReadRequestLine(m.line, config).Some?
    && m.headers != [] && GoodHeaders(m.headers)
    && WellFramed(m.framing, HeaderMap(map[], m.headers), ReadRequestLine(m.line, config).value.location)
  }

  /** A connection that waits for a new request: what `cleanup` leaves. */
  predicate Ready(p: Intake) {
    p.phase.Start? && p.headers == map[] && p.store == EMPTY_STORE
    && p.chunk == FRESH_CHUNK && p.length == FRESH_LENGTH && !p.discarding
  }

  /** The completed request is the message, in every field the router looks at. */
  predicate Holds(q: Intake, m: Message, config: ServerConfig) {
    && ReadRequestLine(m.line, config) == Some(q.line)
    && q.headers == HeaderMap(map[], m.headers)
    && q.store == StoreOf(BodyOf(m.framing), MaxBuffer(q))
    && q.state.ParseOk? && q.config == config
  }

  // ------------------------------------------------------------ header block

  lemma NoBlockEndIn(h: string, rest: string)
    requires NoCr(h) && rest != "" && rest[0] != '\r'
    ensures forall j | 0 <= j < |h| + 2 :: !MatchesAt(h + CRLF + rest, CRLF2, j)
  {
    var s := h + CRLF + rest;
    forall j | 0 <= j < |h| + 2 ensures !MatchesAt(s, CRLF2, j) {
      if j + 4 <= |s| {
        var w := s[j..j + 4];
        assert w[0] == s[j] && w[2] == s[j + 2];
        assert j < |h| ==> s[j] == h[j];
        assert s[|h| + 1] == '\n' && s[|h| + 2] == rest[0];
      }
    }
  }

  lemma BlockEndLast(h: string, rest: string)
    requires NoCr(h)
    ensures IndexOf(h + CRLF + CRLF + rest, CRLF2) == Some(|h|)
  {
    var s := h + CRLF + CRLF + rest;
    assert s[|h|..|h| + 4] == CRLF2;
    forall j | 0 <= j < |h| ensures !MatchesAt(s, CRLF2, j) {
      assert s[j] == h[j];
      assert j + 4 <= |s| ==> s[j..j + 4][0] == s[j];
    }
    IndexOfIs(s, CRLF2, 0, |h|);
  }

  /** The blank line is found right behind the last header line. */
  lemma {:induction false} BlockEnd(headers: seq<string>, rest: string)
    requires headers != [] && GoodHeaders(headers)
    ensures |Lines(headers)| >= 2
    ensures IndexOf(Lines(headers) + CRLF + rest, CRLF2) == Some(|Lines(headers)| - 2)
  {
    var h := headers[0];
    var wire := Lines(headers[1..]);
    if |headers| == 1 {
      BlockEndLast(h, rest);
      assert h + CRLF + "" == h + CRLF;
    } else {
      BlockEnd(headers[1..], rest);
      var tail := wire + CRLF + rest;
      assert tail[0] == headers[1][0];
      NoBlockEndIn(h, tail);
      IndexOfAfter(h + CRLF, tail, CRLF2, |wire| - 2);
      Regroup(h + CRLF, wire, CRLF, rest);
    }
  }

  lemma Regroup(a: string, b: string, c: string, d: string)
    ensures a + b + c + d == a + (b + c + d)
  {
  }

  lemma {:induction false} ReadBlock(headers: map<string, string>, lines: seq<string>)
    requires GoodHeaders(lines)
    ensures ReadHeaders(headers, Lines(lines)) == HeaderMap(headers, lines)
    decreases |lines|
  {
    if lines != [] {
      var block := Lines(lines);
      LineEnd(lines[0], Lines(lines[1..]));
      assert block[..|lines[0]|] == lines[0] && block[|lines[0]| + 2..] == Lines(lines[1..]);
      ReadBlock(PutHeader(headers, lines[0]), lines[1..]);
    }
  }

  lemma HeaderPhase(p: Intake, lines: seq<string>, rest: string)
    requires lines != [] && GoodHeaders(lines) && p.buffer == Lines(lines) + CRLF + rest
    ensures AtHeader(p) == Next(p.(headers := HeaderMap(p.headers, lines), buffer := rest, phase := Body))
  {
    BlockEnd(lines, rest);
    ReadBlock(p.headers, lines);
    var end := |Lines(lines)| - 2;
    assert p.buffer[..end + 2] == Lines(lines);
    assert p.buffer[end + 4..] == rest;
  }

  lemma StartPhase(p: Intake, line: string, rest: string)
    requires NoCr(line) && ReadRequestLine(line, p.config).Some? && p.buffer == line + CRLF + rest
    ensures AtStart(p) == Next(p.(line := ReadRequestLine(line, p.config).value, buffer := rest, phase := Header))
  {
    LineEnd(line, rest);
    assert p.buffer[..|line|] == line && p.buffer[|line| + 2..] == rest;
  }

  // ------------------------------------------------------------- one message

  /** A request whose head was read and whose body has not started. */
  predicate BodyStarts(p: Intake) {
    p.phase.Body? && p.store == EMPTY_STORE && p.chunk == FRESH_CHUNK && p.length == FRESH_LENGTH
    && !p.discarding && p.state.ReadSuccess?
  }

  lemma SizedBody(p: Intake, body: string, rest: string)
    requires BodyStarts(p) && WellFramed(Sized(body), p.headers, p.line.location) && p.buffer == body + rest
    ensures ParseBody(p) ==
            Parsed(p.(store := StoreOf(body, MaxBuffer(p)), buffer := rest,
              length := LengthParser(|body|, |body|, true)), Done)
  {
    SliceAt(body, rest);
    AppendIs(EMPTY_STORE, body, MaxBuffer(p));
    assert "" + body == body;
    ReadLengthTakes(StartLength(p, |body|), |body|);
  }

  lemma ChunkedBody(p: Intake, f: Framing, rest: string)
    requires BodyStarts(p) && f.InChunks? && WellFramed(f, p.headers, p.line.location) && p.buffer == BodyWire(f) + rest
    ensures var r := ParseBody(p);
            r == Parsed(p.(store := StoreOf(BodyOf(f), MaxBuffer(p)), buffer := rest, chunk := r.intake.chunk), Done)
  {
    ChunksKept(p, f.chunks, f.last, f.eol, rest);
    ChunksKeep(p);
  }

  lemma BodyParsed(p: Intake, f: Framing, rest: string)
    requires BodyStarts(p) && WellFramed(f, p.headers, p.line.location) && p.buffer == BodyWire(f) + rest
    ensures var r := AtBody(p);
            r.verdict.Done? && r.intake.buffer == rest && r.intake.state.ParseOk? && !r.intake.discarding
            && r.intake.store == StoreOf(BodyOf(f), MaxBuffer(p))
            && r.intake.line == p.line && r.intake.headers == p.headers && r.intake.config == p.config
  {
    match f
    case NoBody => assert "" + rest == rest;
    case Sized(body) => SizedBody(p, body, rest);
    case InChunks(_, _, _) => ChunkedBody(p, f, rest);
  }

  lemma ParseThroughHead(p: Intake, p1: Intake, p2: Intake)
    requires p.phase.Start? && BodyInv(p) && BodyInv(p1) && BodyInv(p2)
    requires AtStart(p) == Next(p1) && AtHeader(p1) == Next(p2)
    ensures Parse(p) == AtBody(p2)
  {
  }

  lemma RenderThen(m: Message, rest: string)
    ensures Render(m) + rest == m.line + CRLF + (Lines(m.headers) + CRLF + (BodyWire(m.framing) + rest))
  {
  }

  /** One well-formed request is completed by one call, and the bytes behind it stay. */
  lemma MessageIsParsed(p: Intake, m: Message, rest: string)
    requires Ready(p) && p.state.ReadSuccess? && WellFormed(m, p.config) && p.buffer == Render(m) + rest
    ensures var r := Parse(p);
            r.verdict.Done? && Holds(r.intake, m, p.config) && r.intake.buffer == rest && !r.intake.discarding
  {
    var body := BodyWire(m.framing) + rest;
    RenderThen(m, rest);
    StartPhase(p, m.line, Lines(m.headers) + CRLF + body);
    var p1 := AtStart(p).intake;
    HeaderPhase(p1, m.headers, body);
    var p2 := AtHeader(p1).intake;
    ParseThroughHead(p, p1, p2);
    BodyParsed(p2, m.framing, rest);
  }

  // ------------------------------------------------------------ many messages

  function RenderAll(messages: seq<Message>): string {
    if messages == [] then "" else Render(messages[0]) + RenderAll(messages[1..])
  }

  predicate AllWellFormed(messages: seq<Message>, config: ServerConfig) {
    forall i | 0 <= i < |messages| :: WellFormed(messages[i], config)
  }

  /**
   * Round after round of `parseRequestBuffer` and `resetClientState` completes these
   * requests in this order, and then only `tail` is left in the read buffer.
   */
  ghost predicate RoundsYield(p: Intake, messages: seq<Message>, tail: string)
    requires BodyInv(p)
    decreases |messages|
  {
    if messages == [] then Ready(p) && p.buffer == tail
    else
      var r := Parse(Receive(p, ""));
      && r.verdict.Done? && Holds(r.intake, messages[0], p.config)
      && RoundsYield(ResetRequest(r.intake), messages[1..], tail)
  }

  lemma OneRound(p: Intake, m: Message, rest: string)
    requires Ready(p) && WellFormed(m, p.config) && p.buffer == Render(m) + rest
    ensures var r := Parse(Receive(p, "")); var next := ResetRequest(r.intake);
            r.verdict.Done? && Holds(r.intake, m, p.config)
            && Ready(next) && next.buffer == rest && next.config == p.config
  {
    assert p.buffer + "" == p.buffer;
    MessageIsParsed(Receive(p, ""), m, rest);
  }

  /**
   * Pipelining: a buffer of n well-formed requests and any tail gives exactly those n
   * requests, in order, in n rounds, and leaves exactly the tail.
   */
  lemma {:induction false} PipelinedRequests(p: Intake, messages: seq<Message>, tail: string)
    requires Ready(p) && AllWellFormed(messages, p.config) && p.buffer == RenderAll(messages) + tail
    ensures RoundsYield(p, messages, tail)
    decreases |messages|
  {
    if messages == [] {
      assert "" + tail == tail;
    } else {
      var rest := RenderAll(messages[1..]) + tail;
      Assoc(Render(messages[0]), RenderAll(messages[1..]), tail);
      OneRound(p, messages[0], rest);
      PipelinedRequests(ResetRequest(Parse(Receive(p, "")).intake), messages[1..], tail);
    }
  }

  // ------------------------------------------- many messages, cut anywhere

  /** What one parser call for every read, and a reset after every completed request, completes. */
  function Served(p: Intake, pieces: seq<string>): seq<Intake>
    requires BodyInv(p)
    decreases |pieces|
  {
    if pieces == [] then []
    else
      var r := Parse(Receive(p, pieces[0]));
      match r.verdict
      case Done => [r.intake] + Served(ResetRequest(r.intake), pieces[1..])
      case More => if BodyInv(r.intake) then Served(r.intake, pieces[1..]) else []
      case NullLocation => []
  }

  function Lengths(texts: seq<string>): (sizes: seq<nat>)
    ensures |sizes| == |texts|
  {
    seq(|texts|, i requires 0 <= i < |texts| => |texts[i]|)
  }

  function Renders(messages: seq<Message>): (texts: seq<string>)
    ensures |texts| == |messages|
  {
    seq(|messages|, i requires 0 <= i < |messages| => Render(messages[i]))
  }

  /**
   * How many messages complete when `have` bytes wait and reads of these sizes follow: a read
   * completes the next message if it is there as a whole, and never two.
   */
  function ServedCount(have: nat, sizes: seq<nat>, lens: seq<nat>): nat
    decreases |sizes|
  {
    if sizes == [] then 0
    else
      var h := have + sizes[0];
      if lens != [] && h >= lens[0] then 1 + ServedCount(h - lens[0], sizes[1..], lens[1..])
      else ServedCount(h, sizes[1..], lens)
  }

  /** These requests are the first `n` messages, in order. */
  ghost predicate FirstOf(done: seq<Intake>, n: nat, messages: seq<Message>, config: ServerConfig) {
    |done| == n <= |messages| && forall i | 0 <= i < n :: Holds(done[i], messages[i], config)
  }

  /** The completed requests are the first messages, in order, and as many as the sizes say. */
  ghost predicate ServesInOrder(done: seq<Intake>, have: nat, pieces: seq<string>, messages: seq<Message>,
    config: ServerConfig)
  {
    FirstOf(done, ServedCount(have, Lengths(pieces), Lengths(Renders(messages))), messages, config)
  }

  /** `p` stands where a reset connection stands after the bytes `x`. */
  ghost predicate ActsLike(p: Intake, p0: Intake, x: string) {
    Ready(p0) && p0.buffer == "" && BodyInv(p) && p.config == p0.config
    && forall b: string {:trigger Receive(p, b)} | b != "" :: Parse(Receive(p, b)) == Parse(Receive(p0, x + b))
  }

  lemma ReadyActsLike(p: Intake, z: string)
    requires Ready(p) && p.buffer == z
    ensures ActsLike(p, p.(buffer := ""), z)
  {
    forall b: string | b != "" ensures Parse(Receive(p, b)) == Parse(Receive(p.(buffer := ""), z + b)) {
      assert "" + (z + b) == z + b;
    }
  }

  /** A whole message arrived: it completes, and a reset connection holds the bytes behind it. */
  lemma WholeMessageArrived(p0: Intake, y: string, m: Message, z: string)
    requires Ready(p0) && p0.buffer == "" && WellFormed(m, p0.config) && y == Render(m) + z
    ensures var r := Parse(Receive(p0, y)); var next := ResetRequest(r.intake);
            r.verdict.Done? && Holds(r.intake, m, p0.config)
            && Ready(next) && next.buffer == z && next.config == p0.config && r.intake.config == p0.config
  {
    assert "" + y == y;
    MessageIsParsed(Receive(p0, y), m, z);
  }

  /** A proper beginning of a message never completes. */
  lemma PartMessageArrived(p0: Intake, y: string, m: Message, w: string)
    requires Ready(p0) && p0.buffer == "" && WellFormed(m, p0.config) && Render(m) == y + w && w != ""
    ensures var r := Parse(Receive(p0, y));
            r.verdict.More? && Inv(r.intake) && ActsLike(r.intake, p0, y)
  {
    assert Render(m) + "" == Render(m);
    assert "" + (y + w) == Render(m);
    var whole := Parse(Receive(p0, y + w));
    MessageIsParsed(Receive(p0, y + w), m, "");
    NotDiscardingIsClear(Receive(p0, y));
    FragmentationIndependence(p0, y, w);
    var r := Parse(Receive(p0, y));
    assert r.verdict.Done? ==> |Feed(r.intake, w).buffer| > 0;
    forall b: string | b != "" ensures Parse(Receive(r.intake, b)) == Parse(Receive(p0, y + b)) {
      FragmentationIndependence(p0, y, b);
    }
  }

  /** A read that does not end the next message. */
  lemma ReadPart(p: Intake, p0: Intake, x: string, pieces: seq<string>, messages: seq<Message>) returns (q: Intake)
    requires ActsLike(p, p0, x) && AllWellFormed(messages, p.config) && messages != []
    requires pieces != [] && pieces[0] != "" && x + Concat(pieces) <= RenderAll(messages)
    requires |x| + |pieces[0]| < |Render(messages[0])|
    ensures Parse(Receive(p, pieces[0])) == Parsed(q, More) && ActsLike(q, p0, x + pieces[0]) && q.config == p.config
    ensures x + pieces[0] + Concat(pieces[1..]) <= RenderAll(messages)
  {
    var y := x + pieces[0];
    var m := messages[0];
    Assoc(x, pieces[0], Concat(pieces[1..]));
    PrefixOfFirst(y, Concat(pieces[1..]), Render(m), RenderAll(messages[1..]));
    PartMessageArrived(p0, y, m, Render(m)[|y|..]);
    q := Parse(Receive(p0, y)).intake;
  }

  /** A read that ends the next message, with the bytes `z` behind it. */
  lemma ReadWhole(p: Intake, p0: Intake, x: string, pieces: seq<string>, messages: seq<Message>)
    returns (q: Intake, z: string)
    requires ActsLike(p, p0, x) && AllWellFormed(messages, p.config) && messages != []
    requires pieces != [] && pieces[0] != "" && x + Concat(pieces) <= RenderAll(messages)
    requires |x| + |pieces[0]| >= |Render(messages[0])|
    ensures Parse(Receive(p, pieces[0])) == Parsed(q, Done) && Holds(q, messages[0], p.config) && q.config == p.config
    ensures |Render(messages[0])| + |z| == |x| + |pieces[0]| && z + Concat(pieces[1..]) <= RenderAll(messages[1..])
    ensures var next := ResetRequest(q); Ready(next) && ActsLike(next, next.(buffer := ""), z)
  {
    var y := x + pieces[0];
    var m := messages[0];
    Assoc(x, pieces[0], Concat(pieces[1..]));
    PrefixOfBoth(y, Concat(pieces[1..]), Render(m), RenderAll(messages[1..]));
    z := y[|Render(m)|..];
    WholeMessageArrived(p0, y, m, z);
    q := Parse(Receive(p0, y)).intake;
    ReadyActsLike(ResetRequest(q), z);
  }

  lemma StreamGoesOn(x: string, pieces: seq<string>, messages: seq<Message>)
    requires pieces != [] && pieces[0] != "" && x + Concat(pieces) <= RenderAll(messages)
    ensures messages != []
  {
    assert |x + Concat(pieces)| >= |pieces[0]|;
  }

  /**
   * Any cut of a stream of well-formed requests into reads completes the first of them, in
   * order, none repeated, merged or altered; how many, the sizes of the reads determine.
   */
  lemma {:induction false} StreamServedInOrder(p: Intake, p0: Intake, x: string, pieces: seq<string>,
    messages: seq<Message>)
    requires ActsLike(p, p0, x) && AllWellFormed(messages, p.config)
    requires forall i | 0 <= i < |pieces| :: pieces[i] != ""
    requires x + Concat(pieces) <= RenderAll(messages)
    ensures ServesInOrder(Served(p, pieces), |x|, pieces, messages, p.config)
    decreases |pieces|
  {
    if pieces != [] {
      StreamGoesOn(x, pieces, messages);
      if |x| + |pieces[0]| >= |Render(messages[0])| {
        var q, z := ReadWhole(p, p0, x, pieces, messages);
        var next := ResetRequest(q);
        StreamServedInOrder(next, next.(buffer := ""), z, pieces[1..], messages[1..]);
        ServedWhole(p, q, pieces);
        ReadOfWhole(q, Served(next, pieces[1..]), |x|, |z|, pieces, messages, p.config);
      } else {
        var q := ReadPart(p, p0, x, pieces, messages);
        StreamServedInOrder(q, p0, x + pieces[0], pieces[1..], messages);
        ServedPart(p, q, pieces);
        ReadOfPart(Served(q, pieces[1..]), |x|, |x + pieces[0]|, pieces, messages, p.config);
      }
    }
  }

  /** The lists of sizes lose their heads with the lists of texts. */
  lemma LengthsTail(texts: seq<string>)
    requires texts != []
    ensures Lengths(texts)[0] == |texts[0]| && Lengths(texts)[1..] == Lengths(texts[1..])
  {
  }

  lemma RendersTail(messages: seq<Message>)
    requires messages != []
    ensures Renders(messages)[0] == Render(messages[0]) && Renders(messages)[1..] == Renders(messages[1..])
  {
  }

  lemma CountOfWhole(have: nat, left: nat, pieces: seq<string>, messages: seq<Message>)
    requires pieces != [] && messages != [] && |Render(messages[0])| + left == have + |pieces[0]|
    ensures ServedCount(have, Lengths(pieces), Lengths(Renders(messages)))
         == 1 + ServedCount(left, Lengths(pieces[1..]), Lengths(Renders(messages[1..])))
  {
    LengthsTail(pieces);
    RendersTail(messages);
    LengthsTail(Renders(messages));
  }

  lemma CountOfPart(have: nat, pieces: seq<string>, messages: seq<Message>)
    requires pieces != [] && messages != [] && have + |pieces[0]| < |Render(messages[0])|
    ensures ServedCount(have, Lengths(pieces), Lengths(Renders(messages)))
         == ServedCount(have + |pieces[0]|, Lengths(pieces[1..]), Lengths(Renders(messages)))
  {
    LengthsTail(pieces);
    RendersTail(messages);
    LengthsTail(Renders(messages));
  }

  lemma ServedWhole(p: Intake, q: Intake, pieces: seq<string>)
    requires BodyInv(p) && pieces != [] && Parse(Receive(p, pieces[0])) == Parsed(q, Done)
    ensures Served(p, pieces) == [q] + Served(ResetRequest(q), pieces[1..])
  {
  }

  lemma ServedPart(p: Intake, q: Intake, pieces: seq<string>)
    requires BodyInv(p) && BodyInv(q) && pieces != [] && Parse(Receive(p, pieces[0])) == Parsed(q, More)
    ensures Served(p, pieces) == Served(q, pieces[1..])
  {
  }

  lemma OneMore(first: Intake, later: seq<Intake>, n: nat, messages: seq<Message>, config: ServerConfig)
    requires messages != [] && Holds(first, messages[0], config) && FirstOf(later, n, messages[1..], config)
    ensures FirstOf([first] + later, 1 + n, messages, config)
  {
    var done := [first] + later;
    forall i | 0 <= i < 1 + n ensures Holds(done[i], messages[i], config) {
      if i > 0 {
        assert done[i] == later[i - 1] && messages[i] == messages[1..][i - 1];
      }
    }
  }

  lemma ReadOfWhole(q: Intake, later: seq<Intake>, have: nat, left: nat, pieces: seq<string>, messages: seq<Message>,
    config: ServerConfig)
    requires pieces != [] && messages != [] && Holds(q, messages[0], config)
    requires |Render(messages[0])| + left == have + |pieces[0]|
    requires ServesInOrder(later, left, pieces[1..], messages[1..], config)
    ensures ServesInOrder([q] + later, have, pieces, messages, config)
  {
    CountOfWhole(have, left, pieces, messages);
    OneMore(q, later, ServedCount(left, Lengths(pieces[1..]), Lengths(Renders(messages[1..]))), messages, config);
  }

  lemma ReadOfPart(done: seq<Intake>, have: nat, now: nat, pieces: seq<string>, messages: seq<Message>,
    config: ServerConfig)
    requires pieces != [] && messages != [] && now == have + |pieces[0]| < |Render(messages[0])|
    requires ServesInOrder(done, now, pieces[1..], messages, config)
    ensures ServesInOrder(done, have, pieces, messages, config)
  {
    CountOfPart(have, pieces, messages);
  }

  // ------------------------------------------------ when all of them complete

  /** Where message `k` ends in the stream. */
  function EndOf(lens: seq<nat>, k: nat): nat
    requires k < |lens|
    decreases k
  {
    lens[0] + if k == 0 then 0 else EndOf(lens[1..], k - 1)
  }

  /** The reads after which the stream is there up to `end`. */
  function LateReads(have: nat, sizes: seq<nat>, end: nat): (n: nat)
    ensures n <= |sizes|
    decreases |sizes|
  {
    if sizes == [] then 0
    else (if have + sizes[0] >= end then 1 else 0) + LateReads(have + sizes[0], sizes[1..], end)
  }

  lemma {:induction false} AllLate(have: nat, sizes: seq<nat>, end: nat)
    requires have >= end
    ensures LateReads(have, sizes, end) == |sizes|
    decreases |sizes|
  {
    if sizes != [] {
      AllLate(have + sizes[0], sizes[1..], end);
    }
  }

  lemma {:induction false} LateShift(have: nat, sizes: seq<nat>, end: nat, n: nat)
    requires n <= have && n <= end
    ensures LateReads(have - n, sizes, end - n) == LateReads(have, sizes, end)
    decreases |sizes|
  {
    if sizes != [] {
      LateShift(have + sizes[0], sizes[1..], end, n);
    }
  }

  /** For every message, itself and those behind it have as many reads as they are, not counting earlier reads. */
  ghost predicate EnoughReads(have: nat, sizes: seq<nat>, lens: seq<nat>) {
    forall k: nat | k < |lens| :: LateReads(have, sizes, EndOf(lens, k)) >= |lens| - k
  }

  lemma LateAfterRead(have: nat, sizes: seq<nat>, lens: seq<nat>, k: nat)
    requires sizes != [] && lens != [] && have + sizes[0] >= lens[0] && 0 < k < |lens|
    ensures var h := have + sizes[0]; var later := LateReads(h - lens[0], sizes[1..], EndOf(lens[1..], k - 1));
            if h >= EndOf(lens, k) then LateReads(have, sizes, EndOf(lens, k)) == |sizes| && later == |sizes| - 1
            else LateReads(have, sizes, EndOf(lens, k)) == later
  {
    var h := have + sizes[0];
    LateShift(h, sizes[1..], EndOf(lens, k), lens[0]);
    if h >= EndOf(lens, k) {
      AllLate(h, sizes[1..], EndOf(lens, k));
    }
  }

  lemma EnoughAfterWhole(have: nat, sizes: seq<nat>, lens: seq<nat>)
    requires sizes != [] && lens != [] && have + sizes[0] >= lens[0]
    ensures EnoughReads(have, sizes, lens) <==> EnoughReads(have + sizes[0] - lens[0], sizes[1..], lens[1..])
  {
    var h := have + sizes[0];
    AllLate(h, sizes[1..], lens[0]);
    assert LateReads(have, sizes, EndOf(lens, 0)) == |sizes|;
    if EnoughReads(have, sizes, lens) {
      forall k: nat | k < |lens[1..]|
        ensures LateReads(h - lens[0], sizes[1..], EndOf(lens[1..], k)) >= |lens[1..]| - k
      {
        LateAfterRead(have, sizes, lens, k + 1);
      }
    }
    if EnoughReads(h - lens[0], sizes[1..], lens[1..]) {
      forall k: nat | k < |lens| ensures LateReads(have, sizes, EndOf(lens, k)) >= |lens| - k {
        if k > 0 {
          LateAfterRead(have, sizes, lens, k);
        } else if |lens| > 1 {
          assert LateReads(h - lens[0], sizes[1..], EndOf(lens[1..], 0)) >= |lens| - 1;
        }
      }
    }
  }

  lemma EnoughAfterPart(have: nat, sizes: seq<nat>, lens: seq<nat>)
    requires sizes != [] && (lens != [] ==> have + sizes[0] < lens[0])
    ensures EnoughReads(have, sizes, lens) <==> EnoughReads(have + sizes[0], sizes[1..], lens)
  {
    forall k: nat | k < |lens|
      ensures LateReads(have, sizes, EndOf(lens, k)) == LateReads(have + sizes[0], sizes[1..], EndOf(lens, k))
    {
    }
  }

  lemma {:induction false} CountIsAllIff(have: nat, sizes: seq<nat>, lens: seq<nat>)
    ensures ServedCount(have, sizes, lens) <= |lens|
    ensures ServedCount(have, sizes, lens) == |lens| <==> EnoughReads(have, sizes, lens)
    decreases |sizes|
  {
    if sizes == [] {
      if lens != [] {
        assert LateReads(have, sizes, EndOf(lens, 0)) == 0;
      }
    } else if lens != [] && have + sizes[0] >= lens[0] {
      EnoughAfterWhole(have, sizes, lens);
      CountIsAllIff(have + sizes[0] - lens[0], sizes[1..], lens[1..]);
    } else {
      EnoughAfterPart(have, sizes, lens);
      CountIsAllIff(have + sizes[0], sizes[1..], lens);
    }
  }

  /**
   * All requests of the stream complete if and only if, for each of them, there are as many
   * reads from the one that ends it on as there are requests from it on: a request that came
   * with the end of the one before waits for a further read.
   */
  lemma AllServedIff(p: Intake, p0: Intake, x: string, pieces: seq<string>, messages: seq<Message>)
    requires ActsLike(p, p0, x) && AllWellFormed(messages, p.config)
    requires forall i | 0 <= i < |pieces| :: pieces[i] != ""
    requires x + Concat(pieces) <= RenderAll(messages)
    ensures |Served(p, pieces)| == |messages| <==> EnoughReads(|x|, Lengths(pieces), Lengths(Renders(messages)))
  {
    StreamServedInOrder(p, p0, x, pieces, messages);
    CountIsAllIff(|x|, Lengths(pieces), Lengths(Renders(messages)));
  }

  lemma PrefixOfBoth(y: string, rest: string, first: string, others: string)
    requires y + rest <= first + others && |y| >= |first|
    ensures y == first + y[|first|..] && y[|first|..] + rest <= others
  {
    assert forall k | 0 <= k < |first| :: y[k] == (y + rest)[k] == (first + others)[k] == first[k];
    assert |y[..|first|]| == |first| && forall k | 0 <= k < |first| :: y[..|first|][k] == first[k];
    var z := y[|first|..];
    assert forall k | 0 <= k < |z + rest| :: (z + rest)[k] == (y + rest)[k + |first|] == others[k];
  }

  lemma PrefixOfFirst(y: string, rest: string, first: string, others: string)
    requires y + rest <= first + others && |y| < |first|
    ensures first == y + first[|y|..]
  {
    assert forall k | 0 <= k < |y| :: y[k] == (y + rest)[k] == (first + others)[k] == first[k];
    assert |first[..|y|]| == |y| && forall k | 0 <= k < |y| :: first[..|y|][k] == y[k];
  }

  // --------------------------------------------------- requests without headers

  /**
   * Without a header line the CRLF of the request line is gone when the parser looks for
   * the blank line: the request stays incomplete although all of it arrived.
   */
  lemma NoHeaderRequestWaits(p: Intake, line: string)
    requires Ready(p) && p.state.ReadSuccess? && NoCr(line) && ReadRequestLine(line, p.config).Some?
    requires p.buffer == line + CRLF + CRLF
    ensures Parse(p).verdict.More?
  {
    StartPhase(p, line, CRLF);
    var p1 := AtStart(p).intake;
    assert p1.buffer == CRLF;
  }

  /** A request that is well formed but for the number of its header lines. */
  predicate WellFormedUpToHeaders(m: Message, config: ServerConfig) {
    WellFormed(m.(headers := if m.headers == [] then ["x"] else m.headers), config)
  }

  /** A bodyless request, alone in the buffer, completes if and only if it has a header line. */
  lemma CompletesIffHeaders(p: Intake, m: Message)
    requires Ready(p) && p.state.ReadSuccess? && m.framing.NoBody? && WellFormedUpToHeaders(m, p.config)
    requires p.buffer == Render(m)
    ensures Parse(p).verdict.Done? <==> m.headers != []
  {
    if m.headers == [] {
      assert p.buffer == m.line + CRLF + CRLF;
      NoHeaderRequestWaits(p, m.line);
    } else {
      assert p.buffer == Render(m) + "";
      MessageIsParsed(p, m, "");
    }
  }
}
