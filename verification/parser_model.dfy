/**
 * What one call of the request parser computes, as functions on values. The methods of
 * module RequestParser are proved equal to these; the theorems are about these.
 */
module ParserModel {
  import opened Wrappers
  import opened Text
  import opened Numerals
  import opened Config
  import opened BodyStore

  datatype IoState =
    | Reset | ReadSuccess | ReadIncomplete | ReadError | ReadEmpty
    | ParseIncomplete | ParseTooLarge | ParseOk | ParseError
    | CgiJustStarted | CgiInExecution | CgiCompleted

  datatype Phase = Start | Header | Body | Finished

  datatype ChunkState = Size | Data | Crlf | Last

  datatype ChunkParser = ChunkParser(state: ChunkState, size: nat, read: nat)

  datatype LengthParser = LengthParser(length: nat, read: nat, known: bool)

  const FRESH_CHUNK := ChunkParser(Size, 0, 0)
  const FRESH_LENGTH := LengthParser(0, 0, false)

  datatype RequestLine =
    RequestLine(verb: string, uri: string, query: string, protocol: string, location: Option<Location>)

  const NO_LINE := RequestLine("", "", "", "", None)

  /** A client's request object together with its read buffer and discard counters. */
  datatype Intake = Intake(
    config: ServerConfig,
    phase: Phase,
    line: RequestLine,
    headers: map<string, string>,
    store: Store,
    chunk: ChunkParser,
    length: LengthParser,
    buffer: string,
    discarding: bool,
    toDiscard: nat,
    state: IoState)

  /** `NullLocation` is the crash of dereferencing an unmatched location. */
  datatype Verdict = More | Done | NullLocation

  datatype Parsed = Parsed(intake: Intake, verdict: Verdict)

  datatype Step = Next(intake: Intake) | Stop(intake: Intake, verdict: Verdict)

  function MaxBuffer(p: Intake): nat {
    if p.line.location.Some? then p.line.location.value.maxBuffer else p.config.maxBuffer
  }

  function Min(a: nat, b: nat): nat {
    if a < b then a else b
  }

  /** Moves `n` bytes of the buffer into the body, or throws them away while discarding. */
  function Take(p: Intake, n: nat): Intake
    requires n <= |p.buffer|
  {
    var store := if p.discarding then p.store else Append(p.store, p.buffer[..n], MaxBuffer(p));
    p.(store := store, buffer := p.buffer[n..])
  }

  // ------------------------------------------------------------ chunked body

  predicate ChunkInv(c: ChunkParser) {
    c.state.Data? ==> c.read < c.size
  }

  /** `a + b` on `size_t`, for values below 2^64. */
  function WrapAdd(a: nat, b: nat): int {
    if a + b < TWO_64 then a + b else a + b - TWO_64
  }

  /** The guard on a chunk announced after `stored` bytes. */
  predicate OverLimit(stored: nat, size: nat, maxBody: nat) {
    WrapAdd(stored, size) > maxBody
  }

  /** A size line that ends at `end` announces `size` bytes. */
  function Announce(p: Intake, end: nat, size: nat): Step
    requires end + 2 <= |p.buffer|
  {
    var q := p.(buffer := p.buffer[end + 2..], chunk := p.chunk.(size := size));
    if !p.discarding && p.line.location.None? then Stop(q, NullLocation)
    else
      var over := !p.discarding && OverLimit(|p.store.text|, size, p.line.location.value.maxBody);
      Next(q.(
        discarding := p.discarding || over,
        chunk := if size == 0 then q.chunk.(state := Last) else ChunkParser(Data, size, 0)))
  }

  function StepSize(p: Intake): Step {
    match IndexOf(p.buffer, CRLF)
    case None => Stop(p, More)
    case Some(end) => Announce(p, end, StrToUl(p.buffer[..end], 16))
  }

  function StepData(p: Intake): (s: Step)
    requires p.chunk.read < p.chunk.size
    ensures s.Stop? <==> p.chunk.read + |p.buffer| < p.chunk.size
    ensures s.Stop? ==> s.intake.buffer == "" && s.verdict.More?
  {
    var n := Min(p.chunk.size - p.chunk.read, |p.buffer|);
    var q := Take(p, n);
    var read := p.chunk.read + n;
    if read == p.chunk.size then Next(q.(chunk := ChunkParser(Crlf, p.chunk.size, read)))
    else Stop(q.(chunk := p.chunk.(read := read)), More)
  }

  function StepCrlf(p: Intake): Step {
    if |p.buffer| < 2 then Stop(p, More)
    else Next(p.(buffer := p.buffer[2..], chunk := p.chunk.(state := Size)))
  }

  function StepLast(p: Intake): Step {
    if |p.buffer| < 2 then Stop(p, More)
    else Stop(p.(buffer := p.buffer[2..], state := if p.discarding then ParseTooLarge else p.state), Done)
  }

  function ChunkStep(p: Intake): (s: Step)
    requires ChunkInv(p.chunk)
    ensures ChunkInv(s.intake.chunk)
    ensures p.buffer != "" && s.Next? ==> |s.intake.buffer| < |p.buffer|
  {
    match p.chunk.state
    case Size => StepSize(p)
    case Data => StepData(p)
    case Crlf => StepCrlf(p)
    case Last => StepLast(p)
  }

  /** `parseChunkBody`. */
  function ParseChunks(p: Intake): (r: Parsed)
    requires ChunkInv(p.chunk)
    ensures ChunkInv(r.intake.chunk)
    decreases |p.buffer|
  {
    if p.buffer == "" then Parsed(p, More)
    else
      match ChunkStep(p)
      case Next(q) => ParseChunks(q)
      case Stop(q, v) => Parsed(q, v)
  }

  // ----------------------------------------------------- Content-Length body

  /** `discardingBody`: the bytes after the body are counted a second time. */
  function DiscardBody(p: Intake): Intake {
    if |p.buffer| >= p.toDiscard then
      p.(buffer := p.buffer[p.toDiscard..], toDiscard := 0, discarding := false, state := ParseTooLarge)
    else p.(toDiscard := p.toDiscard - |p.buffer|, buffer := "")
  }

  function TakeOfLength(p: Intake, n: nat): Intake
    requires n <= |p.buffer|
  {
    Take(p, n).(length := p.length.(read := p.length.read + n))
  }

  /** The verdict once the available body bytes were moved. */
  function LengthVerdict(q: Intake): Parsed {
    Parsed(
      if q.discarding then DiscardBody(q).(state := ParseTooLarge) else q,
      if q.length.read >= q.length.length then Done else More)
  }

  /** The part of `parseContentLengthBody` after the length is known. */
  function ReadLength(p: Intake): Parsed
    requires p.length.read <= p.length.length
  {
    var n := Min(|p.buffer|, p.length.length - p.length.read);
    if n == 0 && p.length.length > 0 then Parsed(p, More) else LengthVerdict(TakeOfLength(p, n))
  }

  predicate HasLength(headers: map<string, string>) {
    "Content-Length" in headers
  }

  /** The first call for a body: the length is read and compared with the limit. */
  function StartLength(p: Intake, length: nat): Intake {
    var q := p.(length := LengthParser(length, 0, true));
    if p.line.location.Some? && length > p.line.location.value.maxBody
    then q.(discarding := true, toDiscard := length) else q
  }

  /** `parseContentLengthBody`. */
  function ParseLength(p: Intake): Parsed
    requires p.length.read <= p.length.length
    requires HasLength(p.headers)
  {
    if p.length.known then ReadLength(p)
    else
      var q := StartLength(p, StrToUl(p.headers["Content-Length"], 10));
      if p.line.location.None? then Parsed(q, NullLocation) else ReadLength(q)
  }

  // ---------------------------------------------------------- whole requests

  predicate IsChunked(headers: map<string, string>) {
    "Transfer-Encoding" in headers && headers["Transfer-Encoding"] == "chunked"
  }

  predicate BodyInv(p: Intake) {
    ChunkInv(p.chunk) && p.length.read <= p.length.length
  }

  /** `parseRequestBody`. */
  function ParseBody(p: Intake): Parsed
    requires BodyInv(p)
  {
    if IsChunked(p.headers) then ParseChunks(p)
    else if HasLength(p.headers) then ParseLength(p)
    else Parsed(p.(store := if p.store.InMemory? then EMPTY_STORE else p.store), Done)
  }

  /** The three parts of a request line, with the URI decoded, matched and cut at its query. */
  function RequestLineOf(verb: string, rawUri: string, protocol: string, config: ServerConfig): RequestLine {
    var uri := DecodedUri(rawUri);
    var q := IndexOf(uri, "?");
    RequestLine(
      verb,
      if q.Some? then uri[..q.value] else uri,
      if q.Some? then uri[q.value + 1..] else "",
      protocol,
      MatchLocation(uri, config.locations))
  }

  /** Where the first two spaces of a line are. */
  function SpacesOf(text: string): (spaces: Option<(nat, nat)>)
    ensures spaces.Some? ==> spaces.value.0 < spaces.value.1 < |text|
  {
    match IndexOf(text, " ")
    case None => None
    case Some(m) =>
      match IndexOf(text, " ", m + 1)
      case None => None
      case Some(u) => Some((m, u))
  }

  /** `parseRequestLine` and `parseRequestQueries`. */
  function ReadRequestLine(text: string, config: ServerConfig): Option<RequestLine> {
    match SpacesOf(text)
    case None => None
    case Some((m, u)) => Some(RequestLineOf(text[..m], text[m + 1..u], text[u + 1..], config))
  }

  /** One header line; a line without a colon is skipped. */
  function PutHeader(headers: map<string, string>, line: string): map<string, string> {
    match IndexOf(line, ":")
    case None => headers
    case Some(colon) => headers[Trim(line[..colon]) := Trim(line[colon + 1..])]
  }

  /** `parseRequestHeaders` on a block that ends with the CRLF of its last line. */
  function ReadHeaders(headers: map<string, string>, block: string): map<string, string>
    decreases |block|
  {
    match IndexOf(block, CRLF)
    case None => headers
    case Some(end) =>
      if end == 0 then headers
      else ReadHeaders(PutHeader(headers, block[..end]), block[end + 2..])
  }

  function AtStart(p: Intake): Step {
    match IndexOf(p.buffer, CRLF)
    case None => Stop(p.(state := ParseIncomplete), More)
    case Some(end) =>
      match ReadRequestLine(p.buffer[..end], p.config)
      case None => Stop(p.(state := ParseIncomplete), More)
      case Some(line) => Next(p.(line := line, buffer := p.buffer[end + 2..], phase := Header))
  }

  function AtHeader(p: Intake): Step {
    match IndexOf(p.buffer, CRLF2)
    case None => Stop(p.(state := ParseIncomplete), More)
    case Some(end) =>
      Next(p.(headers := ReadHeaders(p.headers, p.buffer[..end + 2]), buffer := p.buffer[end + 4..], phase := Body))
  }

  function Finish(p: Intake): Intake {
    p.(chunk := FRESH_CHUNK,
       phase := Start,
       state := if p.state == ParseError || p.state == ParseTooLarge then p.state else ParseOk)
  }

  function AtBody(p: Intake): Parsed
    requires BodyInv(p)
  {
    var r := ParseBody(p);
    match r.verdict
    case More => Parsed(r.intake.(state := ParseIncomplete), More)
    case Done => Parsed(Finish(r.intake), Done)
    case NullLocation => r
  }

  function FromHeader(p: Intake): Parsed
    requires BodyInv(p)
  {
    match AtHeader(p)
    case Stop(q, v) => Parsed(q, v)
    case Next(q) => AtBody(q)
  }

  /** `parseRequestBuffer`. */
  function Parse(p: Intake): Parsed
    requires BodyInv(p)
  {
    match p.phase
    case Start =>
      (match AtStart(p)
       case Stop(q, v) => Parsed(q, v)
       case Next(q) => FromHeader(q))
    case Header => FromHeader(p)
    case Body => AtBody(p)
    case Finished => Parsed(Finish(p), Done)
  }

  /** `readFromClientSocket` with some bytes. */
  function Receive(p: Intake, bytes: string): Intake {
    p.(buffer := p.buffer + bytes, state := ReadSuccess)
  }

  /** The request part of `resetClientState`: read buffer and discard counters stay. */
  function ResetRequest(p: Intake): Intake {
    p.(phase := Start, line := NO_LINE, headers := map[], store := EMPTY_STORE,
       chunk := FRESH_CHUNK, length := FRESH_LENGTH, state := Reset)
  }
}
