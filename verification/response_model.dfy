/** What the response builders and the CGI chunk machine compute, as functions on values. */
module ResponseModel {
  import opened Wrappers
  import opened Text
  import opened Numerals
  import opened StringOrder

  datatype CgiChunkState = ParseHeaders | StreamBody | ChunkFinished

  datatype Reply = Reply(
    protocol: string,
    connection: Option<string>,
    range: Option<string>,
    statusCode: string,
    statusMsg: string,
    body: string,
    headers: map<string, string>,
    isChunked: bool,
    headersParsed: bool,
    chunkState: CgiChunkState,
    outBuffer: string)

  const FRESH_REPLY := Reply("HTTP/1.1", None, None, "", "", "", map[], false, false, ParseHeaders, "")

  datatype Status = Status(code: string, message: string)

  const HTTP_OK := Status("200", "OK")
  const HTTP_PARTIAL_CONTENT := Status("206", "Partial Content")
  const HTTP_PAYLOAD := Status("413", "Payload Too Large")
  const HTTP_RANGE_NOT_SATISFIABLE := Status("416", "Range Not Satisfiable")
  const HTTP_SERVER_ERR := Status("500", "Internal Server Error")

  const CONTENT_LENGTH := "Content-Length"
  const TRANSFER_ENCODING := "Transfer-Encoding"

  /** `initFromRequest`. */
  function InitFromRequest(r: Reply, protocol: string, headers: map<string, string>): Reply {
    r.(protocol := if protocol != "" then protocol else "HTTP/1.1",
       connection := Some(if "Connection" in headers then headers["Connection"] else "close"),
       range := if "Range" in headers then Some(headers["Range"]) else r.range)
  }

  /** `setDefaultHeaders`; the clock is a parameter. */
  function SetDefaultHeaders(r: Reply, date: string): Reply {
    var h0 := r.headers["Date" := date];
    var h1 := if r.isChunked then h0 else h0[CONTENT_LENGTH := Digits(|r.body|, 10)];
    var h2 := if r.connection.Some? then h1["Connection" := r.connection.value] else h1;
    r.(headers := h2)
  }

  function AddHeader(r: Reply, key: string, value: string): Reply {
    r.(headers := r.headers[key := value])
  }

  /** `buildResponse`. */
  function BuildResponse(r: Reply, status: Status, body: string, date: string): Reply {
    SetDefaultHeaders(r.(statusCode := status.code, statusMsg := status.message, body := body), date)
  }

  /** `buildErrorResponse` without a configured page; `html` is the generated one. */
  function GeneratedPage(r: Reply, status: Status, html: string, date: string): Reply {
    var q := AddHeader(BuildResponse(r, status, html, date), "Content-Type", "text/html");
    if status.code != "" && (status.code[0] == '4' || status.code[0] == '5') then AddHeader(q, "Connection", "close")
    else q
  }

  /** `buildFileResponse` of a page; the connection stays as the request asked. */
  function FilePage(r: Reply, status: Status, contents: string, contentType: string, date: string): Reply {
    AddHeader(BuildResponse(r, status, contents, date), "Content-Type", contentType)
  }

  /** Why a range of a page is not sent. */
  type RangeRefusal = s: Status | s == HTTP_RANGE_NOT_SATISFIABLE || s == HTTP_SERVER_ERR
    witness HTTP_SERVER_ERR

  /**
   * Where the page of an error response comes from. A request for a range gets a part of a
   * configured page, with status 206, or the generated page of the error this led to.
   */
  datatype PageSource =
    | Generated(html: string)
    | Configured(contents: string, contentType: string)
    | ConfiguredRange(slice: string, contentType: string)
    | RangeRefused(refusal: RangeRefusal, html: string)

  /** `buildErrorResponse`. */
  function BuildErrorResponse(r: Reply, status: Status, source: PageSource, date: string): Reply {
    match source
    case Generated(html) => GeneratedPage(r, status, html, date)
    case Configured(contents, contentType) => FilePage(r, status, contents, contentType, date)
    case ConfiguredRange(slice, contentType) => FilePage(r, HTTP_PARTIAL_CONTENT, slice, contentType, date)
    case RangeRefused(refusal, html) => GeneratedPage(r, refusal, html, date)
  }

  /** `initChunked`. */
  function InitChunked(r: Reply, date: string): Reply {
    if r.isChunked then r
    else
      var q := SetDefaultHeaders(r.(isChunked := true), date);
      q.(headers := (q.headers - {CONTENT_LENGTH})[TRANSFER_ENCODING := "chunked"])
  }

  function HeaderLine(key: string, value: string): string {
    key + ": " + value
  }

  function HeaderLines(order: seq<string>, headers: map<string, string>): (lines: seq<string>)
    requires forall i | 0 <= i < |order| :: order[i] in headers
    ensures |lines| == |order|
  {
    seq(|order|, i requires 0 <= i < |order| => HeaderLine(order[i], headers[order[i]]))
  }

  /** The header lines in the order of the map. */
  function HeaderLinesOf(headers: map<string, string>): seq<string> {
    SortedKeysEnumerate(headers.Keys);
    HeaderLines(SortedKeys(headers.Keys), headers)
  }

  function StatusLine(r: Reply): string {
    r.protocol + " " + r.statusCode + " " + r.statusMsg
  }

  /** Status line, header lines and the blank line. */
  function HeadText(r: Reply): string {
    StatusLine(r) + CRLF + (Lines(HeaderLinesOf(r.headers)) + CRLF)
  }

  /** `buildResponseString`. */
  function ResponseText(r: Reply): string {
    if r.statusCode == "" then ""
    else HeadText(r) + if r.isChunked then "" else r.body
  }

  // -------------------------------------------------------------- CGI headers

  /** The lines `std::getline` yields. */
  function GetLines(text: string): seq<string>
    decreases |text|
  {
    if text == "" then []
    else
      match IndexOf(text, "\n")
      case None => [text]
      case Some(k) => [text[..k]] + GetLines(text[k + 1..])
  }

  function DropCr(line: string): string {
    if line != "" && line[|line| - 1] == '\r' then line[..|line| - 1] else line
  }

  function SkipBlanks(s: string): string {
    if s != "" && (s[0] == ' ' || s[0] == '\t') then SkipBlanks(s[1..]) else s
  }

  /** `find_first_not_of(" \t")` and `substr`: an all-blank value stays as it is. */
  function CgiValue(s: string): string {
    if SkipBlanks(s) == "" then s else SkipBlanks(s)
  }

  datatype CgiHead = CgiHead(headers: map<string, string>, status: Option<Status>, hasType: bool)

  function ReadCgiLine(h: CgiHead, line: string): CgiHead {
    match IndexOf(line, ":")
    case None => h
    case Some(colon) =>
      var key := line[..colon];
      var value := CgiValue(line[colon + 1..]);
      if key == "Status" then
        var space := IndexOf(value, " ");
        h.(status := Some(Status(
          if |value| <= 3 then value else value[..3],
          if space.Some? then value[space.value + 1..] else "")))
      else h.(headers := h.headers[key := value], hasType := h.hasType || key == "Content-Type")
  }

  function ReadCgiLines(h: CgiHead, lines: seq<string>): CgiHead
    decreases |lines|
  {
    if lines == [] || lines[0] == "" || lines[0] == "\r" then h
    else ReadCgiLines(ReadCgiLine(h, DropCr(lines[0])), lines[1..])
  }

  const LF2 := "\n\n"

  /** Where the CGI header block ends and its separator's length. */
  function Separator(buffer: string): (sep: Option<(nat, nat)>)
    ensures sep.Some? ==> sep.value.0 + sep.value.1 <= |buffer|
  {
    match IndexOf(buffer, CRLF2)
    case Some(k) => Some((k, 4))
    case None =>
      match IndexOf(buffer, LF2)
      case Some(k) => Some((k, 2))
      case None => None
  }

  function WithCgiHead(r: Reply, h: CgiHead): Reply {
    var status := if h.status.Some? then h.status.value else HTTP_OK;
    r.(statusCode := status.code, statusMsg := status.message, headersParsed := true,
       headers := if h.hasType then h.headers else h.headers["Content-Type" := "text/html"])
  }

  function TakeCgiHead(r: Reply, headers: string): Reply {
    WithCgiHead(r, ReadCgiLines(CgiHead(r.headers, None, false), GetLines(headers)))
  }

  datatype CgiStep = CgiStep(reply: Reply, buffer: string)

  /** `parseCgiHeaders`; `None` is its `false`. */
  function ParseCgiHeaders(r: Reply, buffer: string): (s: Option<CgiStep>)
    ensures s.Some? <==> Separator(buffer).Some?
  {
    match Separator(buffer)
    case None => None
    case Some(sep) => Some(CgiStep(TakeCgiHead(r, buffer[..sep.0]), buffer[sep.0 + sep.1..]))
  }

  // ------------------------------------------------------------ chunk machine

  /** `appendChunk` on its own. */
  function EncodePiece(piece: string): string {
    Digits(|piece|, 16) + CRLF + piece + CRLF
  }

  const TERMINATOR := "0\r\n\r\n"

  /** `finishCgiChunked`. */
  function Terminate(r: Reply): Reply {
    if r.chunkState.ChunkFinished? then r
    else r.(outBuffer := r.outBuffer + TERMINATOR, chunkState := ChunkFinished)
  }

  /** The head goes out and the body may stream. */
  function StartStream(r: Reply, date: string): Reply {
    var q := InitChunked(r, date);
    q.(outBuffer := q.outBuffer + ResponseText(q), chunkState := StreamBody)
  }

  function StreamPiece(s: CgiStep): CgiStep {
    if s.reply.chunkState.StreamBody? && s.buffer != "" then
      CgiStep(s.reply.(outBuffer := s.reply.outBuffer + EncodePiece(s.buffer)), "")
    else s
  }

  /** The first part of `appendCgiChunk(buffer)`: `None` is its early return without a header block. */
  function Open(r: Reply, buffer: string, date: string): Option<CgiStep> {
    if !r.chunkState.ParseHeaders? then Some(CgiStep(r, buffer))
    else
      match ParseCgiHeaders(r, buffer)
      case None => None
      case Some(s) => Some(CgiStep(StartStream(s.reply, date), s.buffer))
  }

  /** The first part of `appendCgiChunk(buffer, true)`. */
  function OpenFinal(r: Reply, buffer: string, date: string): CgiStep {
    if !r.chunkState.ParseHeaders? then CgiStep(r, buffer)
    else CgiStep(StartStream(if r.headersParsed then r else BuildResponse(r, HTTP_OK, "", date), date), buffer)
  }

  /** `appendCgiChunk(buffer)`: the call in the middle of the output. */
  function AppendMiddle(r: Reply, buffer: string, date: string): CgiStep {
    match Open(r, buffer, date)
    case None => CgiStep(r, buffer)
    case Some(s) => StreamPiece(s)
  }

  /** `appendCgiChunk(buffer, true)`: the last call. */
  function AppendFinal(r: Reply, buffer: string, date: string): CgiStep {
    var s := StreamPiece(OpenFinal(r, buffer, date));
    CgiStep(Terminate(s.reply), s.buffer)
  }
}
