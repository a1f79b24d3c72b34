/** Header blocks survive printing and parsing, and every response announces its body correctly. */
module Framing {
  import opened Wrappers
  import opened Text
  import opened Numerals
  import opened StringOrder
  import opened ParserModel
  import opened ResponseModel
  import P = Pipelining

  // ------------------------------------------------------ header round trip

  /** A header that can be printed on one line and told apart again. */
  predicate Printable(key: string, value: string) {
    NoCr(key) && NoCr(value) && Trimmed(key) && Trimmed(value) && ':' !in key
  }

  predicate PrintableMap(headers: map<string, string>) {
    forall key | key in headers :: Printable(key, headers[key])
  }

  lemma HeaderLineRead(headers: map<string, string>, key: string, value: string)
    requires Printable(key, value)
    ensures PutHeader(headers, HeaderLine(key, value)) == headers[key := value]
  {
    HeaderLineCut(key, value);
    TrimPadded("", key, "");
    TrimPadded(" ", value, "");
    assert "" + key + "" == key && " " + value + "" == " " + value;
  }

  /** A header line is cut at its first colon. */
  lemma HeaderLineCut(key: string, value: string)
    requires ':' !in key
    ensures var line := HeaderLine(key, value);
            IndexOf(line, ":") == Some(|key|) && line[..|key|] == key && line[|key| + 1..] == " " + value
  {
    assert HeaderLine(key, value) == key + ":" + (" " + value);
    FirstAfter(key, ":", " " + value);
  }

  lemma HeaderLineNoCr(key: string, value: string)
    requires Printable(key, value)
    ensures NoCr(HeaderLine(key, value)) && HeaderLine(key, value) != ""
  {
  }

  /** The part of a map that an order names. */
  function Restricted(headers: map<string, string>, order: seq<string>): map<string, string> {
    map key | key in headers && key in order :: headers[key]
  }

  lemma {:induction false} HeaderLinesRead(start: map<string, string>, headers: map<string, string>, order: seq<string>)
    requires PrintableMap(headers) && forall i | 0 <= i < |order| :: order[i] in headers
    ensures var lines := HeaderLines(order, headers);
            P.GoodHeaders(lines) && P.HeaderMap(start, lines) == start + Restricted(headers, order)
    decreases |order|
  {
    var lines := HeaderLines(order, headers);
    if order == [] {
      assert Restricted(headers, order) == map[];
    } else {
      HeaderLineRead(start, order[0], headers[order[0]]);
      HeaderLineNoCr(order[0], headers[order[0]]);
      HeaderLinesRead(start[order[0] := headers[order[0]]], headers, order[1..]);
      assert lines[1..] == HeaderLines(order[1..], headers);
      RestrictedCons(start, headers, order);
    }
  }

  lemma RestrictedCons(start: map<string, string>, headers: map<string, string>, order: seq<string>)
    requires order != [] && order[0] in headers
    ensures start[order[0] := headers[order[0]]] + Restricted(headers, order[1..]) == start + Restricted(headers, order)
  {
    var l := start[order[0] := headers[order[0]]] + Restricted(headers, order[1..]);
    var r := start + Restricted(headers, order);
    assert forall key :: key in order <==> key == order[0] || key in order[1..];
    forall key ensures key in l <==> key in r {
    }
    forall key | key in l ensures l[key] == r[key] {
    }
  }

  /** Printing a header map and parsing the block gives the map back. */
  lemma HeaderRoundTrip(headers: map<string, string>)
    requires PrintableMap(headers)
    ensures ReadHeaders(map[], Lines(HeaderLinesOf(headers))) == headers
    ensures P.GoodHeaders(HeaderLinesOf(headers))
  {
    SortedKeysEnumerate(headers.Keys);
    var order := SortedKeys(headers.Keys);
    HeaderLinesRead(map[], headers, order);
    P.ReadBlock(map[], HeaderLinesOf(headers));
    assert map[] + Restricted(headers, order) == headers;
  }

  // ---------------------------------------------------------- announced length

  /** Either chunked and no length, or the length of the body and not chunked. */
  predicate Framed(r: Reply) {
    if r.isChunked then
      TRANSFER_ENCODING in r.headers && r.headers[TRANSFER_ENCODING] == "chunked" && CONTENT_LENGTH !in r.headers
    else r.statusCode != "" ==>
      TRANSFER_ENCODING !in r.headers && CONTENT_LENGTH in r.headers
        && r.headers[CONTENT_LENGTH] == Digits(|r.body|, 10)
  }

  /** No builder has announced a transfer coding on its own. */
  predicate NoCoding(r: Reply) {
    !r.isChunked ==> TRANSFER_ENCODING !in r.headers
  }

  datatype Build =
    | FromRequest(protocol: string, headers: map<string, string>)
    | Page(status: Status, body: string, date: string)
    | ErrorPage(status: Status, source: PageSource, date: string)
    | Header(key: string, value: string)
    | MiddleOfCgi(buffer: string, date: string)
    | EndOfCgi(buffer: string, date: string)

  /** A header the router adds; the two framing headers are not among them. */
  predicate Plain(b: Build) {
    match b
    case Header(key, _) => key != CONTENT_LENGTH && key != TRANSFER_ENCODING
    case Page(status, _, _) => status.code != ""
    case ErrorPage(status, _, _) => status.code != ""
    case MiddleOfCgi(_, date) => true
    case EndOfCgi(_, date) => true
    case FromRequest(_, _) => true
  }

  function Apply(r: Reply, b: Build): Reply {
    match b
    case FromRequest(protocol, headers) => InitFromRequest(r, protocol, headers)
    case Page(status, body, date) => BuildResponse(r, status, body, date)
    case ErrorPage(status, source, date) => BuildErrorResponse(r, status, source, date)
    case Header(key, value) => AddHeader(r, key, value)
    case MiddleOfCgi(buffer, date) => AppendMiddle(r, buffer, date).reply
    case EndOfCgi(buffer, date) => AppendFinal(r, buffer, date).reply
  }

  function ApplyAll(r: Reply, builds: seq<Build>): Reply
    decreases |builds|
  {
    if builds == [] then r else ApplyAll(Apply(r, builds[0]), builds[1..])
  }

  /** What the builders keep: the framing, and that a chunked response never falls back. */
  predicate Sound(r: Reply) {
    Framed(r) && NoCoding(r) && (r.chunkState.ParseHeaders? <==> !r.isChunked)
  }

  lemma ConnectionIsNoFraming()
    ensures "Connection" != CONTENT_LENGTH && "Connection" != TRANSFER_ENCODING
    ensures "Date" != CONTENT_LENGTH && "Date" != TRANSFER_ENCODING
    ensures "Content-Type" != CONTENT_LENGTH && "Content-Type" != TRANSFER_ENCODING
    ensures CONTENT_LENGTH != TRANSFER_ENCODING
  {
    assert |"Connection"| == 10 && |CONTENT_LENGTH| == 14 && |TRANSFER_ENCODING| == 17 && |"Date"| == 4
      && |"Content-Type"| == 12;
  }

  lemma BuildResponseSound(r: Reply, status: Status, body: string, date: string)
    requires Sound(r) && status.code != ""
    ensures Sound(BuildResponse(r, status, body, date))
  {
    ConnectionIsNoFraming();
  }

  lemma ErrorPageSound(r: Reply, status: Status, source: PageSource, date: string)
    requires Sound(r) && status.code != ""
    ensures Sound(BuildErrorResponse(r, status, source, date))
  {
    ConnectionIsNoFraming();
    match source
    case Generated(html) => BuildResponseSound(r, status, html, date);
    case Configured(contents, _) => BuildResponseSound(r, status, contents, date);
    case ConfiguredRange(slice, _) => BuildResponseSound(r, HTTP_PARTIAL_CONTENT, slice, date);
    case RangeRefused(refusal, html) => BuildResponseSound(r, refusal, html, date);
  }

  lemma InitChunkedFramed(r: Reply, date: string)
    requires !r.isChunked
    ensures Framed(InitChunked(r, date)) && InitChunked(r, date).isChunked
      && InitChunked(r, date).chunkState == r.chunkState
  {
    ConnectionIsNoFraming();
  }

  lemma StartStreamSound(r: Reply, date: string)
    requires !r.isChunked
    ensures Sound(StartStream(r, date)) && StartStream(r, date).isChunked
  {
    InitChunkedFramed(r, date);
  }

  /** Emitting and terminating only touch the out-buffer and leave the header phase behind. */
  lemma StreamPieceSound(s: CgiStep)
    requires Sound(s.reply) && !s.reply.chunkState.ParseHeaders?
    ensures Sound(StreamPiece(s).reply) && !StreamPiece(s).reply.chunkState.ParseHeaders?
    ensures Sound(Terminate(StreamPiece(s).reply))
  {
  }

  lemma OpenSound(r: Reply, buffer: string, date: string) returns (h: CgiHead)
    requires r.chunkState.ParseHeaders? && Open(r, buffer, date).Some?
    ensures Open(r, buffer, date).value.reply == StartStream(WithCgiHead(r, h), date)
  {
    h := ReadCgiLines(CgiHead(r.headers, None, false), GetLines(buffer[..Separator(buffer).value.0]));
  }

  lemma MiddleSound(r: Reply, buffer: string, date: string)
    requires Sound(r)
    ensures Sound(AppendMiddle(r, buffer, date).reply)
  {
    if r.chunkState.ParseHeaders? {
      if Open(r, buffer, date).Some? {
        var h := OpenSound(r, buffer, date);
        StartStreamSound(WithCgiHead(r, h), date);
        StreamPieceSound(Open(r, buffer, date).value);
      }
    } else {
      StreamPieceSound(CgiStep(r, buffer));
    }
  }

  lemma EndSound(r: Reply, buffer: string, date: string)
    requires Sound(r)
    ensures Sound(AppendFinal(r, buffer, date).reply)
  {
    if r.chunkState.ParseHeaders? {
      StartStreamSound(if r.headersParsed then r else BuildResponse(r, HTTP_OK, "", date), date);
    }
    StreamPieceSound(OpenFinal(r, buffer, date));
  }

  lemma ApplySound(r: Reply, b: Build)
    requires Sound(r) && Plain(b)
    ensures Sound(Apply(r, b))
  {
    ConnectionIsNoFraming();
    match b
    case FromRequest(_, _) =>
    case Page(status, body, date) => BuildResponseSound(r, status, body, date);
    case ErrorPage(status, source, date) => ErrorPageSound(r, status, source, date);
    case Header(_, _) =>
    case MiddleOfCgi(buffer, date) => MiddleSound(r, buffer, date);
    case EndOfCgi(buffer, date) => EndSound(r, buffer, date);
  }

  /**
   * Framing is exclusive: from a fresh response, any sequence of builders ends either chunked
   * without a length, or with exactly the length of its body and without a transfer coding.
   */
  lemma {:induction false} FramingExclusive(r: Reply, builds: seq<Build>)
    requires Sound(r) && forall i | 0 <= i < |builds| :: Plain(builds[i])
    ensures Sound(ApplyAll(r, builds))
    decreases |builds|
  {
    if builds != [] {
      ApplySound(r, builds[0]);
      FramingExclusive(Apply(r, builds[0]), builds[1..]);
    }
  }

  lemma FreshIsSound()
    ensures Sound(FRESH_REPLY)
  {
  }

  // ------------------------------------------------------- the receiver's view

  lemma HeadSplit(head: string, lines: string, body: string)
    ensures head + CRLF + (lines + CRLF) + body == head + CRLF + (lines + CRLF + body)
  {
  }

  lemma CutBlock(lines: string, body: string)
    requires |lines| >= 2
    ensures var rest := lines + CRLF + body; var end := |lines| - 2;
            rest[..end + 2] == lines && rest[end + 4..] == body
  {
  }

  /** A printed header block with a body behind it is found and read again. */
  lemma BlockSeen(headers: map<string, string>, body: string) returns (end: nat)
    requires PrintableMap(headers) && headers != map[]
    ensures var rest := Lines(HeaderLinesOf(headers)) + CRLF + body;
            IndexOf(rest, CRLF2) == Some(end) && end + 4 <= |rest|
            && ReadHeaders(map[], rest[..end + 2]) == headers && rest[end + 4..] == body
  {
    var key :| key in headers;
    OneKeyAtLeast(headers, key);
    var lines := HeaderLinesOf(headers);
    HeaderRoundTrip(headers);
    P.BlockEnd(lines, body);
    CutBlock(Lines(lines), body);
    end := |Lines(lines)| - 2;
  }

  /** The headers a receiver reads from a text: between the first CRLF and the first blank line behind it. */
  function HeadersIn(text: string): map<string, string> {
    match IndexOf(text, CRLF)
    case None => map[]
    case Some(line) =>
      var rest := text[line + 2..];
      match IndexOf(rest, CRLF2)
      case None => map[]
      case Some(end) => ReadHeaders(map[], rest[..end + 2])
  }

  /** What stands behind that blank line. */
  function Behind(text: string): string {
    match IndexOf(text, CRLF)
    case None => ""
    case Some(line) =>
      var rest := text[line + 2..];
      match IndexOf(rest, CRLF2)
      case None => ""
      case Some(end) => rest[end + 4..]
  }

  lemma FirstLineCut(line: string, rest: string)
    requires NoCr(line)
    ensures IndexOf(line + CRLF + rest, CRLF) == Some(|line|) && (line + CRLF + rest)[|line| + 2..] == rest
  {
    LineEnd(line, rest);
    assert |line + CRLF| == |line| + 2;
  }

  lemma CutHeaders(text: string, rest: string, line: nat, end: nat)
    requires IndexOf(text, CRLF) == Some(line) && line + 2 <= |text| && text[line + 2..] == rest
    requires IndexOf(rest, CRLF2) == Some(end)
    ensures end + 4 <= |rest| && HeadersIn(text) == ReadHeaders(map[], rest[..end + 2])
  {
  }

  lemma CutBehind(text: string, rest: string, line: nat, end: nat)
    requires IndexOf(text, CRLF) == Some(line) && line + 2 <= |text| && text[line + 2..] == rest
    requires IndexOf(rest, CRLF2) == Some(end)
    ensures end + 4 <= |rest| && Behind(text) == rest[end + 4..]
  {
  }

  /** A status line, a printed header block and anything behind it are found again. */
  lemma HeadSeen(line: string, headers: map<string, string>, tail: string)
    requires PrintableMap(headers) && headers != map[] && NoCr(line)
    ensures var text := line + CRLF + (Lines(HeaderLinesOf(headers)) + CRLF + tail);
            IndexOf(text, CRLF) == Some(|line|) && HeadersIn(text) == headers && Behind(text) == tail
  {
    var rest := Lines(HeaderLinesOf(headers)) + CRLF + tail;
    FirstLineCut(line, rest);
    var end := BlockSeen(headers, tail);
    CutHeaders(line + CRLF + rest, rest, |line|, end);
    CutBehind(line + CRLF + rest, rest, |line|, end);
  }

  /**
   * A receiver that splits the text at the first CRLF and the first blank line, reads the
   * headers and scans the length finds the same headers, and exactly that many bytes behind.
   */
  lemma ReceiverSeesBody(r: Reply)
    requires Sound(r) && !r.isChunked && r.statusCode != "" && |r.body| < TWO_64
    requires PrintableMap(r.headers) && NoCr(StatusLine(r))
    ensures var text := ResponseText(r);
            IndexOf(text, CRLF) == Some(|StatusLine(r)|) && HeadersIn(text) == r.headers && Behind(text) == r.body
    ensures CONTENT_LENGTH in r.headers && StrToUl(r.headers[CONTENT_LENGTH], 10) == |Behind(ResponseText(r))|
  {
    HeadSplit(StatusLine(r), Lines(HeaderLinesOf(r.headers)), r.body);
    HeadSeen(StatusLine(r), r.headers, r.body);
    PrintThenScan(|r.body|, "", 10);
    assert Digits(|r.body|, 10) + "" == Digits(|r.body|, 10);
  }

  lemma OneKeyAtLeast(headers: map<string, string>, key: string)
    requires key in headers
    ensures HeaderLinesOf(headers) != []
  {
    assert headers.Keys != {};
    SortedKeysEnumerate(headers.Keys);
    assert |SortedKeys(headers.Keys)| == |headers.Keys|;
  }
}
