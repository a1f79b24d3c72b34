/**
 * Framing as a receiver reads it: header names are case-insensitive (section 3.2 of RFC 7230),
 * while the builders erase and overwrite the two framing headers by their exact spelling.
 */
module FramingNames {
  import opened Wrappers
  import opened Text
  import opened Numerals
  import opened ResponseModel
  import opened Framing
  import CgiStream

  function LowerChar(c: char): char {
    if 'A' <= c <= 'Z' then 'a' + (c - 'A') else c
  }

  function Lower(s: string): (r: string)
    ensures |r| == |s|
  {
    seq(|s|, i requires 0 <= i < |s| => LowerChar(s[i]))
  }

  predicate SameName(a: string, b: string) {
    Lower(a) == Lower(b)
  }

  /** Another spelling of a framing header. */
  predicate Variant(key: string) {
    (SameName(key, CONTENT_LENGTH) && key != CONTENT_LENGTH)
      || (SameName(key, TRANSFER_ENCODING) && key != TRANSFER_ENCODING)
  }

  function VariantsOf(headers: map<string, string>): set<string> {
    set key | key in headers && Variant(key)
  }

  /** What a receiver asks for: one of the two framing headers, once, under whatever spelling. */
  ghost predicate OneFraming(r: Reply) {
    if r.isChunked then
      (forall key | key in r.headers :: !SameName(key, CONTENT_LENGTH))
      && (forall key | key in r.headers && SameName(key, TRANSFER_ENCODING) ::
        key == TRANSFER_ENCODING && r.headers[key] == "chunked")
      && TRANSFER_ENCODING in r.headers
    else r.statusCode != "" ==>
      (forall key | key in r.headers :: !SameName(key, TRANSFER_ENCODING))
      && (forall key | key in r.headers && SameName(key, CONTENT_LENGTH) ::
            key == CONTENT_LENGTH && r.headers[key] == Digits(|r.body|, 10))
      && CONTENT_LENGTH in r.headers
  }

  lemma NameOf(key: string)
    ensures SameName(key, CONTENT_LENGTH) ==> |key| == |CONTENT_LENGTH|
    ensures SameName(key, TRANSFER_ENCODING) ==> |key| == |TRANSFER_ENCODING|
  {
    assert |Lower(key)| == |key| && |Lower(CONTENT_LENGTH)| == |CONTENT_LENGTH|
      && |Lower(TRANSFER_ENCODING)| == |TRANSFER_ENCODING|;
  }

  /** Names of another length are no framing headers. */
  lemma NoVariantByLength(key: string)
    requires |key| != 14 && |key| != 17
    ensures !Variant(key)
  {
    NameOf(key);
    assert |CONTENT_LENGTH| == 14 && |TRANSFER_ENCODING| == 17;
  }

  lemma OwnKeys()
    ensures !Variant("Date") && !Variant("Connection") && !Variant("Content-Type")
    ensures !Variant(CONTENT_LENGTH) && !Variant(TRANSFER_ENCODING)
  {
    NoVariantByLength("Date");
    NoVariantByLength("Connection");
    NoVariantByLength("Content-Type");
    NameOf(CONTENT_LENGTH);
    NameOf(TRANSFER_ENCODING);
    assert |CONTENT_LENGTH| == 14 && |TRANSFER_ENCODING| == 17;
  }

  /** Under exact framing a receiver sees one framing if and only if no other spelling is among the headers. */
  lemma OneFramingIff(r: Reply)
    requires Sound(r) && (r.isChunked || r.statusCode != "")
    ensures OneFraming(r) <==> VariantsOf(r.headers) == {}
  {
    if r.isChunked {
      forall key | key in r.headers && Variant(key) ensures !OneFraming(r) {
      }
    } else {
      forall key | key in r.headers && Variant(key) ensures !OneFraming(r) {
      }
    }
    if VariantsOf(r.headers) == {} {
      forall key | key in r.headers ensures !Variant(key) {
        assert Variant(key) ==> key in VariantsOf(r.headers);
      }
    }
  }

  // ------------------------------------------------- what a script contributes

  /** The header name of one line, if it sets a header. */
  function KeyOfLine(line: string): set<string> {
    match IndexOf(line, ":")
    case None => {}
    case Some(colon) => if line[..colon] == "Status" then {} else {line[..colon]}
  }

  function KeysOf(lines: seq<string>): set<string>
    decreases |lines|
  {
    if lines == [] || lines[0] == "" || lines[0] == "\r" then {}
    else KeyOfLine(DropCr(lines[0])) + KeysOf(lines[1..])
  }

  /** The header names of a script's output; none without a header block. */
  function ScriptKeys(output: string): set<string> {
    match Separator(output)
    case None => {}
    case Some(sep) => KeysOf(GetLines(output[..sep.0]))
  }

  /** The header names a build takes from a script. */
  function KeysFrom(r: Reply, b: Build): set<string> {
    if b.MiddleOfCgi? && r.chunkState.ParseHeaders? then ScriptKeys(b.buffer) else {}
  }

  function Misspelled(keys: set<string>): set<string> {
    set key | key in keys && Variant(key)
  }

  lemma {:induction false} KeysRead(h: CgiHead, lines: seq<string>)
    ensures ReadCgiLines(h, lines).headers.Keys == h.headers.Keys + KeysOf(lines)
    decreases |lines|
  {
    if !(lines == [] || lines[0] == "" || lines[0] == "\r") {
      var line := DropCr(lines[0]);
      LineKeys(h, line);
      KeysRead(ReadCgiLine(h, line), lines[1..]);
    }
  }

  lemma LineKeys(h: CgiHead, line: string)
    ensures ReadCgiLine(h, line).headers.Keys == h.headers.Keys + KeyOfLine(line)
  {
  }

  lemma VariantsAdd(headers: map<string, string>, key: string, value: string)
    requires !Variant(key)
    ensures VariantsOf(headers[key := value]) == VariantsOf(headers)
  {
  }

  lemma DefaultsKeep(r: Reply, date: string)
    ensures VariantsOf(SetDefaultHeaders(r, date).headers) == VariantsOf(r.headers)
  {
    OwnKeys();
    var h0 := r.headers["Date" := date];
    VariantsAdd(r.headers, "Date", date);
    var length := Digits(|r.body|, 10);
    VariantsAdd(h0, CONTENT_LENGTH, length);
    var h1 := if r.isChunked then h0 else h0[CONTENT_LENGTH := length];
    if r.connection.Some? {
      VariantsAdd(h1, "Connection", r.connection.value);
    }
  }

  lemma PageKeeps(r: Reply, status: Status, body: string, date: string)
    ensures VariantsOf(BuildResponse(r, status, body, date).headers) == VariantsOf(r.headers)
    ensures VariantsOf(GeneratedPage(r, status, body, date).headers) == VariantsOf(r.headers)
  {
    OwnKeys();
    DefaultsKeep(r.(statusCode := status.code, statusMsg := status.message, body := body), date);
    var q := BuildResponse(r, status, body, date);
    VariantsAdd(q.headers, "Content-Type", "text/html");
    VariantsAdd(q.headers["Content-Type" := "text/html"], "Connection", "close");
  }

  lemma FilePageKeeps(r: Reply, status: Status, contents: string, contentType: string, date: string)
    ensures VariantsOf(FilePage(r, status, contents, contentType, date).headers) == VariantsOf(r.headers)
  {
    OwnKeys();
    PageKeeps(r, status, contents, date);
    VariantsAdd(BuildResponse(r, status, contents, date).headers, "Content-Type", contentType);
  }

  lemma ErrorPageKeeps(r: Reply, status: Status, source: PageSource, date: string)
    ensures VariantsOf(BuildErrorResponse(r, status, source, date).headers) == VariantsOf(r.headers)
  {
    match source
    case Generated(html) => PageKeeps(r, status, html, date);
    case Configured(contents, contentType) => FilePageKeeps(r, status, contents, contentType, date);
    case ConfiguredRange(slice, contentType) => FilePageKeeps(r, HTTP_PARTIAL_CONTENT, slice, contentType, date);
    case RangeRefused(refusal, html) => PageKeeps(r, refusal, html, date);
  }

  lemma StartKeeps(r: Reply, date: string)
    ensures VariantsOf(InitChunked(r, date).headers) == VariantsOf(r.headers)
    ensures VariantsOf(StartStream(r, date).headers) == VariantsOf(r.headers)
  {
    if !r.isChunked {
      OwnKeys();
      var q := SetDefaultHeaders(r.(isChunked := true), date);
      DefaultsKeep(r.(isChunked := true), date);
      var h := q.headers - {CONTENT_LENGTH};
      assert VariantsOf(h) == VariantsOf(q.headers);
      VariantsAdd(h, TRANSFER_ENCODING, "chunked");
    }
  }

  /** A header block adds its own names and nothing else of interest. */
  lemma BlockAdds(r: Reply, output: string)
    requires Separator(output).Some?
    ensures VariantsOf(TakeCgiHead(r, output[..Separator(output).value.0]).headers) ==
      VariantsOf(r.headers) + Misspelled(ScriptKeys(output))
  {
    var lines := GetLines(output[..Separator(output).value.0]);
    var h := CgiHead(r.headers, None, false);
    KeysRead(h, lines);
    OwnKeys();
    var q := ReadCgiLines(h, lines);
    VariantsAdd(q.headers, "Content-Type", "text/html");
    assert VariantsOf(q.headers) == VariantsOf(r.headers) + Misspelled(ScriptKeys(output));
  }

  lemma MiddleAdds(r: Reply, output: string, date: string)
    requires r.chunkState.ParseHeaders?
    ensures VariantsOf(AppendMiddle(r, output, date).reply.headers) ==
      VariantsOf(r.headers) + Misspelled(ScriptKeys(output))
  {
    match Separator(output)
    case None => assert Misspelled(ScriptKeys(output)) == {};
    case Some(sep) =>
      BlockAdds(r, output);
      var q := TakeCgiHead(r, output[..sep.0]);
      StartKeeps(q, date);
      assert AppendMiddle(r, output, date).reply.headers == StartStream(q, date).headers;
  }

  lemma OpenFinalKeeps(r: Reply, buffer: string, date: string)
    ensures VariantsOf(OpenFinal(r, buffer, date).reply.headers) == VariantsOf(r.headers)
  {
    if r.chunkState.ParseHeaders? {
      PageKeeps(r, HTTP_OK, "", date);
      StartKeeps(if r.headersParsed then r else BuildResponse(r, HTTP_OK, "", date), date);
    }
  }

  lemma EndHeaders(s: CgiStep)
    ensures StreamPiece(s).reply.headers == s.reply.headers && Terminate(s.reply).headers == s.reply.headers
  {
  }

  lemma EndKeeps(r: Reply, buffer: string, date: string)
    ensures VariantsOf(AppendFinal(r, buffer, date).reply.headers) == VariantsOf(r.headers)
  {
    OpenFinalKeeps(r, buffer, date);
    EndHeaders(OpenFinal(r, buffer, date));
    EndHeaders(StreamPiece(OpenFinal(r, buffer, date)));
  }

  /** The router's own header names are no spelling of a framing header. */
  predicate OwnName(b: Build) {
    b.Header? ==> !SameName(b.key, CONTENT_LENGTH) && !SameName(b.key, TRANSFER_ENCODING)
  }

  lemma ApplyAdds(r: Reply, b: Build)
    requires OwnName(b)
    ensures VariantsOf(Apply(r, b).headers) == VariantsOf(r.headers) + Misspelled(KeysFrom(r, b))
  {
    assert Misspelled({}) == {};
    match b
    case FromRequest(_, _) =>
    case Page(status, body, date) => PageKeeps(r, status, body, date);
    case ErrorPage(status, source, date) => ErrorPageKeeps(r, status, source, date);
    case Header(key, value) => VariantsAdd(r.headers, key, value);
    case MiddleOfCgi(buffer, date) =>
      if r.chunkState.ParseHeaders? { MiddleAdds(r, buffer, date); }
    case EndOfCgi(buffer, date) => EndKeeps(r, buffer, date);
  }

  /** No script on the way names a framing header in another spelling. */
  ghost predicate SpelledWell(r: Reply, builds: seq<Build>)
    decreases |builds|
  {
    builds == [] || (Misspelled(KeysFrom(r, builds[0])) == {} && SpelledWell(Apply(r, builds[0]), builds[1..]))
  }

  lemma {:induction false} ApplyAllAdds(r: Reply, builds: seq<Build>)
    requires forall i | 0 <= i < |builds| :: OwnName(builds[i])
    ensures VariantsOf(ApplyAll(r, builds).headers) >= VariantsOf(r.headers)
    ensures VariantsOf(ApplyAll(r, builds).headers) == VariantsOf(r.headers) <== SpelledWell(r, builds)
    ensures VariantsOf(ApplyAll(r, builds).headers) == {} ==> SpelledWell(r, builds)
    decreases |builds|
  {
    if builds != [] {
      ApplyAdds(r, builds[0]);
      ApplyAllAdds(Apply(r, builds[0]), builds[1..]);
    }
  }

  /**
   * From a fresh response, any sequence of builders leaves what a receiver reads as exactly one
   * framing, if and only if no script prints a framing header in another spelling.
   */
  lemma ReceiverSeesOneFramingIff(r: Reply, builds: seq<Build>)
    requires Sound(r) && VariantsOf(r.headers) == {}
    requires forall i | 0 <= i < |builds| :: Plain(builds[i]) && OwnName(builds[i])
    requires var q := ApplyAll(r, builds); q.isChunked || q.statusCode != ""
    ensures OneFraming(ApplyAll(r, builds)) <==> SpelledWell(r, builds)
  {
    FramingExclusive(r, builds);
    OneFramingIff(ApplyAll(r, builds));
    ApplyAllAdds(r, builds);
  }

  /** The same from the response of a new connection. */
  lemma FreshSeesOneFramingIff(builds: seq<Build>)
    requires forall i | 0 <= i < |builds| :: Plain(builds[i]) && OwnName(builds[i])
    requires var q := ApplyAll(FRESH_REPLY, builds); q.isChunked || q.statusCode != ""
    ensures OneFraming(ApplyAll(FRESH_REPLY, builds)) <==> SpelledWell(FRESH_REPLY, builds)
  {
    FreshIsSound();
    FreshIsClean();
    ReceiverSeesOneFramingIff(FRESH_REPLY, builds);
  }

  lemma FreshIsClean()
    ensures VariantsOf(FRESH_REPLY.headers) == {}
  {
  }

  /** The same for the head a stream puts on the wire. */
  lemma StreamHeadFramedIff(r: Reply, output: string, o: CgiStream.Outside)
    requires !r.isChunked && r.chunkState.ParseHeaders? && VariantsOf(r.headers) == {}
    ensures OneFraming(CgiStream.HeadReply(r, output, o)) <==> Misspelled(ScriptKeys(output)) == {}
  {
    var cookied := CgiStream.WithCookie(r, o.cookie);
    CookieIsOwn();
    VariantsAdd(r.headers, "Set-Cookie", if o.cookie.Some? then o.cookie.value else "");
    PageKeeps(cookied, HTTP_OK, "", o.date);
    var q := if Separator(output).Some? then TakeCgiHead(r, output[..Separator(output).value.0])
             else BuildResponse(cookied, HTTP_OK, "", o.date);
    if Separator(output).Some? {
      BlockAdds(r, output);
    }
    StartKeeps(q, o.date);
    StartStreamSound(q, o.date);
    InitChunkedFramed(q, o.date);
    ChunkedFramingIff(InitChunked(q, o.date));
  }

  lemma CookieIsOwn()
    ensures !Variant("Set-Cookie")
  {
    NoVariantByLength("Set-Cookie");
  }

  lemma ChunkedFramingIff(r: Reply)
    requires Framed(r) && r.isChunked
    ensures OneFraming(r) <==> VariantsOf(r.headers) == {}
  {
    forall key | key in r.headers && Variant(key) ensures !OneFraming(r) {
    }
    if VariantsOf(r.headers) == {} {
      forall key | key in r.headers ensures !Variant(key) {
        assert Variant(key) ==> key in VariantsOf(r.headers);
      }
    }
  }

  // -------------------------------------------------------- a failing script

  lemma LowerTwice(s: string)
    ensures Lower(Lower(s)) == Lower(s)
  {
  }

  lemma LowerAdds(s: string, c: char)
    requires c !in s && !('a' <= c <= 'z')
    ensures c !in Lower(s)
  {
    forall i | 0 <= i < |s| ensures Lower(s)[i] != c {
      assert s[i] in s;
    }
  }

  /** `content-length`, spelled in small letters. */
  lemma SmallIsVariant()
    ensures Variant(Lower(CONTENT_LENGTH)) && |Lower(CONTENT_LENGTH)| == 14
    ensures ':' !in Lower(CONTENT_LENGTH) && '\r' !in Lower(CONTENT_LENGTH) && '\n' !in Lower(CONTENT_LENGTH)
  {
    LowerTwice(CONTENT_LENGTH);
    LowerAdds(CONTENT_LENGTH, ':');
    LowerAdds(CONTENT_LENGTH, '\r');
    LowerAdds(CONTENT_LENGTH, '\n');
    assert |CONTENT_LENGTH| == 14 && Lower(CONTENT_LENGTH)[0] == 'c' && CONTENT_LENGTH[0] == 'C';
  }

  /** A block of one line ends at its two line feeds. */
  lemma OneLineOutput(line: string)
    requires line != "" && '\r' !in line && '\n' !in line
    ensures Separator(line + LF2) == Some((|line|, 2)) && (line + LF2)[..|line|] == line && GetLines(line) == [line]
  {
    NotIn(line + LF2, CRLF2, 0);
    assert line + LF2 + "" == line + LF2;
    FirstAfter(line, LF2, "");
    CgiStream.OneLineBlock(line);
  }

  lemma KeyOfOneLine(key: string, value: string)
    requires ':' !in key && key != "Status" && value != "" && value[|value| - 1] != '\r'
    ensures KeysOf([key + ":" + value]) == {key}
  {
    var line := key + ":" + value;
    FirstAfter(key, ":", value);
    var rest: seq<string> := [line][1..];
    assert line[|line| - 1] == value[|value| - 1] && |line| >= 2 && rest == [];
  }

  /** A script that prints `content-length: 5` in small letters: the head announces a length and a transfer coding. */
  lemma SmallLetterLength(r: Reply, o: CgiStream.Outside)
    requires !r.isChunked && r.chunkState.ParseHeaders? && VariantsOf(r.headers) == {}
    ensures var key := Lower(CONTENT_LENGTH); var q := CgiStream.HeadReply(r, key + ":" + " 5" + LF2, o);
            key in q.headers && TRANSFER_ENCODING in q.headers && !OneFraming(q)
  {
    var key := Lower(CONTENT_LENGTH);
    var line := key + ":" + " 5";
    SmallIsVariant();
    OneLineOutput(line);
    assert |"Status"| == 6;
    KeyOfOneLine(key, " 5");
    assert key in Misspelled(ScriptKeys(line + LF2));
    StreamHeadFramedIff(r, line + LF2, o);
    BlockAdds(r, line + LF2);
    var q := TakeCgiHead(r, (line + LF2)[..|line|]);
    assert key in VariantsOf(q.headers);
    StartKeeps(q, o.date);
    InitChunkedFramed(q, o.date);
  }
}
