/** The response object: builders, serialisation and the CGI chunk machine, updated in place. */
module Responses {
  import opened Wrappers
  import opened Text
  import opened Numerals
  import opened StringOrder
  import opened ResponseModel

  class Response {
    var protocol: string
    var connection: Option<string>
    var range: Option<string>
    var statusCode: string
    var statusMsg: string
    var body: string
    var headers: map<string, string>
    var isChunked: bool
    var headersParsed: bool
    var chunkState: CgiChunkState
    var outBuffer: string

    constructor ()
      ensures Value() == FRESH_REPLY
    {
      protocol, connection, range := "HTTP/1.1", None, None;
      statusCode, statusMsg, body, headers := "", "", "", map[];
      isChunked, headersParsed, chunkState, outBuffer := false, false, ParseHeaders, "";
    }

    ghost function Value(): Reply
      reads this
    {
      Reply(protocol, connection, range, statusCode, statusMsg, body, headers, isChunked, headersParsed, chunkState,
        outBuffer)
    }

    /** `_response = Response()`. */
    method Clear()
      modifies this
      ensures Value() == FRESH_REPLY
    {
      protocol, connection, range := "HTTP/1.1", None, None;
      statusCode, statusMsg, body, headers := "", "", "", map[];
      isChunked, headersParsed, chunkState, outBuffer := false, false, ParseHeaders, "";
    }

    method InitFromRequest(requestProtocol: string, requestHeaders: map<string, string>)
      modifies this`protocol, this`connection, this`range
      ensures Value() == ResponseModel.InitFromRequest(old(Value()), requestProtocol, requestHeaders)
    {
      protocol := if requestProtocol != "" then requestProtocol else "HTTP/1.1";
      if "Connection" in requestHeaders {
        connection := Some(requestHeaders["Connection"]);
      } else {
        connection := Some("close");
      }
      if "Range" in requestHeaders {
        range := Some(requestHeaders["Range"]);
      }
    }

    method AddToHeader(key: string, value: string)
      modifies this`headers
      ensures Value() == AddHeader(old(Value()), key, value)
    {
      headers := headers[key := value];
    }

    method SetDefaultHeaders(date: string)
      modifies this`headers
      ensures Value() == ResponseModel.SetDefaultHeaders(old(Value()), date)
    {
      AddToHeader("Date", date);
      if !isChunked {
        AddToHeader(CONTENT_LENGTH, Digits(|body|, 10));
      }
      if connection.Some? {
        AddToHeader("Connection", connection.value);
      }
    }

    method BuildResponse(status: Status, newBody: string, date: string)
      modifies this
      ensures Value() == ResponseModel.BuildResponse(old(Value()), status, newBody, date)
    {
      statusCode := status.code;
      statusMsg := status.message;
      body := newBody;
      SetDefaultHeaders(date);
    }

    /** `buildErrorResponse`, given what it found as the page. */
    method BuildErrorResponse(status: Status, source: PageSource, date: string)
      modifies this
      ensures Value() == ResponseModel.BuildErrorResponse(old(Value()), status, source, date)
    {
      match source
      case Generated(html) => BuildGeneratedPage(status, html, date);
      case Configured(contents, contentType) => BuildFilePage(status, contents, contentType, date);
      case ConfiguredRange(slice, contentType) => BuildFilePage(HTTP_PARTIAL_CONTENT, slice, contentType, date);
      case RangeRefused(refusal, html) => BuildGeneratedPage(refusal, html, date);
    }

    /** `buildFileResponse`, once the page was read. */
    method BuildFilePage(status: Status, contents: string, contentType: string, date: string)
      modifies this
      ensures Value() == FilePage(old(Value()), status, contents, contentType, date)
    {
      BuildResponse(status, contents, date);
      AddToHeader("Content-Type", contentType);
    }

    method BuildGeneratedPage(status: Status, html: string, date: string)
      modifies this
      ensures Value() == GeneratedPage(old(Value()), status, html, date)
    {
      BuildResponse(status, html, date);
      AddToHeader("Content-Type", "text/html");
      if status.code != "" && (status.code[0] == '4' || status.code[0] == '5') {
        AddToHeader("Connection", "close");
      }
    }

    method InitChunked(date: string)
      modifies this
      ensures Value() == ResponseModel.InitChunked(old(Value()), date)
    {
      if isChunked {
        return;
      }
      isChunked := true;
      SetDefaultHeaders(date);
      headers := headers - {CONTENT_LENGTH};
      headers := headers[TRANSFER_ENCODING := "chunked"];
    }

    /** The loop over the header map. */
    method PrintHeaders() returns (printed: string)
      ensures printed == Lines(HeaderLinesOf(headers))
    {
      var order := SortedKeys(headers.Keys);
      SortedKeysEnumerate(headers.Keys);
      ghost var lines := HeaderLines(order, headers);
      printed := "";
      for i := 0 to |order|
        invariant printed == Lines(lines[..i])
      {
        LinesAppend(lines, i);
        printed := printed + order[i] + ": " + headers[order[i]] + CRLF;
      }
      assert lines[..|order|] == HeaderLinesOf(headers);
    }

    /** `buildResponseString`. */
    method BuildResponseString() returns (text: string)
      ensures text == ResponseText(Value())
    {
      if statusCode == "" {
        return "";
      }
      text := protocol + " " + statusCode + " " + statusMsg + CRLF;
      var printed := PrintHeaders();
      text := text + (printed + CRLF);
      if !isChunked {
        text := text + body;
      }
    }

    static lemma {:induction false} LinesAppend(lines: seq<string>, i: nat)
      requires i < |lines|
      ensures Lines(lines[..i + 1]) == Lines(lines[..i]) + lines[i] + CRLF
    {
      if i == 0 {
        assert lines[..1] == [lines[0]] && lines[..0] == [];
        assert lines[0] + CRLF + "" == "" + lines[0] + CRLF;
      } else {
        LinesAppend(lines[1..], i - 1);
        assert lines[..i + 1][1..] == lines[1..][..i] && lines[..i][1..] == lines[1..][..i - 1];
        assert lines[0] + CRLF + (Lines(lines[1..][..i - 1]) + lines[i] + CRLF) ==
          lines[0] + CRLF + Lines(lines[1..][..i - 1]) + lines[i] + CRLF;
      }
    }

    /** Where the header block ends: CRLF CRLF first, else LF LF. */
    static method FindSeparator(buffer: string) returns (sep: Option<(nat, nat)>)
      ensures sep == Separator(buffer)
    {
      var headerEnd := IndexOf(buffer, CRLF2);
      var sepLen := 4;
      if headerEnd.None? {
        headerEnd := IndexOf(buffer, LF2);
        sepLen := 2;
      }
      if headerEnd.None? {
        return None;
      }
      return Some((headerEnd.value, sepLen));
    }

    /** The `getline` loop over the header block. */
    static method ReadBlock(start: CgiHead, lines: seq<string>) returns (h: CgiHead)
      ensures h == ReadCgiLines(start, lines)
    {
      h := start;
      var i := 0;
      assert lines[0..] == lines;
      while i < |lines|
        invariant 0 <= i <= |lines|
        invariant ReadCgiLines(start, lines) == ReadCgiLines(h, lines[i..])
      {
        var line := lines[i];
        if line == "" || line == "\r" {
          break;
        }
        h := ReadCgiLine(h, DropCr(line));
        assert lines[i..][1..] == lines[i + 1..];
        i := i + 1;
      }
    }

    /** What the block says goes into the response, with the defaults for what it does not say. */
    method TakeHead(h: CgiHead)
      modifies this
      ensures Value() == WithCgiHead(old(Value()), h)
    {
      headers := h.headers;
      if h.status.Some? {
        statusCode, statusMsg := h.status.value.code, h.status.value.message;
      } else {
        statusCode, statusMsg := HTTP_OK.code, HTTP_OK.message;
      }
      if !h.hasType {
        headers := headers["Content-Type" := "text/html"];
      }
      headersParsed := true;
    }

    /** `parseCgiHeaders`. */
    method ParseCgiHeaders(buffer: string) returns (ok: bool, rest: string)
      modifies this
      ensures ok <==> Separator(buffer).Some?
      ensures !ok ==> Value() == old(Value()) && rest == buffer
      ensures ok ==> ResponseModel.ParseCgiHeaders(old(Value()), buffer) == Some(CgiStep(Value(), rest))
    {
      var sep := FindSeparator(buffer);
      if sep.None? {
        return false, buffer;
      }
      var (end, sepLen) := sep.value;
      var h := ReadBlock(CgiHead(headers, None, false), GetLines(buffer[..end]));
      TakeHead(h);
      return true, buffer[end + sepLen..];
    }

    /** `appendChunk`; the data string is empty afterwards. */
    method AppendChunk(data: string) returns (left: string)
      modifies this`outBuffer
      ensures left == ""
      ensures Value() == if data == "" then old(Value())
        else old(Value()).(outBuffer := old(outBuffer) + EncodePiece(data))
    {
      if data == "" {
        return "";
      }
      outBuffer := outBuffer + (Digits(|data|, 16) + CRLF + data + CRLF);
      left := "";
    }

    method FinishCgiChunked()
      modifies this`outBuffer, this`chunkState
      ensures Value() == Terminate(old(Value()))
    {
      if chunkState == ChunkFinished {
        return;
      }
      outBuffer := outBuffer + TERMINATOR;
      chunkState := ChunkFinished;
    }

    /** The head goes into the buffer in front of the first chunk. */
    method StartStream(date: string)
      modifies this
      ensures Value() == ResponseModel.StartStream(old(Value()), date)
    {
      InitChunked(date);
      var head := BuildResponseString();
      outBuffer := outBuffer + head;
      chunkState := StreamBody;
    }

    /** `appendCgiChunk`. */
    method AppendCgiChunk(buffer: string, isFinished: bool, date: string) returns (left: string)
      modifies this
      ensures CgiStep(Value(), left) ==
              if isFinished then AppendFinal(old(Value()), buffer, date) else AppendMiddle(old(Value()), buffer, date)
    {
      left := buffer;
      if chunkState == ParseHeaders {
        if !isFinished {
          var ok;
          ok, left := ParseCgiHeaders(buffer);
          if !ok {
            return;
          }
        }
        if isFinished && !headersParsed {
          BuildResponse(HTTP_OK, "", date);
        }
        StartStream(date);
      }
      if chunkState == StreamBody && left != "" {
        left := AppendChunk(left);
      }
      if isFinished {
        FinishCgiChunked();
      }
    }

    method ConsumeOutBuffer() returns (tmp: string)
      modifies this`outBuffer
      ensures tmp == old(outBuffer) && Value() == old(Value()).(outBuffer := "")
    {
      tmp := outBuffer;
      outBuffer := "";
    }

    method MarkChunkEndDone()
      modifies this`isChunked
      ensures Value() == old(Value()).(isChunked := false)
    {
      isChunked := false;
    }

    predicate ShouldCloseConnection()
      reads this
    {
      "Connection" in headers && headers["Connection"] == "close"
    }
  }
}
