/**
 * The body of a request as the parser finds it, by the exact spelling of two header names, and
 * as a reader finds it who takes them without regard to case (section 3.2 of RFC 7230).
 */
module RequestFraming {
  import opened Numerals
  import opened ParserModel
  import FN = FramingNames

  const LENGTH := "Content-Length"
  const CODING := "Transfer-Encoding"

  /** What follows the head. */
  datatype Body = NoBody | Sized(length: nat) | Chunked

  /** `parseRequestBody`. */
  function ParserBody(headers: map<string, string>): Body {
    if IsChunked(headers) then Chunked
    else if HasLength(headers) then Sized(StrToUl(headers[LENGTH], 10))
    else NoBody
  }

  /** Some spelling of the header says that the body is chunked. */
  ghost predicate ReaderChunked(headers: map<string, string>) {
    exists key :: key in headers && FN.SameName(key, CODING) && headers[key] == "chunked"
  }

  /** A reader who ignores case can take the body this way: some spelling of a header says so. */
  ghost predicate ReaderTakes(headers: map<string, string>, body: Body) {
    match body
    case Chunked => ReaderChunked(headers)
    case Sized(n) =>
      !ReaderChunked(headers)
      && exists key :: key in headers && FN.SameName(key, LENGTH) && StrToUl(headers[key], 10) == n
    case NoBody =>
      !ReaderChunked(headers) && forall key | key in headers :: !FN.SameName(key, LENGTH)
  }

  /** Another spelling that the parser does not heed would change the body. */
  ghost predicate Misread(headers: map<string, string>) {
    exists key :: key in headers && FN.Variant(key) && ChangesBody(headers, key)
  }

  predicate ChangesBody(headers: map<string, string>, key: string)
    requires key in headers
  {
    if FN.SameName(key, CODING) then headers[key] == "chunked" && !IsChunked(headers)
    else FN.SameName(key, LENGTH) && !IsChunked(headers)
         && (HasLength(headers) ==> StrToUl(headers[key], 10) != StrToUl(headers[LENGTH], 10))
  }

  /** The parser and every such reader agree on the body if and only if no other spelling changes it. */
  lemma ReadersAgreeIff(headers: map<string, string>)
    ensures (forall body :: ReaderTakes(headers, body) <==> body == ParserBody(headers)) <==> !Misread(headers)
  {
    NamesApart();
    if Misread(headers) {
      var key :| key in headers && FN.Variant(key) && ChangesBody(headers, key);
      Disagree(headers, key);
    } else {
      forall body ensures ReaderTakes(headers, body) <==> body == ParserBody(headers) {
        Agree(headers, body);
      }
    }
  }

  lemma NamesApart()
    ensures forall key :: !(FN.SameName(key, LENGTH) && FN.SameName(key, CODING))
  {
    forall key ensures !(FN.SameName(key, LENGTH) && FN.SameName(key, CODING)) {
      FN.NameOf(key);
      assert |LENGTH| == 14 && |CODING| == 17;
    }
  }

  lemma Disagree(headers: map<string, string>, key: string)
    requires key in headers && FN.Variant(key) && ChangesBody(headers, key)
    ensures exists body :: ReaderTakes(headers, body) && body != ParserBody(headers)
  {
    if ReaderChunked(headers) {
      NotChunkedByParser(headers, key);
      assert ReaderTakes(headers, Chunked) && Chunked != ParserBody(headers);
    } else {
      var n := StrToUl(headers[key], 10);
      assert FN.SameName(key, LENGTH);
      assert ReaderTakes(headers, Sized(n)) && Sized(n) != ParserBody(headers);
    }
  }

  lemma NotChunkedByParser(headers: map<string, string>, key: string)
    requires key in headers && ChangesBody(headers, key)
    ensures !IsChunked(headers)
  {
  }

  lemma Agree(headers: map<string, string>, body: Body)
    requires !Misread(headers)
    ensures ReaderTakes(headers, body) <==> body == ParserBody(headers)
  {
    NamesApart();
    ChunkedAgrees(headers);
    if !IsChunked(headers) {
      LengthAgrees(headers);
    }
  }

  lemma ChunkedAgrees(headers: map<string, string>)
    requires !Misread(headers)
    ensures ReaderChunked(headers) <==> IsChunked(headers)
  {
    if ReaderChunked(headers) && !IsChunked(headers) {
      var key :| key in headers && FN.SameName(key, CODING) && headers[key] == "chunked";
      assert FN.Variant(key) && ChangesBody(headers, key);
    }
    if IsChunked(headers) {
      assert FN.SameName(CODING, CODING) && headers[CODING] == "chunked";
    }
  }

  lemma LengthAgrees(headers: map<string, string>)
    requires !Misread(headers) && !IsChunked(headers)
    ensures forall key | key in headers && FN.SameName(key, LENGTH) ::
              HasLength(headers) && StrToUl(headers[key], 10) == StrToUl(headers[LENGTH], 10)
  {
    NamesApart();
    forall key | key in headers && FN.SameName(key, LENGTH)
      ensures HasLength(headers) && StrToUl(headers[key], 10) == StrToUl(headers[LENGTH], 10)
    {
      if key != LENGTH {
        assert FN.Variant(key) && !ChangesBody(headers, key);
      }
    }
  }

  /** `content-length: 5`: the parser takes no body, and the five bytes stay for the next request line. */
  lemma SmallLetterBody(p: Intake)
    requires p.phase.Body? && BodyInv(p) && p.headers == map[FN.Lower(LENGTH) := "5"] && |p.buffer| >= 5
    ensures Misread(p.headers)
    ensures Parse(p).verdict.Done? && Parse(p).intake.buffer == p.buffer && Parse(p).intake.phase.Start?
  {
    var key := FN.Lower(LENGTH);
    FN.SmallIsVariant();
    FN.LowerTwice(LENGTH);
    NamesApart();
    assert FN.SameName(key, LENGTH) && key != LENGTH && |CODING| == 17;
    assert key in p.headers && FN.Variant(key) && ChangesBody(p.headers, key);
  }
}
