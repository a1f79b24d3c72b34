/** The request object: body storage in memory or in a temporary file, and its reset. */
module Requests {
  import opened Wrappers
  import opened Numerals
  import opened Config
  import opened BodyStore
  import opened ParserModel
  import opened TempFiles

  const READ_BLOCK := 8192

  class Request {
    var verb: string
    var uri: string
    var query: string
    var protocol: string
    var location: Option<Location>
    var headers: map<string, string>
    var body: string
    var bodyInDisk: bool
    var bodyFdSize: nat
    const bodyFile: TempFile
    var phase: Phase
    var chunk: ChunkParser
    var length: LengthParser

    constructor ()
      ensures Valid() && Sound() && !Refused() && Stored() == EMPTY_STORE && Line() == NO_LINE && headers == map[]
      ensures phase.Start? && chunk == FRESH_CHUNK && length == FRESH_LENGTH
      ensures fresh(bodyFile)
    {
      verb, uri, query, protocol, location := "", "", "", "", None;
      headers, body, bodyInDisk, bodyFdSize := map[], "", false, 0;
      bodyFile := new TempFile();
      phase, chunk, length := Start, FRESH_CHUNK, FRESH_LENGTH;
    }

    ghost predicate Valid()
      reads this, bodyFile
    {
      bodyInDisk ==> bodyFile.AtEnd() && (!bodyFile.failed ==> bodyFdSize == |bodyFile.data|)
    }

    /** No call on the body's file failed. */
    ghost predicate Sound()
      reads this, bodyFile
    {
      bodyInDisk ==> !bodyFile.failed
    }

    /** The body's file could not be opened or written. */
    ghost predicate Refused()
      reads this, bodyFile
    {
      bodyInDisk && bodyFile.refused
    }

    /** The body, and where it is. */
    ghost function Stored(): Store
      reads this, bodyFile
    {
      if bodyInDisk then OnDisk(bodyFile.data) else InMemory(body)
    }

    ghost function Line(): RequestLine
      reads this
    {
      RequestLine(verb, uri, query, protocol, location)
    }

    /** `getBodySize`. */
    method GetBodySize() returns (n: nat)
      requires Valid()
      ensures Sound() ==> n == |Stored().text|
    {
      n := if bodyInDisk then bodyFdSize else |body|;
    }

    /** `a - b` on `size_t`, for values below 2^64. */
    static function WrapSub(a: nat, b: nat): int {
      if b <= a then a - b else a - b + TWO_64
    }

    /** `appendBody`: 0, or -1 after a failed file call. */
    method AppendBody(buf: string, defaultMax: nat) returns (rc: int)
      requires Valid()
      requires Fits(Stored(), if location.Some? then location.value.maxBuffer else defaultMax)
      modifies this`body, this`bodyInDisk, this`bodyFdSize, bodyFile
      ensures Valid() && Fits(Stored(), if location.Some? then location.value.maxBuffer else defaultMax)
      ensures Sound() ==> old(Sound()) && rc == 0
      ensures Sound() ==>
        Stored() == Append(old(Stored()), buf, if location.Some? then location.value.maxBuffer else defaultMax)
      ensures rc == -1 || rc == 0
      ensures rc == -1 ==> !Sound() && Refused()
      ensures rc == 0 ==> Refused() == old(Refused())
    {
      rc := 0;
      var maxBuffer := if location.Some? then location.value.maxBuffer else defaultMax;
      if !bodyInDisk && |buf| > WrapSub(maxBuffer, |body|) {
        bodyInDisk := true;
        var created := bodyFile.Create();
        if !created {
          return -1;
        }
        var w := bodyFile.WriteAll(body);
        if w < 0 {
          return -1;
        }
        bodyFdSize := |body|;
        assert !bodyFile.failed ==> bodyFile.data == body by {
          assert body[..|body|] == body && "" + body == body;
        }
        body := "";
      }
      if bodyInDisk {
        var w := bodyFile.WriteAll(buf);
        if w < 0 {
          return -1;
        }
        bodyFdSize := bodyFdSize + |buf|;
        assert buf[..|buf|] == buf;
      } else {
        body := body + buf;
      }
    }

    /** `readALlBody`: the whole body as one string; the file offset is put back. */
    method ReadAllBody() returns (text: string)
      requires Valid() && Sound()
      modifies this`body, bodyFile`pos, bodyFile`failed
      ensures Sound() ==> Valid() && text == old(Stored()).text && Stored() == old(Stored())
      ensures bodyInDisk ==> body == text
    {
      if !bodyInDisk {
        return body;
      }
      body := "";
      var oldPos := bodyFile.pos;
      var ok := bodyFile.Seek(0);
      if !ok {
        return body;
      }
      var bytes := 1;
      while bytes > 0
        invariant bodyFile.pos <= |bodyFile.data|
        invariant body == bodyFile.data[..bodyFile.pos]
        invariant bytes == 0 ==> bodyFile.pos == |bodyFile.data|
        invariant bytes < 0 ==> bodyFile.failed
        decreases |bodyFile.data| - bodyFile.pos, bytes
      {
        var buffer;
        bytes, buffer := bodyFile.Read(READ_BLOCK);
        if bytes > 0 {
          body := body + buffer;
        }
      }
      ok := bodyFile.Seek(oldPos);
      return body;
    }

    /** `writeBodyToFd`: copies the body block by block; true only if all of it was written. */
    method WriteBodyToFd(out: TempFile) returns (ok: bool)
      requires Valid() && Sound() && out != bodyFile && out.AtEnd()
      modifies out, bodyFile`pos, bodyFile`failed
      ensures ok && !bodyFile.failed ==> out.data == old(out.data) + old(Stored()).text
      ensures Stored() == old(Stored())
    {
      if !bodyInDisk {
        var w := out.Write(body);
        assert w == |body| ==> body[..w] == body;
        return w == |body|;
      }
      var r := 1;
      var _ := bodyFile.Seek(0);
      while r > 0
        invariant bodyFile.pos <= |bodyFile.data| && out.AtEnd()
        invariant !bodyFile.failed ==> out.data == old(out.data) + bodyFile.data[..bodyFile.pos]
        invariant r == 0 ==> bodyFile.pos == |bodyFile.data|
        decreases |bodyFile.data| - bodyFile.pos, r
      {
        var buf;
        r, buf := bodyFile.Read(READ_BLOCK);
        if r > 0 {
          var w := out.Write(buf);
          if w < 0 || w != r {
            return false;
          }
          assert buf[..w] == buf;
        }
      }
      return r == 0;
    }

    /** `cleanup`. */
    method Cleanup()
      modifies this, bodyFile
      ensures Valid() && Sound() && !Refused() && Stored() == EMPTY_STORE && Line() == NO_LINE && headers == map[]
      ensures phase.Start? && chunk == FRESH_CHUNK && length == FRESH_LENGTH
    {
      verb, uri, query, protocol, location := "", "", "", "", None;
      headers, body, bodyInDisk, bodyFdSize := map[], "", false, 0;
      phase, chunk, length := Start, FRESH_CHUNK, FRESH_LENGTH;
    }
  }
}
