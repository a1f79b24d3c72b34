/** Exactly which requests make the parser dereference a null location. */
module NullLocationCase {
  import opened Text
  import opened Config
  import opened ParserModel
  import opened Fragmentation

  /** A body of which nothing was read yet. */
  predicate FreshBody(p: Intake) {
    p.phase.Body? && p.chunk == FRESH_CHUNK && p.length == FRESH_LENGTH
  }

  /** With a location, or while discarding, the chunk loop dereferences nothing. */
  lemma {:induction false} LocatedChunksRun(p: Intake)
    requires ChunkInv(p.chunk) && (p.line.location.Some? || p.discarding)
    ensures !ParseChunks(p).verdict.NullLocation?
    decreases |p.buffer|
  {
    if p.buffer != "" && ChunkStep(p).Next? {
      LocatedChunksRun(ChunkStep(p).intake);
    }
  }

  /** What makes a body crash that has no location. */
  predicate Dereferences(p: Intake) {
    if IsChunked(p.headers) then !p.discarding && IndexOf(p.buffer, CRLF).Some? else HasLength(p.headers)
  }

  /** Without a location a chunked body not discarded crashes at its first size line, any other with a length. */
  lemma BodyCrashesIff(p: Intake)
    requires FreshBody(p)
    ensures AtBody(p).verdict.NullLocation? <==> p.line.location.None? && Dereferences(p)
  {
    if IsChunked(p.headers) && (p.line.location.Some? || p.discarding) {
      LocatedChunksRun(p);
    }
  }

  /** A request that has come as far as its body. */
  lemma RequestCrashesIff(p: Intake)
    requires BodyInv(p) && Headed(p).Some? && FreshBody(Headed(p).value)
    ensures var q := Headed(p).value;
            Parse(p).verdict.NullLocation? <==> q.line.location.None? && Dereferences(q)
  {
    ParseIsAtBody(p);
    BodyCrashesIff(Headed(p).value);
  }

  /** The location is null exactly when no configured location matches the URI. */
  lemma LocationNullIff(text: string, config: ServerConfig)
    requires ReadRequestLine(text, config).Some?
    ensures var (m, u) := SpacesOf(text).value; var uri := DecodedUri(text[m + 1..u]);
            ReadRequestLine(text, config).value.location.None? <==>
            forall i | 0 <= i < |config.locations| ::
              !ByExtension(config.locations[i], uri) && !ByPath(config.locations[i], uri)
  {
    var (m, u) := SpacesOf(text).value;
    MatchLocationIsMatch(DecodedUri(text[m + 1..u]), config.locations);
  }
}
