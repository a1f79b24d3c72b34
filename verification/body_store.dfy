/** Where a request body lives: in memory, or in a temporary file once it outgrew the buffer. */
module BodyStore {

  datatype Store = InMemory(text: string) | OnDisk(text: string)

  const EMPTY_STORE := InMemory("")

  /** `appendBody` when every file call succeeds. */
  function Append(s: Store, data: string, maxBuffer: nat): (r: Store)
    ensures r.text == s.text + data
  {
    if s.InMemory? && |s.text| + |data| > maxBuffer then OnDisk(s.text + data)
    else s.(text := s.text + data)
  }

  function AppendAll(s: Store, slices: seq<string>, maxBuffer: nat): Store
    decreases |slices|
  {
    if slices == [] then s else AppendAll(Append(s, slices[0], maxBuffer), slices[1..], maxBuffer)
  }

  function Concat(pieces: seq<string>): string {
    if pieces == [] then "" else pieces[0] + Concat(pieces[1..])
  }

  /** The room left in the buffer is not negative, so `maxBuffer - _body.size()` does not wrap. */
  predicate Fits(s: Store, maxBuffer: nat) {
    s.InMemory? ==> |s.text| <= maxBuffer
  }

  /** The store that a whole body of this text ends in, however it was cut. */
  function StoreOf(text: string, maxBuffer: nat): Store {
    if |text| > maxBuffer then OnDisk(text) else InMemory(text)
  }

  /** Slicing does not matter: two appends are one append of the joined bytes. */
  lemma AppendTwice(s: Store, x: string, y: string, maxBuffer: nat)
    requires Fits(s, maxBuffer)
    ensures Fits(Append(s, x, maxBuffer), maxBuffer)
    ensures Append(Append(s, x, maxBuffer), y, maxBuffer) == Append(s, x + y, maxBuffer)
  {
    assert s.text + (x + y) == s.text + x + y;
  }

  lemma AppendIs(s: Store, x: string, maxBuffer: nat)
    requires s == StoreOf(s.text, maxBuffer)
    ensures Append(s, x, maxBuffer) == StoreOf(s.text + x, maxBuffer)
  {
  }

  /**
   * Spilling refines plain appending: after any list of slices the store holds exactly their
   * concatenation, and it is on disk if and only if that is longer than the buffer limit.
   */
  lemma {:induction false} SpillingRefinesAppend(s: Store, slices: seq<string>, maxBuffer: nat)
    requires s == StoreOf(s.text, maxBuffer)
    ensures AppendAll(s, slices, maxBuffer) == StoreOf(s.text + Concat(slices), maxBuffer)
    decreases |slices|
  {
    if slices == [] {
      assert s.text + "" == s.text;
    } else {
      AppendIs(s, slices[0], maxBuffer);
      SpillingRefinesAppend(Append(s, slices[0], maxBuffer), slices[1..], maxBuffer);
      assert s.text + slices[0] + Concat(slices[1..]) == s.text + Concat(slices);
    }
  }
}
