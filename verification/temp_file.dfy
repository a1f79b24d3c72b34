/** One open file and what `write`, `read` and `lseek` may do to it. */
module TempFiles {

  class TempFile {
    var data: string
    var pos: nat
    ghost var failed: bool   // a call failed or wrote short since the file was created
    ghost var refused: bool  // `open` or `write` failed

    constructor ()
      ensures data == "" && pos == 0 && !failed && !refused
    {
      data, pos, failed, refused := "", 0, false, false;
    }

    ghost predicate AtEnd()
      reads this
    {
      pos == |data|
    }

    /** `open(O_CREAT | O_RDWR | O_TRUNC)`. */
    method Create() returns (ok: bool)
      modifies this
      ensures data == "" && pos == 0 && failed == refused == !ok
    {
      ok := *;
      data, pos, failed, refused := "", 0, !ok, !ok;
    }

    /** `write` at the end of the file: any part of the buffer, or a failure. */
    method Write(buf: string) returns (n: int)
      requires AtEnd()
      modifies this`data, this`pos
      ensures -1 <= n <= |buf| && AtEnd()
      ensures data == if n < 0 then old(data) else old(data) + buf[..n]
    {
      n := *;
      if n < 0 || n > |buf| {
        n := -1;
      } else {
        data := data + buf[..n];
        pos := |data|;
      }
    }

    /** `read`: at most `max` of the bytes behind the offset; nothing only at the end of the file. */
    method Read(max: nat) returns (n: int, bytes: string)
      requires 0 < max && pos <= |data|
      modifies this`pos, this`failed
      ensures n < 0 ==> bytes == "" && pos == old(pos) && failed
      ensures n == 0 ==> bytes == "" && pos == old(pos) == |data| && failed == old(failed)
      ensures n > 0 ==>
        n <= max && pos == old(pos) + n <= |data| && bytes == data[old(pos)..pos] && failed == old(failed)
    {
      n := *;
      bytes := "";
      if pos == |data| && n >= 0 {
        n := 0;
      } else if n <= 0 || n > max || pos + n > |data| {
        n := -1;
        failed := true;
      } else {
        bytes := data[pos..pos + n];
        pos := pos + n;
      }
    }

    /** `lseek` inside the file. */
    method Seek(target: nat) returns (ok: bool)
      requires target <= |data|
      modifies this`pos, this`failed
      ensures if ok then pos == target && failed == old(failed) else pos == old(pos) && failed
    {
      ok := *;
      if ok {
        pos := target;
      } else {
        failed := true;
      }
    }

    /**
     * `writeAll`: repeats partial writes. A negative result is a failure; a write of zero
     * bytes ends the loop early and still counts as success for the caller.
     */
    method WriteAll(buf: string) returns (total: int)
      requires AtEnd()
      modifies this
      ensures -1 <= total <= |buf| && AtEnd()
      ensures total >= 0 ==> data == old(data) + buf[..total]
      ensures exists k: nat :: k <= |buf| && data == old(data) + buf[..k]
      ensures failed == (old(failed) || total != |buf|) && refused == (old(refused) || total < 0)
    {
      total := 0;
      while total < |buf|
        invariant 0 <= total <= |buf| && AtEnd()
        invariant data == old(data) + buf[..total]
        invariant failed == old(failed) && refused == old(refused)
      {
        var ret := Write(buf[total..]);
        if ret < 0 {
          failed, refused := true, true;
          total := -1;
          return;
        }
        if ret == 0 {
          failed := true;
          break;
        }
        assert buf[..total] + buf[total..][..ret] == buf[..total + ret];
        total := total + ret;
      }
    }
  }
}
