/** The poll vector and its two maps, as values: which updates keep them consistent. */
module Registry {

  function Erase<T>(s: seq<T>, k: nat): seq<T>
    requires k < |s|
  {
    s[..k] + s[k + 1..]
  }

  ghost predicate Distinct<T>(s: seq<T>) {
    forall i, j | 0 <= i < j < |s| :: s[i] != s[j]
  }

  lemma ErasedAt<T>(s: seq<T>, k: nat, j: nat)
    requires k < |s| && j < |s| - 1
    ensures Erase(s, k)[j] == if j < k then s[j] else s[j + 1]
  {
  }

  lemma EraseDistinct<T>(s: seq<T>, k: nat)
    requires k < |s| && Distinct(s)
    ensures Distinct(Erase(s, k))
    ensures forall x :: x in Erase(s, k) <==> x in s && x != s[k]
  {
    var t := Erase(s, k);
    forall i, j | 0 <= i < j < |t| ensures t[i] != t[j] {
      ErasedAt(s, k, i);
      ErasedAt(s, k, j);
    }
    forall x | x in s && x != s[k] ensures x in t {
      var i :| 0 <= i < |s| && s[i] == x;
      if i < k { ErasedAt(s, k, i); } else { ErasedAt(s, k, i - 1); }
    }
    forall i | 0 <= i < |t| ensures t[i] in s && t[i] != s[k] {
      ErasedAt(s, k, i);
    }
  }

  /**
   * The descriptors in vector order, the keys of the client map, and for each key of the CGI
   * map the descriptor of its owner.
   */
  datatype Table = Table(listeners: seq<int>, fds: seq<int>, clients: set<int>, owner: map<int, int>)

  /** Every CGI pipe is registered behind its owner. */
  ghost predicate OwnerFirst(fds: seq<int>, owner: map<int, int>) {
    forall i, j | 0 <= i < |fds| && 0 <= j < |fds| && fds[j] in owner && fds[i] == owner[fds[j]] :: i < j
  }

  ghost predicate Injective(owner: map<int, int>) {
    forall p, q | p in owner && q in owner && owner[p] == owner[q] :: p == q
  }

  ghost predicate Consistent(t: Table) {
    && |t.listeners| <= |t.fds| && t.fds[..|t.listeners|] == t.listeners
    && Distinct(t.fds)
    && (forall fd :: fd in t.fds[|t.listeners|..] <==> fd in t.clients || fd in t.owner)
    && (forall fd | fd in t.clients :: fd !in t.owner)
    && (forall p | p in t.owner :: t.owner[p] in t.clients)
    && Injective(t.owner)
    && OwnerFirst(t.fds, t.owner)
  }

  /** Every entry behind the listeners is a client or a pipe, and only those are. */
  lemma EntryKind(t: Table, i: nat)
    requires Consistent(t) && i < |t.fds|
    ensures i < |t.listeners| <==> t.fds[i] !in t.clients && t.fds[i] !in t.owner
    ensures t.fds[i] in t.fds
  {
    if i >= |t.listeners| {
      assert t.fds[|t.listeners|..][i - |t.listeners|] == t.fds[i];
    } else {
      var tail := t.fds[|t.listeners|..];
      forall j | 0 <= j < |tail| ensures tail[j] != t.fds[i] {
        assert tail[j] == t.fds[j + |t.listeners|];
      }
      var fd := t.fds[i];
      assert fd !in tail;
      assert fd in t.fds[|t.listeners|..] <==> fd in t.clients || fd in t.owner;
    }
  }

  lemma IndexOfKey(t: Table, fd: int) returns (i: nat)
    requires Consistent(t) && (fd in t.clients || fd in t.owner)
    ensures |t.listeners| <= i < |t.fds| && t.fds[i] == fd
  {
    var tail := t.fds[|t.listeners|..];
    assert fd in tail;
    var j :| 0 <= j < |tail| && tail[j] == fd;
    i := j + |t.listeners|;
  }

  lemma TailAppend(t: Table, fd: int)
    requires |t.listeners| <= |t.fds|
    ensures (t.fds + [fd])[|t.listeners|..] == t.fds[|t.listeners|..] + [fd]
    ensures (t.fds + [fd])[..|t.listeners|] == t.fds[..|t.listeners|]
  {
  }

  /** `acceptConnections` on a descriptor that is not registered yet. */
  lemma AddClient(t: Table, fd: int)
    requires Consistent(t) && fd !in t.fds
    ensures Consistent(t.(fds := t.fds + [fd], clients := t.clients + {fd}))
  {
    TailAppend(t, fd);
    NotRegistered(t, fd);
  }

  lemma NotRegistered(t: Table, fd: int)
    requires Consistent(t) && fd !in t.fds
    ensures fd !in t.clients && fd !in t.owner && forall p | p in t.owner :: t.owner[p] != fd
  {
    if fd in t.clients || fd in t.owner {
      var i := IndexOfKey(t, fd);
      assert false;
    }
  }

  /** `registerCgi` for a client without a CGI. */
  lemma AddPipe(t: Table, fd: int, owner: int)
    requires Consistent(t) && fd !in t.fds && owner in t.clients
    requires forall p | p in t.owner :: t.owner[p] != owner
    ensures Consistent(t.(fds := t.fds + [fd], owner := t.owner[fd := owner]))
  {
    TailAppend(t, fd);
    NotRegistered(t, fd);
    var o := IndexOfKey(t, owner);
    var u := t.(fds := t.fds + [fd], owner := t.owner[fd := owner]);
    forall i, j | 0 <= i < |u.fds| && 0 <= j < |u.fds| && u.fds[j] in u.owner && u.fds[i] == u.owner[u.fds[j]]
      ensures i < j
    {
      if j == |t.fds| {
        assert i < |t.fds|;
      } else {
        assert t.fds[j] in t.owner && i < |t.fds|;
      }
    }
  }

  lemma TailErase(t: Table, k: nat)
    requires |t.listeners| <= k < |t.fds| && Distinct(t.fds)
    ensures Erase(t.fds, k)[..|t.listeners|] == t.fds[..|t.listeners|]
    ensures forall fd :: fd in Erase(t.fds, k)[|t.listeners|..] <==> fd in t.fds[|t.listeners|..] && fd != t.fds[k]
  {
    var n := |t.listeners|;
    var tail := t.fds[n..];
    assert Erase(t.fds, k)[n..] == Erase(tail, k - n);
    assert Distinct(tail);
    EraseDistinct(tail, k - n);
  }

  lemma EraseKeepsOrder(fds: seq<int>, owner: map<int, int>, k: nat)
    requires k < |fds| && OwnerFirst(fds, owner)
    ensures OwnerFirst(Erase(fds, k), owner)
  {
    var t := Erase(fds, k);
    forall i, j | 0 <= i < |t| && 0 <= j < |t| && t[j] in owner && t[i] == owner[t[j]] ensures i < j {
      ErasedAt(fds, k, i);
      ErasedAt(fds, k, j);
      var i0, j0 := if i < k then i else i + 1, if j < k then j else j + 1;
      assert fds[j0] in owner && fds[i0] == owner[fds[j0]];
    }
  }

  /** `cleanupCgi`. */
  lemma ErasePipe(t: Table, k: nat)
    requires Consistent(t) && k < |t.fds| && t.fds[k] in t.owner
    ensures Consistent(t.(fds := Erase(t.fds, k), owner := t.owner - {t.fds[k]}))
  {
    EntryKind(t, k);
    TailErase(t, k);
    EraseDistinct(t.fds, k);
    EraseKeepsOrder(t.fds, t.owner, k);
  }

  /** Removing a client whose CGI is gone. */
  lemma EraseClient(t: Table, k: nat)
    requires Consistent(t) && k < |t.fds| && t.fds[k] in t.clients
    requires forall p | p in t.owner :: t.owner[p] != t.fds[k]
    ensures Consistent(t.(fds := Erase(t.fds, k), clients := t.clients - {t.fds[k]}))
  {
    EntryKind(t, k);
    TailErase(t, k);
    EraseDistinct(t.fds, k);
    EraseKeepsOrder(t.fds, t.owner, k);
  }
}
