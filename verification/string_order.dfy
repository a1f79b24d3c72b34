/** The order in which a std::map with string keys is walked. */
module StringOrder {

  /** Lexicographic order, as `std::less<std::string>`. */
  predicate AtMost(a: string, b: string) {
    a == "" || (b != "" && (a[0] < b[0] || (a[0] == b[0] && AtMost(a[1..], b[1..]))))
  }

  lemma {:induction false} AtMostTotal(a: string, b: string)
    ensures AtMost(a, b) || AtMost(b, a)
  {
    if a != "" && b != "" && a[0] == b[0] {
      AtMostTotal(a[1..], b[1..]);
    }
  }

  lemma {:induction false} AtMostAntisymmetric(a: string, b: string)
    requires AtMost(a, b) && AtMost(b, a)
    ensures a == b
  {
    if a != "" && b != "" {
      AtMostAntisymmetric(a[1..], b[1..]);
      assert a == [a[0]] + a[1..] && b == [b[0]] + b[1..];
    }
  }

  lemma {:induction false} AtMostTransitive(a: string, b: string, c: string)
    requires AtMost(a, b) && AtMost(b, c)
    ensures AtMost(a, c)
  {
    if a != "" && a[0] == b[0] == c[0] {
      AtMostTransitive(a[1..], b[1..], c[1..]);
    }
  }

  ghost predicate IsMin(k: string, keys: set<string>) {
    k in keys && forall j | j in keys :: AtMost(k, j)
  }

  lemma {:induction false} MinExists(keys: set<string>) returns (k: string)
    requires keys != {}
    ensures IsMin(k, keys)
    decreases |keys|
  {
    k :| k in keys;
    var rest := keys - {k};
    if rest == {} {
      assert keys == {k};
      AtMostTotal(k, k);
    } else {
      var m := MinExists(rest);
      AtMostTotal(k, m);
      AtMostTotal(k, k);
      if AtMost(k, m) {
        forall j | j in keys ensures AtMost(k, j) {
          if j != k { AtMostTransitive(k, m, j); }
        }
      } else {
        k := m;
      }
    }
  }

  lemma AntisymmetricOn(keys: set<string>)
    ensures forall a, b | a in keys && b in keys && AtMost(a, b) && AtMost(b, a) :: a == b
  {
    forall a, b | a in keys && b in keys && AtMost(a, b) && AtMost(b, a) ensures a == b {
      AtMostAntisymmetric(a, b);
    }
  }

  function MinKey(keys: set<string>): (k: string)
    requires keys != {}
    ensures IsMin(k, keys)
  {
    ghost var m := MinOf(keys);
    AntisymmetricOn(keys);
    var k :| k in keys && forall j | j in keys :: AtMost(k, j);
    k
  }

  ghost function MinOf(keys: set<string>): (k: string)
    requires keys != {}
    ensures IsMin(k, keys)
  {
    assert exists k :: IsMin(k, keys) by { var k := MinExists(keys); }
    var k :| IsMin(k, keys);
    k
  }

  /** All keys, in ascending order. */
  function SortedKeys(keys: set<string>): (order: seq<string>)
    ensures |order| == |keys|
    decreases |keys|
  {
    if keys == {} then [] else [MinKey(keys)] + SortedKeys(keys - {MinKey(keys)})
  }

  predicate NoDuplicates(order: seq<string>) {
    forall i, j | 0 <= i < j < |order| :: order[i] != order[j]
  }

  /** The walk visits every key exactly once. */
  lemma {:induction false} SortedKeysEnumerate(keys: set<string>)
    ensures NoDuplicates(SortedKeys(keys)) && forall k: string :: k in keys <==> k in SortedKeys(keys)
    decreases |keys|
  {
    if keys != {} {
      var m := MinKey(keys);
      SortedKeysEnumerate(keys - {m});
      assert forall k :: k in SortedKeys(keys) <==> k == m || k in SortedKeys(keys - {m});
    }
  }
}
