/**
 * Insertion-ordered dictionaries, the behaviour of the source language's `dict`:
 * assigning an existing key keeps its position, a new key goes to the end, and
 * popping a key removes it from the order.
 */
module ODict {

  datatype ODict<K, V> = ODict(keys: seq<K>, vals: map<K, V>)

  /** The key order lists each key of the map exactly once. */
  ghost predicate Valid<K(!new), V>(d: ODict<K, V>) {
    && (forall i, j :: 0 <= i < j < |d.keys| ==> d.keys[i] != d.keys[j])
    && (forall k :: k in d.vals <==> k in d.keys)
  }

  function Empty<K(==, !new), V>(): (r: ODict<K, V>)
    ensures Valid(r) && r.vals == map[]
  {
    ODict([], map[])
  }

  /** `d[k] = v` */
  function Put<K(==, !new), V>(d: ODict<K, V>, k: K, v: V): (r: ODict<K, V>)
    requires Valid(d)
    ensures Valid(r)
    ensures r.vals == d.vals[k := v]
    ensures k in d.vals ==> r.keys == d.keys
    ensures k !in d.vals ==> r.keys == d.keys + [k]
  {
    if k in d.vals then ODict(d.keys, d.vals[k := v]) else ODict(d.keys + [k], d.vals[k := v])
  }

  /** The order `s` without the keys of `ks`, the remaining keys in their order. */
  function Filter<K(==, !new)>(s: seq<K>, ks: set<K>): (r: seq<K>)
    ensures forall x :: x in r <==> x in s && x !in ks
    ensures |r| <= |s|
    ensures (forall i, j :: 0 <= i < j < |s| ==> s[i] != s[j]) ==> (forall i, j :: 0 <= i < j < |r| ==> r[i] != r[j])
  {
    if |s| == 0 then []
    else
      var rest := Filter(s[1..], ks);
      assert forall x :: x in s[1..] ==> x in s;
      if s[0] in ks then rest
      else
        assert (forall i, j :: 0 <= i < j < |s| ==> s[i] != s[j]) ==> s[0] !in s[1..] by {
          if forall i, j :: 0 <= i < j < |s| ==> s[i] != s[j] {
            forall i | 0 <= i < |s[1..]| ensures s[1..][i] != s[0] {
              assert s[1..][i] == s[i + 1];
            }
          }
        }
        [s[0]] + rest
  }

  /** Filtering twice is filtering once by both sets. */
  lemma {:induction false} FilterTwice<K(!new)>(s: seq<K>, a: set<K>, b: set<K>)
    ensures Filter(Filter(s, a), b) == Filter(s, a + b)
  {
    if |s| > 0 {
      FilterTwice(s[1..], a, b);
      if s[0] !in a {
        assert Filter(s, a) == [s[0]] + Filter(s[1..], a);
        assert Filter(s, a)[1..] == Filter(s[1..], a);
      }
    }
  }

  /** Every key of `ks` popped (with a default), in any order. */
  function DropKeys<K(==, !new), V>(d: ODict<K, V>, ks: set<K>): (r: ODict<K, V>)
    requires Valid(d)
    ensures Valid(r)
    ensures r.vals == d.vals - ks
  {
    ODict(Filter(d.keys, ks), d.vals - ks)
  }

  /** `d.pop(k, None)` */
  function Pop<K(==, !new), V>(d: ODict<K, V>, k: K): (r: ODict<K, V>)
    requires Valid(d)
    ensures Valid(r)
    ensures r.vals == d.vals - {k}
    ensures k !in d.vals ==> r == d
  {
    if k in d.vals then DropKeys(d, {k}) else d
  }

  /** Popping one more key after dropping a set drops the larger set, whatever the order of pops. */
  lemma PopAfterDrop<K(!new), V>(d: ODict<K, V>, ks: set<K>, k: K)
    requires Valid(d)
    ensures Pop(DropKeys(d, ks), k) == DropKeys(d, ks + {k})
  {
    FilterTwice(d.keys, ks, {k});
    if k in d.vals && k !in ks {
      PopPresent(d, ks, k);
    } else {
      assert k !in Filter(d.keys, ks);
      FilterNothing(Filter(d.keys, ks), {k});
      assert d.vals - ks == d.vals - (ks + {k});
    }
  }

  lemma PopPresent<K(!new), V>(d: ODict<K, V>, ks: set<K>, k: K)
    requires Valid(d) && k in d.vals && k !in ks
    ensures Pop(DropKeys(d, ks), k) == ODict(Filter(Filter(d.keys, ks), {k}), d.vals - (ks + {k}))
  {
    assert (d.vals - ks) - {k} == d.vals - (ks + {k});
  }

  /** Dropping two sets one after the other drops their union. */
  lemma DropTwice<K(!new), V>(d: ODict<K, V>, a: set<K>, b: set<K>)
    requires Valid(d)
    ensures DropKeys(DropKeys(d, a), b) == DropKeys(d, a + b)
  {
    FilterTwice(d.keys, a, b);
    var d1 := DropKeys(d, a);
    assert d1.keys == Filter(d.keys, a);
    assert DropKeys(d1, b) == ODict(Filter(d1.keys, b), (d.vals - a) - b);
    MinusTwice(d.vals, a, b);
  }

  /** Removing keys the map does not hold changes nothing. */
  lemma MinusNone<K, V>(m: map<K, V>, x: set<K>)
    requires forall k :: k in x ==> k !in m
    ensures m - x == m
  {
  }

  /** Removing two key sets one after the other removes their union. */
  lemma MinusTwice<K, V>(m: map<K, V>, x: set<K>, y: set<K>)
    ensures (m - x) - y == m - (x + y)
  {
  }

  /** Filtering by keys the order does not hold changes nothing. */
  lemma {:induction false} FilterNothing<K(!new)>(s: seq<K>, ks: set<K>)
    requires forall x :: x in ks ==> x !in s
    ensures Filter(s, ks) == s
  {
    if |s| > 0 {
      assert forall x :: x in s[1..] ==> x in s;
      FilterNothing(s[1..], ks);
    }
  }

  /** Dropping the empty set changes nothing. */
  lemma DropNothing<K(!new), V>(d: ODict<K, V>)
    requires Valid(d)
    ensures DropKeys(d, {}) == d
  {
    FilterNothing(d.keys, {});
  }
}
