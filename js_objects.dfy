/**
 * Plain JavaScript objects used as dictionaries: a map from property keys to values
 * plus the order in which the keys were created.  `Object.entries`, `Object.keys` and
 * the spread `{ ...o }` list the keys in the order of OrdinaryOwnPropertyKeys
 * (section 10.1.11.1 of ECMA-262): the array-index keys in ascending numeric order
 * first, then every other string key in creation order.
 */
module JsObjects {
  import opened Wrappers
  import opened Decimal

  /** A canonical array index: the decimal spelling of an integer in 0 .. 2^32 - 2. */
  predicate IsArrayIndex(k: string) {
    |k| > 0 && AllDigits(k) && (k[0] != '0' || |k| == 1) && DecimalValue(k) < 0xFFFF_FFFF
  }

  predicate Distinct(s: seq<string>) {
    forall i, j :: 0 <= i < j < |s| ==> s[i] != s[j]
  }

  /** `keys` is the creation order of the properties; `vals` their current values. */
  datatype JsObject<V> = JsObject(keys: seq<string>, vals: map<string, V>)

  /** Every property occurs once in the creation order, and only properties do. */
  ghost predicate WellFormed<V>(o: JsObject<V>) {
    Distinct(o.keys) && forall k :: k in o.vals <==> k in o.keys
  }

  /** `{}` */
  function Empty<V>(): (r: JsObject<V>)
    ensures WellFormed(r) && r.vals == map[]
  {
    JsObject([], map[])
  }

  /** `o[k]`, with None for `undefined`. */
  function Get<V>(o: JsObject<V>, k: string): Option<V> {
    if k in o.vals then Some(o.vals[k]) else None
  }

  /**
   * `o[k] = v`: an existing property keeps its place in the creation order,
   * a new one is created last.
   */
  function Put<V>(o: JsObject<V>, k: string, v: V): (r: JsObject<V>)
    ensures WellFormed(o) ==> WellFormed(r)
    ensures r.vals == o.vals[k := v]
    ensures WellFormed(o) && k in o.vals ==> r.keys == o.keys
    ensures k !in o.vals ==> r.keys == o.keys + [k]
  {
    if k in o.vals then JsObject(o.keys, o.vals[k := v]) else JsObject(o.keys + [k], o.vals[k := v])
  }

  // ---------------------------------------------------------------------------
  // Enumeration order

  /** The keys of `ks` that are (`index`) or are not (`!index`) array indices, in order. */
  function Keep(ks: seq<string>, index: bool): (r: seq<string>)
    ensures forall i :: 0 <= i < |r| ==> IsArrayIndex(r[i]) == index
  {
    if ks == [] then [] else (if IsArrayIndex(ks[0]) == index then [ks[0]] else []) + Keep(ks[1..], index)
  }

  predicate Ascending(s: seq<string>) {
    forall i, j :: 0 <= i < j < |s| ==> DecimalValue(s[i]) <= DecimalValue(s[j])
  }

  function Insert(k: string, s: seq<string>): seq<string> {
    if s == [] || DecimalValue(k) <= DecimalValue(s[0]) then [k] + s else [s[0]] + Insert(k, s[1..])
  }

  /** The array-index keys in ascending numeric order (an insertion sort). */
  function SortIndices(s: seq<string>): (r: seq<string>)
    ensures multiset(r) == multiset(s) && Ascending(r)
  {
    if s == [] then []
    else
      var t := SortIndices(s[1..]);
      InsertPermutes(s[0], t);
      InsertAscending(s[0], t);
      assert s == [s[0]] + s[1..];
      Insert(s[0], t)
  }

  /** Inserting a key adds exactly that key. */
  lemma {:induction false} InsertPermutes(k: string, s: seq<string>)
    ensures multiset(Insert(k, s)) == multiset(s) + multiset{k}
  {
    if s != [] && DecimalValue(k) > DecimalValue(s[0]) {
      InsertPermutes(k, s[1..]);
      assert s == [s[0]] + s[1..];
    }
  }

  /** A lower bound of the key and of every element bounds every element after insertion. */
  lemma {:induction false} InsertBound(k: string, s: seq<string>, b: nat)
    requires b <= DecimalValue(k) && forall i :: 0 <= i < |s| ==> b <= DecimalValue(s[i])
    ensures forall i :: 0 <= i < |Insert(k, s)| ==> b <= DecimalValue(Insert(k, s)[i])
  {
    var r := Insert(k, s);
    if s == [] || DecimalValue(k) <= DecimalValue(s[0]) {
      assert r == [k] + s;
      forall i | 0 < i < |r| ensures b <= DecimalValue(r[i]) {
        assert r[i] == s[i - 1];
      }
    } else {
      var tail := s[1..];
      forall i | 0 <= i < |tail| ensures b <= DecimalValue(tail[i]) {
        assert tail[i] == s[i + 1];
      }
      InsertBound(k, tail, b);
      var t := Insert(k, tail);
      assert r == [s[0]] + t;
      forall i | 0 < i < |r| ensures b <= DecimalValue(r[i]) {
        assert r[i] == t[i - 1];
      }
    }
  }

  /** Inserting a key into an ascending sequence keeps it ascending. */
  lemma {:induction false} InsertAscending(k: string, s: seq<string>)
    requires Ascending(s)
    ensures Ascending(Insert(k, s))
  {
    var r := Insert(k, s);
    if s == [] || DecimalValue(k) <= DecimalValue(s[0]) {
      assert r == [k] + s;
      forall i, j | 0 <= i < j < |r| ensures DecimalValue(r[i]) <= DecimalValue(r[j]) {
        assert r[j] == s[j - 1];
        if i > 0 {
          assert r[i] == s[i - 1];
        } else if j > 1 {
          assert DecimalValue(s[0]) <= DecimalValue(s[j - 1]);
        }
      }
    } else {
      var tail := s[1..];
      assert Ascending(tail) by {
        forall i, j | 0 <= i < j < |tail| ensures DecimalValue(tail[i]) <= DecimalValue(tail[j]) {
          assert tail[i] == s[i + 1] && tail[j] == s[j + 1];
        }
      }
      forall i | 0 <= i < |tail| ensures DecimalValue(s[0]) <= DecimalValue(tail[i]) {
        assert tail[i] == s[i + 1];
      }
      InsertAscending(k, tail);
      InsertBound(k, tail, DecimalValue(s[0]));
      var t := Insert(k, tail);
      assert r == [s[0]] + t;
      forall i, j | 0 <= i < j < |r| ensures DecimalValue(r[i]) <= DecimalValue(r[j]) {
        assert r[j] == t[j - 1];
        if i > 0 {
          assert r[i] == t[i - 1];
        }
      }
    }
  }

  /** The enumeration order of an object whose keys were created in the order `ks`. */
  function OrderKeys(ks: seq<string>): seq<string> {
    SortIndices(Keep(ks, true)) + Keep(ks, false)
  }

  /** `Object.keys(o)` */
  function OwnKeys<V>(o: JsObject<V>): seq<string> {
    OrderKeys(o.keys)
  }

  /** `{ ...o }`: a new object whose properties are created in `o`'s enumeration order. */
  function Copy<V>(o: JsObject<V>): (r: JsObject<V>)
    ensures WellFormed(o) ==> WellFormed(r) && OwnKeys(r) == OwnKeys(o)
    ensures r.vals == o.vals
  {
    CopyKeepsOrder(o);
    JsObject(OwnKeys(o), o.vals)
  }

  // ---------------------------------------------------------------------------
  // Lemmas about the enumeration order

  lemma CopyKeepsOrder<V>(o: JsObject<V>)
    ensures OrderKeys(OwnKeys(o)) == OwnKeys(o)
    ensures WellFormed(o) ==> WellFormed(JsObject(OwnKeys(o), o.vals))
  {
    var r := JsObject(OwnKeys(o), o.vals);
    OrderKeysPermutation(o.keys);
    OrderKeysIdempotent(o.keys);
    if WellFormed(o) {
      DistinctPermutation(o.keys, r.keys);
      forall k ensures k in r.vals <==> k in r.keys {
        assert k in r.keys <==> k in multiset(r.keys);
        assert k in o.keys <==> k in multiset(o.keys);
      }
    }
  }

  /** Enumeration lists each property of a well-formed object exactly once. */
  lemma OwnKeysAreProperties<V>(o: JsObject<V>)
    requires WellFormed(o)
    ensures Distinct(OwnKeys(o))
    ensures forall k :: k in OwnKeys(o) <==> k in o.vals
  {
    OrderKeysPermutation(o.keys);
    DistinctPermutation(o.keys, OwnKeys(o));
    forall k ensures k in OwnKeys(o) <==> k in o.vals {
      assert k in OwnKeys(o) <==> k in multiset(OwnKeys(o));
      assert k in o.keys <==> k in multiset(o.keys);
    }
  }

  /** `Object.entries(o)`: each property with its value, in enumeration order. */
  function Entries<V>(o: JsObject<V>): (r: seq<(string, V)>)
    requires WellFormed(o)
    ensures |r| == |OwnKeys(o)|
    ensures forall i :: 0 <= i < |r| ==> r[i].0 == OwnKeys(o)[i] && r[i].0 in o.vals && r[i].1 == o.vals[r[i].0]
  {
    OwnKeysAreProperties(o);
    var ks := OwnKeys(o);
    seq(|ks|, i requires 0 <= i < |ks| => (ks[i], o.vals[ks[i]]))
  }

  lemma {:induction false} KeepSplits(ks: seq<string>)
    ensures multiset(Keep(ks, true)) + multiset(Keep(ks, false)) == multiset(ks)
  {
    if ks != [] {
      KeepSplits(ks[1..]);
      assert ks == [ks[0]] + ks[1..];
    }
  }

  lemma {:induction false} KeepAppend(a: seq<string>, b: seq<string>, index: bool)
    ensures Keep(a + b, index) == Keep(a, index) + Keep(b, index)
  {
    if a != [] {
      KeepAppend(a[1..], b, index);
      assert (a + b)[0] == a[0];
      assert (a + b)[1..] == a[1..] + b;
    } else {
      assert a + b == b;
    }
  }

  lemma {:induction false} KeepUniform(s: seq<string>, index: bool)
    requires forall i :: 0 <= i < |s| ==> IsArrayIndex(s[i]) == index
    ensures Keep(s, index) == s && Keep(s, !index) == []
  {
    if s != [] {
      KeepUniform(s[1..], index);
    }
  }

  /** Sorting keys that are already in ascending order changes nothing. */
  lemma {:induction false} SortAscending(s: seq<string>)
    requires Ascending(s)
    ensures SortIndices(s) == s
  {
    if s != [] {
      SortAscending(s[1..]);
    }
  }

  /** Enumeration lists every key exactly as often as the creation order does. */
  lemma OrderKeysPermutation(ks: seq<string>)
    ensures multiset(OrderKeys(ks)) == multiset(ks)
  {
    KeepSplits(ks);
  }

  /** Enumerating the keys of a copy gives the original's enumeration order back. */
  lemma OrderKeysIdempotent(ks: seq<string>)
    ensures OrderKeys(OrderKeys(ks)) == OrderKeys(ks)
  {
    var idx := SortIndices(Keep(ks, true));
    var named := Keep(ks, false);
    forall i | 0 <= i < |idx| ensures IsArrayIndex(idx[i]) {
      assert idx[i] in multiset(idx);
      assert idx[i] in multiset(Keep(ks, true));
    }
    KeepAppend(idx, named, true);
    KeepAppend(idx, named, false);
    KeepUniform(idx, true);
    KeepUniform(named, false);
    SortAscending(idx);
    assert idx + [] == idx;
    assert [] + named == named;
  }

  /** Without array-index keys the enumeration order is the creation order. */
  lemma OrderKeysWithoutIndices(ks: seq<string>)
    requires forall i :: 0 <= i < |ks| ==> !IsArrayIndex(ks[i])
    ensures OrderKeys(ks) == ks
  {
    KeepUniform(ks, false);
  }

  /** Array-index keys come first, in ascending numeric order. */
  lemma IndicesFirst(ks: seq<string>, i: int, j: int)
    requires 0 <= i < j < |OrderKeys(ks)| && IsArrayIndex(OrderKeys(ks)[j])
    ensures IsArrayIndex(OrderKeys(ks)[i])
    ensures DecimalValue(OrderKeys(ks)[i]) <= DecimalValue(OrderKeys(ks)[j])
  {
    var idx := SortIndices(Keep(ks, true));
    var named := Keep(ks, false);
    forall m | |idx| <= m < |OrderKeys(ks)| ensures !IsArrayIndex(OrderKeys(ks)[m]) {
      assert OrderKeys(ks)[m] == named[m - |idx|];
    }
    assert OrderKeys(ks)[i] == idx[i] && OrderKeys(ks)[j] == idx[j];
    assert idx[i] in multiset(Keep(ks, true));
  }

  lemma {:induction false} MultisetAtMostOnce(s: seq<string>)
    ensures Distinct(s) <==> forall x :: multiset(s)[x] <= 1
  {
    if s != [] {
      MultisetAtMostOnce(s[1..]);
      assert s == [s[0]] + s[1..];
      if Distinct(s) {
        assert s[0] !in s[1..];
      }
      if forall x :: multiset(s)[x] <= 1 {
        assert multiset(s) == multiset{s[0]} + multiset(s[1..]);
        assert forall x :: multiset(s[1..])[x] <= multiset(s)[x];
        assert multiset(s[1..])[s[0]] == 0;
        forall i, j | 0 <= i < j < |s| ensures s[i] != s[j] {
          assert s[j] == s[1..][j - 1];
          if i > 0 {
            assert s[i] == s[1..][i - 1];
          }
        }
      }
    }
  }

  lemma DistinctPermutation(a: seq<string>, b: seq<string>)
    requires multiset(a) == multiset(b) && Distinct(a)
    ensures Distinct(b)
  {
    MultisetAtMostOnce(a);
    MultisetAtMostOnce(b);
  }
}
