/**
 * A stable sort by an integer key in non-increasing order: what
 * `Array.prototype.sort((a, b) => key(b) - key(a))` computes (the ECMAScript
 * sort is stable), used both for the final results and for the live odds.
 */
module StableSort {

  /** Keys never increase from left to right. */
  predicate SortedDesc<T>(s: seq<T>, key: T -> int)
  {
    forall i, j :: 0 <= i < j < |s| ==> key(s[i]) >= key(s[j])
  }

  /** The elements of `s` whose key is `v`, in their order in `s`. */
  function WithKey<T>(s: seq<T>, key: T -> int, v: int): (r: seq<T>)
    ensures |r| <= |s|
    decreases |s|
  {
    if |s| == 0 then []
    else (if key(s[0]) == v then [s[0]] else []) + WithKey(s[1..], key, v)
  }

  /** Sum of the keys, so that sorting can be seen to keep totals. */
  function KeySum<T>(s: seq<T>, key: T -> int): int
    decreases |s|
  {
    if |s| == 0 then 0 else key(s[0]) + KeySum(s[1..], key)
  }

  /** Stability: within every key class the order of the input is kept. */
  ghost predicate SameOrderPerKey<T>(a: seq<T>, b: seq<T>, key: T -> int)
  {
    forall v :: WithKey(a, key, v) == WithKey(b, key, v)
  }

  lemma {:induction false} WithKeyAppend<T>(a: seq<T>, b: seq<T>, key: T -> int, v: int)
    ensures WithKey(a + b, key, v) == WithKey(a, key, v) + WithKey(b, key, v)
    decreases |a|
  {
    if |a| == 0 {
      assert a + b == b;
    } else {
      var head := if key(a[0]) == v then [a[0]] else [];
      assert (a + b)[0] == a[0];
      assert (a + b)[1..] == a[1..] + b;
      assert WithKey(a + b, key, v) == head + WithKey(a[1..] + b, key, v);
      WithKeyAppend(a[1..], b, key, v);
      assert WithKey(a, key, v) == head + WithKey(a[1..], key, v);
    }
  }

  /**
   * Places `x` in front of the first element whose key is not greater than
   * its own: `x` stays ahead of every element with the same key.
   */
  function Insert<T(==)>(x: T, s: seq<T>, key: T -> int): (r: seq<T>)
    requires SortedDesc(s, key)
    ensures SortedDesc(r, key)
    ensures |r| == |s| + 1
    ensures r[0] == x || (|s| > 0 && r[0] == s[0])
    ensures multiset(r) == multiset(s) + multiset{x}
    ensures KeySum(r, key) == key(x) + KeySum(s, key)
    decreases |s|
  {
    if |s| == 0 || key(x) >= key(s[0]) then
      var r := [x] + s;
      assert r[1..] == s;
      r
    else
      assert SortedDesc(s[1..], key);
      var rest := Insert(x, s[1..], key);
      InsertBehindHead(x, s, key, rest);
      [s[0]] + rest
  }

  /** Putting the old head back in front of an insertion into the tail keeps everything `Insert` promises. */
  lemma InsertBehindHead<T>(x: T, s: seq<T>, key: T -> int, rest: seq<T>)
    requires SortedDesc(s, key) && |s| > 0 && key(x) < key(s[0])
    requires SortedDesc(rest, key) && |rest| == |s|
    requires rest[0] == x || (|s| > 1 && rest[0] == s[1])
    requires multiset(rest) == multiset(s[1..]) + multiset{x}
    requires KeySum(rest, key) == key(x) + KeySum(s[1..], key)
    ensures SortedDesc([s[0]] + rest, key)
    ensures multiset([s[0]] + rest) == multiset(s) + multiset{x}
    ensures KeySum([s[0]] + rest, key) == key(x) + KeySum(s, key)
  {
    var r := [s[0]] + rest;
    assert s == [s[0]] + s[1..];
    assert r[1..] == rest;
    assert key(s[0]) >= key(rest[0]);
    forall a, b | 0 <= a < b < |r| ensures key(r[a]) >= key(r[b]) {
      if a == 0 && b > 1 {
        assert key(rest[0]) >= key(rest[b - 1]);
      }
    }
  }

  /** Inserting keeps, within each key class, the order of `[x] + s`. */
  lemma {:induction false} InsertKeepsOrder<T>(x: T, s: seq<T>, key: T -> int, v: int)
    requires SortedDesc(s, key)
    ensures WithKey(Insert(x, s, key), key, v) == WithKey([x] + s, key, v)
    decreases |s|
  {
    if |s| > 0 && key(x) < key(s[0]) {
      var rest := Insert(x, s[1..], key);
      assert SortedDesc(s[1..], key);
      assert s == [s[0]] + s[1..];
      var hx := WithKey([x], key, v);
      var h0 := WithKey([s[0]], key, v);
      WithKeySingle(x, key, v);
      WithKeySingle(s[0], key, v);
      calc {
        WithKey(Insert(x, s, key), key, v);
        WithKey([s[0]] + rest, key, v);
        { WithKeyAppend([s[0]], rest, key, v); }
        h0 + WithKey(rest, key, v);
        { InsertKeepsOrder(x, s[1..], key, v); WithKeyAppend([x], s[1..], key, v); }
        h0 + (hx + WithKey(s[1..], key, v));
        { assert h0 == [] || hx == []; }
        hx + (h0 + WithKey(s[1..], key, v));
        { WithKeyAppend([s[0]], s[1..], key, v); }
        hx + WithKey(s, key, v);
        { WithKeyAppend([x], s, key, v); }
        WithKey([x] + s, key, v);
      }
    }
  }

  lemma WithKeySingle<T>(y: T, key: T -> int, v: int)
    ensures WithKey([y], key, v) == if key(y) == v then [y] else []
  {
    assert [y][1..] == [];
  }

  /** Insertion sort, non-increasing in `key`, stable. */
  function SortDesc<T(==)>(s: seq<T>, key: T -> int): (r: seq<T>)
    ensures SortedDesc(r, key)
    ensures |r| == |s|
    ensures multiset(r) == multiset(s)
    ensures SameOrderPerKey(r, s, key)
    ensures KeySum(r, key) == KeySum(s, key)
    decreases |s|
  {
    if |s| == 0 then []
    else
      var tail := SortDesc(s[1..], key);
      var r := Insert(s[0], tail, key);
      assert s == [s[0]] + s[1..];
      assert forall v :: WithKey(r, key, v) == WithKey(s, key, v) by {
        forall v ensures WithKey(r, key, v) == WithKey(s, key, v) {
          InsertKeepsOrder(s[0], tail, key, v);
          WithKeyAppend([s[0]], tail, key, v);
          WithKeyAppend([s[0]], s[1..], key, v);
        }
      }
      r
  }

  /** Sorting an already-sorted sequence changes nothing. */
  lemma {:induction false} SortSortedIsIdentity<T>(s: seq<T>, key: T -> int)
    requires SortedDesc(s, key)
    ensures SortDesc(s, key) == s
    decreases |s|
  {
    if |s| > 0 {
      assert SortedDesc(s[1..], key);
      SortSortedIsIdentity(s[1..], key);
      assert s == [s[0]] + s[1..];
    }
  }

  /** `Array.prototype.map`. */
  function MapSeq<T, U>(s: seq<T>, f: T -> U): (r: seq<U>)
    ensures |r| == |s|
    ensures forall i :: 0 <= i < |s| ==> r[i] == f(s[i])
    decreases |s|
  {
    if |s| == 0 then [] else [f(s[0])] + MapSeq(s[1..], f)
  }

  /**
   * The sort looks at keys only, so projecting after sorting is the same as
   * sorting the projections, as long as the projection keeps the key.
   */
  lemma {:induction false} SortCommutesWithMap<T, U>(s: seq<T>, f: T -> U, kt: T -> int, ku: U -> int)
    requires forall x :: ku(f(x)) == kt(x)
    ensures MapSeq(SortDesc(s, kt), f) == SortDesc(MapSeq(s, f), ku)
    decreases |s|
  {
    if |s| > 0 {
      var tail := SortDesc(s[1..], kt);
      SortCommutesWithMap(s[1..], f, kt, ku);
      assert MapSeq(s, f)[1..] == MapSeq(s[1..], f);
      InsertCommutesWithMap(s[0], tail, f, kt, ku);
    }
  }

  lemma {:induction false} InsertCommutesWithMap<T, U>(x: T, t: seq<T>, f: T -> U, kt: T -> int, ku: U -> int)
    requires forall y :: ku(f(y)) == kt(y)
    requires SortedDesc(t, kt)
    ensures SortedDesc(MapSeq(t, f), ku)
    ensures MapSeq(Insert(x, t, kt), f) == Insert(f(x), MapSeq(t, f), ku)
    decreases |t|
  {
    MapKeepsSorted(t, f, kt, ku);
    if |t| == 0 || kt(x) >= kt(t[0]) {
      MapSeqCons(x, t, f);
    } else {
      var mt := MapSeq(t, f);
      assert SortedDesc(t[1..], kt);
      assert t == [t[0]] + t[1..];
      MapSeqCons(t[0], t[1..], f);
      assert mt[0] == f(t[0]) && mt[1..] == MapSeq(t[1..], f);
      calc {
        MapSeq(Insert(x, t, kt), f);
        MapSeq([t[0]] + Insert(x, t[1..], kt), f);
        { MapSeqCons(t[0], Insert(x, t[1..], kt), f); }
        [f(t[0])] + MapSeq(Insert(x, t[1..], kt), f);
        { InsertCommutesWithMap(x, t[1..], f, kt, ku); }
        [mt[0]] + Insert(f(x), mt[1..], ku);
        Insert(f(x), mt, ku);
      }
    }
  }

  /** A projection that keeps the key keeps the order. */
  lemma MapKeepsSorted<T, U>(t: seq<T>, f: T -> U, kt: T -> int, ku: U -> int)
    requires forall y :: ku(f(y)) == kt(y)
    requires SortedDesc(t, kt)
    ensures SortedDesc(MapSeq(t, f), ku)
  {
    var mt := MapSeq(t, f);
    forall i, j | 0 <= i < j < |mt| ensures ku(mt[i]) >= ku(mt[j]) {
      assert ku(mt[i]) == kt(t[i]) && ku(mt[j]) == kt(t[j]);
    }
  }

  lemma MapSeqCons<T, U>(a: T, s: seq<T>, f: T -> U)
    ensures MapSeq([a] + s, f) == [f(a)] + MapSeq(s, f)
  {
    assert ([a] + s)[1..] == s;
  }
}
