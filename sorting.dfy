/** The library calls the collections lean on for reordering: Python's
    `sorted(items, key=..., reverse=...)`, and `random.shuffle` /
    `random.sample`, whose random choices are made a parameter. */
module Sorting {
  import opened Tracks

  /** `a` may precede `b` in a sort in the given direction. */
  predicate InOrder(a: int, b: int, ascending: bool)
  {
    if ascending then a <= b else a >= b
  }

  predicate SortedBy<T>(s: seq<T>, key: T -> int, ascending: bool)
  {
    forall i, j :: 0 <= i < j < |s| ==> InOrder(key(s[i]), key(s[j]), ascending)
  }

  /** The elements of `s` whose key is `v`, in the order of `s`. */
  function KeyClass<T(!new)>(s: seq<T>, key: T -> int, v: int): seq<T>
  {
    Filter(s, HasKey(key, v))
  }

  /** The test "the key of this element is `v`". */
  function HasKey<T>(key: T -> int, v: int): T -> bool
  {
    x => key(x) == v
  }

  lemma {:induction false} SwapEmpty<T>(a: seq<T>, b: seq<T>, c: seq<T>)
    requires a == [] || b == []
    ensures a + (b + c) == b + (a + c)
  {
    if a == [] {
      assert a + (b + c) == b + c == b + (a + c);
    } else {
      assert a + (b + c) == a + c == b + (a + c);
    }
  }

  /** The key class of one element followed by more. */
  lemma {:induction false} KeyClassCons<T(!new)>(x: T, t: seq<T>, key: T -> int, v: int)
    ensures KeyClass([x] + t, key, v) == (if key(x) == v then [x] else []) + KeyClass(t, key, v)
  {
    FilterConcat([x], t, HasKey(key, v));
    assert [x][1..] == [];
  }

  /** Inserts `x` before the first element of `t` it may precede. */
  function InsertBy<T>(x: T, t: seq<T>, key: T -> int, ascending: bool): seq<T>
  {
    if t == [] || InOrder(key(x), key(t[0]), ascending) then [x] + t
    else [t[0]] + InsertBy(x, t[1..], key, ascending)
  }

  /** `sorted(s, key=key, reverse=not ascending)`: a stable sort. Python keeps
      equal keys in their original order in both directions. */
  function StableSort<T>(s: seq<T>, key: T -> int, ascending: bool): seq<T>
  {
    if s == [] then [] else InsertBy(s[0], StableSort(s[1..], key, ascending), key, ascending)
  }

  lemma {:induction false} InsertByPermutes<T>(x: T, t: seq<T>, key: T -> int, ascending: bool)
    ensures multiset(InsertBy(x, t, key, ascending)) == multiset{x} + multiset(t)
  {
    if t != [] && !InOrder(key(x), key(t[0]), ascending) {
      InsertByPermutes(x, t[1..], key, ascending);
      assert t == [t[0]] + t[1..];
    }
  }

  lemma {:induction false} InsertBySorted<T>(x: T, t: seq<T>, key: T -> int, ascending: bool)
    requires SortedBy(t, key, ascending)
    ensures SortedBy(InsertBy(x, t, key, ascending), key, ascending)
  {
    if t != [] && !InOrder(key(x), key(t[0]), ascending) {
      var rest := InsertBy(x, t[1..], key, ascending);
      InsertBySorted(x, t[1..], key, ascending);
      InsertByPermutes(x, t[1..], key, ascending);
      forall j | 0 <= j < |rest|
        ensures InOrder(key(t[0]), key(rest[j]), ascending)
      {
        assert rest[j] in multiset(rest);
        if rest[j] != x {
          assert rest[j] in multiset(t[1..]);
          var m :| 0 <= m < |t[1..]| && t[1..][m] == rest[j];
          assert t[m + 1] == rest[j];
        }
      }
    }
  }

  lemma {:induction false} InsertByKeyClass<T(!new)>(x: T, t: seq<T>, key: T -> int, ascending: bool, v: int)
    ensures KeyClass(InsertBy(x, t, key, ascending), key, v)
         == (if key(x) == v then [x] else []) + KeyClass(t, key, v)
  {
    if t == [] || InOrder(key(x), key(t[0]), ascending) {
      KeyClassCons(x, t, key, v);
    } else {
      var head := if key(t[0]) == v then [t[0]] else [];
      var mid := if key(x) == v then [x] else [];
      var rest := InsertBy(x, t[1..], key, ascending);
      var k := KeyClass(t[1..], key, v);
      assert InsertBy(x, t, key, ascending) == [t[0]] + rest;
      InsertByKeyClass(x, t[1..], key, ascending, v);
      KeyClassCons(t[0], rest, key, v);
      assert KeyClass(t, key, v) == head + k;
      assert head == [] || mid == [];
      SwapEmpty(head, mid, k);
    }
  }

  /** The result of `sorted` is ordered by the key, in the requested direction. */
  lemma {:induction false} StableSortSorted<T>(s: seq<T>, key: T -> int, ascending: bool)
    ensures SortedBy(StableSort(s, key, ascending), key, ascending)
  {
    if s != [] {
      StableSortSorted(s[1..], key, ascending);
      InsertBySorted(s[0], StableSort(s[1..], key, ascending), key, ascending);
    }
  }

  /** The result of `sorted` is a permutation of its input. */
  lemma {:induction false} StableSortPermutes<T>(s: seq<T>, key: T -> int, ascending: bool)
    ensures multiset(StableSort(s, key, ascending)) == multiset(s)
  {
    if s != [] {
      StableSortPermutes(s[1..], key, ascending);
      InsertByPermutes(s[0], StableSort(s[1..], key, ascending), key, ascending);
      assert s == [s[0]] + s[1..];
    }
  }

  /** Stability: for every key value, the elements carrying it appear in the
      result in exactly the order they had in the input. */
  lemma {:induction false} StableSortStable<T(!new)>(s: seq<T>, key: T -> int, ascending: bool, v: int)
    ensures KeyClass(StableSort(s, key, ascending), key, v) == KeyClass(s, key, v)
  {
    if s != [] {
      StableSortStable(s[1..], key, ascending, v);
      InsertByKeyClass(s[0], StableSort(s[1..], key, ascending), key, ascending, v);
      KeyClassCons(s[0], s[1..], key, v);
      assert s == [s[0]] + s[1..];
    }
  }

  /** The next random draw, 0 once the draws run out. */
  function NextDraw(draws: seq<nat>): nat
  {
    if draws == [] then 0 else draws[0]
  }

  /** A random ordering of `s`: the `k`-th draw (reduced modulo the number of
      elements left) picks the `k`-th element of the result among those not yet picked. */
  function PickOrder<T>(s: seq<T>, draws: seq<nat>): seq<T>
    decreases |s|
  {
    if s == [] then []
    else
      var j := NextDraw(draws) % |s|;
      [s[j]] + PickOrder(s[..j] + s[j + 1..], if draws == [] then [] else draws[1..])
  }

  /** Whatever the draws, `random.shuffle` produces a permutation of its input. */
  lemma {:induction false} PickOrderPermutes<T>(s: seq<T>, draws: seq<nat>)
    ensures multiset(PickOrder(s, draws)) == multiset(s)
    decreases |s|
  {
    if s != [] {
      var j := NextDraw(draws) % |s|;
      PickOrderPermutes(s[..j] + s[j + 1..], if draws == [] then [] else draws[1..]);
      assert s == s[..j] + [s[j]] + s[j + 1..];
    }
  }

  /** `random.sample(s, k)`: the first `k` picks of a random ordering, so `k`
      elements drawn without replacement. */
  function Sample<T>(s: seq<T>, k: nat, draws: seq<nat>): (r: seq<T>)
    requires k <= |s|
    ensures |r| == k && multiset(r) <= multiset(s)
  {
    var order := PickOrder(s, draws);
    PickOrderPermutes(s, draws);
    assert |order| == |multiset(order)| == |s|;
    assert order == order[..k] + order[k..];
    order[..k]
  }
}
