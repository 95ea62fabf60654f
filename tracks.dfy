/** Values shared by both generations of the track-collection algebra:
    track items, their audio features, the errors the operators raise and
    the value a collection yields. */
module Tracks {

  datatype Option<T> = None | Some(value: T)

  datatype Result<T> = Ok(value: T) | Err(error: Error)

  /** The exceptions the collection operators let escape. */
  datatype Error =
    | KeyError(key: string)       // an id absent from an audio-feature lookup
    | ValueError                  // a negative `islice` stop or `random.sample` size
    | IndexError                  // `pop(0)` on an empty list, or a 21st `tee` copy
    | ZeroDivisionError           // `%` by a zero-minute interval
    | NodeNotFound(node: string)  // a group key absent from the distance graph

  /** Numeric descriptors of a track. The catalog reports them as floats;
      here they are integers, since no operator of the algebra computes with them. */
  datatype AudioFeatures = AudioFeatures(danceability: int, energy: int, tempo: int)

  /** A track. `albumArtistId` is the id of the first artist of the track's album
      (`item.album.artists[0].id`), the key `complex_sort` groups by. */
  datatype Item = Item(
    id: string,
    name: string,
    durationMs: nat,
    albumArtistId: string,
    features: Option<AudioFeatures>)

  /** A collection as the algebra sees it: its id, the finite sequence its
      `items` generator yields, and its audio-features-enriched flag. */
  datatype Collection = Collection(id: string, items: seq<Item>, enriched: bool)

  /** What a generator produces when it is consumed: the items it yields and,
      if it stops by raising, the exception it raises after them. */
  datatype Yield = Yield(items: seq<Item>, raised: Option<Error>)

  /** A collection whose generator yields `coll.items` and then raises `raised`, if any. */
  datatype Lazy = Lazy(coll: Collection, raised: Option<Error>)

  /** The items yielded before `y`, followed by what `y` yields. */
  function Then(prefix: seq<Item>, y: Yield): Yield
  {
    Yield(prefix + y.items, y.raised)
  }

  lemma {:induction false} ThenThen(a: seq<Item>, b: seq<Item>, y: Yield)
    ensures Then(a, Then(b, y)) == Then(a + b, y)
  {
    assert a + (b + y.items) == (a + b) + y.items;
  }

  function Min(a: int, b: int): int { if a <= b then a else b }

  /** The items of `s` that satisfy `p`, in the order of `s`. */
  function Filter<T(!new)>(s: seq<T>, p: T -> bool): (r: seq<T>)
    ensures |r| <= |s|
    ensures forall x {:trigger multiset(r)[x]} :: multiset(r)[x] == if p(x) then multiset(s)[x] else 0
    ensures forall x {:trigger x in r} :: x in r <==> x in s && p(x)
  {
    if s == [] then []
    else
      assert s == [s[0]] + s[1..];
      (if p(s[0]) then [s[0]] else []) + Filter(s[1..], p)
  }

  /** Filtering distributes over concatenation, so a filter keeps the order of its input. */
  lemma {:induction false} FilterConcat<T(!new)>(a: seq<T>, b: seq<T>, p: T -> bool)
    ensures Filter(a + b, p) == Filter(a, p) + Filter(b, p)
  {
    if a == [] {
      assert a + b == b;
    } else {
      var ab := a + b;
      var head := if p(a[0]) then [a[0]] else [];
      assert ab[0] == a[0] && ab[1..] == a[1..] + b;
      assert Filter(ab, p) == head + Filter(a[1..] + b, p);
      FilterConcat(a[1..], b, p);
      assert Filter(a, p) == head + Filter(a[1..], p);
      assert head + (Filter(a[1..], p) + Filter(b, p)) == (head + Filter(a[1..], p)) + Filter(b, p);
    }
  }

  /** `r` is `s` with some elements left out, the rest in their order. */
  predicate Subsequence(r: seq<Item>, s: seq<Item>)
    decreases |s|
  {
    if r == [] then true
    else if s == [] then false
    else if r[|r| - 1] == s[|s| - 1] then Subsequence(r[..|r| - 1], s[..|s| - 1])
    else Subsequence(r, s[..|s| - 1])
  }

  lemma {:induction false} SubsequenceDropLast(r: seq<Item>, s: seq<Item>)
    requires r != [] && Subsequence(r, s)
    ensures Subsequence(r[..|r| - 1], s)
    decreases |s|, 0
  {
    if r[|r| - 1] == s[|s| - 1] {
      SubsequenceExtend(r[..|r| - 1], s[..|s| - 1], s[|s| - 1]);
      assert s[..|s| - 1] + [s[|s| - 1]] == s;
    } else {
      SubsequenceDropLast(r, s[..|s| - 1]);
      SubsequenceExtend(r[..|r| - 1], s[..|s| - 1], s[|s| - 1]);
      assert s[..|s| - 1] + [s[|s| - 1]] == s;
    }
  }

  lemma {:induction false} SubsequenceExtend(r: seq<Item>, s: seq<Item>, x: Item)
    requires Subsequence(r, s)
    ensures Subsequence(r, s + [x])
    decreases |s|, 1
  {
    var t := s + [x];
    assert t[..|t| - 1] == s && t[|t| - 1] == x;
    if r != [] && r[|r| - 1] == x {
      SubsequenceDropLast(r, s);
    }
  }

  /** A filter keeps the items it keeps in their order. */
  lemma {:induction false} FilterSubsequence(s: seq<Item>, p: Item -> bool)
    ensures Subsequence(Filter(s, p), s)
    decreases |s|
  {
    if s != [] {
      var init, last := s[..|s| - 1], s[|s| - 1];
      assert s == init + [last];
      FilterConcat(init, [last], p);
      assert [last][1..] == [];
      assert Filter([last], p) == if p(last) then [last] else [];
      FilterSubsequence(init, p);
      if p(last) {
        var r := Filter(s, p);
        assert r == Filter(init, p) + [last];
        assert r[..|r| - 1] == Filter(init, p) && r[|r| - 1] == s[|s| - 1];
        assert s[..|s| - 1] == init;
      } else {
        assert Filter(init, p) + [] == Filter(init, p);
        assert Filter(s, p) == Filter(init, p);
        SubsequenceExtend(Filter(init, p), init, last);
      }
    }
  }

  /** A filter that every element passes leaves the sequence as it is. */
  lemma {:induction false} FilterAll<T(!new)>(s: seq<T>, p: T -> bool)
    requires forall i :: 0 <= i < |s| ==> p(s[i])
    ensures Filter(s, p) == s
  {
    if s != [] {
      FilterAll(s[1..], p);
    }
  }

  predicate Distinct<T(==)>(s: seq<T>)
  {
    forall i, j :: 0 <= i < j < |s| ==> s[i] != s[j]
  }

  function Ids(s: seq<Item>): (r: seq<string>)
    ensures |r| == |s| && forall i :: 0 <= i < |s| ==> r[i] == s[i].id
  {
    seq(|s|, i requires 0 <= i < |s| => s[i].id)
  }

  /** Every item carries audio features. */
  predicate AllHaveFeatures(s: seq<Item>)
  {
    forall i :: 0 <= i < |s| ==> s[i].features.Some?
  }

  /** ASCII lower-casing of one character. */
  function LowerChar(c: char): (r: char)
    ensures 'A' <= c <= 'Z' ==> r as int == c as int + 32
    ensures !('A' <= c <= 'Z') ==> r == c
    ensures !('A' <= r <= 'Z')
  {
    if 'A' <= c <= 'Z' then (c as int + 32) as char else c
  }

  /** `str.lower()`, restricted to ASCII letters. */
  function Lower(s: string): (r: string)
    ensures |r| == |s| && forall i :: 0 <= i < |s| ==> r[i] == LowerChar(s[i])
  {
    seq(|s|, i requires 0 <= i < |s| => LowerChar(s[i]))
  }

  /** `t` occurs in `s` starting at index `i`. */
  predicate OccursAt(s: string, t: string, i: int)
  {
    0 <= i && i + |t| <= |s| && s[i..i + |t|] == t
  }

  /** Python's `t in s` on strings: `t` occurs in `s` as a contiguous substring. */
  function Contains(s: string, t: string): (b: bool)
    ensures b <==> exists i :: OccursAt(s, t, i)
    decreases |s|
  {
    if |t| > |s| then false
    else if s[..|t|] == t then assert OccursAt(s, t, 0); true
    else
      var b := Contains(s[1..], t);
      assert forall i :: OccursAt(s, t, i + 1) <==> OccursAt(s[1..], t, i) by {
        forall i ensures OccursAt(s, t, i + 1) <==> OccursAt(s[1..], t, i) {
          if 0 <= i && i + 1 + |t| <= |s| {
            var u, v := s[i + 1..i + 1 + |t|], s[1..][i..i + |t|];
            assert |u| == |v| && forall j :: 0 <= j < |u| ==> u[j] == s[i + 1 + j] == v[j];
            assert u == v;
          }
        }
      }
      assert !OccursAt(s, t, 0);
      if b then
        var k :| OccursAt(s[1..], t, k);
        assert OccursAt(s, t, k + 1);
        true
      else
        assert forall i :: !OccursAt(s, t, i) by {
          forall i ensures !OccursAt(s, t, i) {
            if i > 0 { assert !OccursAt(s[1..], t, i - 1); }
          }
        }
        false
  }
}
