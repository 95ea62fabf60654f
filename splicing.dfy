/** Splicing one collection into another: `insert_at_time`,
    `insert_at_time_intervals` and `insert_at_position`. The time-based
    splices walk the receiver A while adding up durations, and after an item
    whose addition makes the running total's remainder modulo the interval
    drop, they yield B. Durations are integer milliseconds and an interval of
    `minutes` is `minutes * 60000` of them. */
module Splicing {
  import opened Tracks
  import opened Sequences

  const MsPerMinute := 60000

  /** The number of full `tee` copies of B that `insert_at_time_intervals` prepares. */
  const Copies := 20

  /** Python's `a % p`: the remainder takes the sign of the divisor. */
  function PyMod(a: int, p: int): (r: int)
    requires p != 0
    ensures p > 0 ==> 0 <= r < p
    ensures p < 0 ==> p < r <= 0
    ensures p > 0 ==> r == a % p
    ensures (a - r) % p == 0
  {
    var e := a % p;
    var q := a / p;
    assert a == q * p + e;
    if p < 0 && e != 0 then
      assert a - (e + p) == (q - 1) * p;
      MultipleMod(q - 1, p);
      e + p
    else
      MultipleMod(q, p);
      e
  }

  /** A multiple of `p` leaves no remainder. */
  lemma {:induction false} MultipleMod(k: int, p: int)
    requires p != 0
    ensures (k * p) % p == 0
  {
    var m := k * p;
    var q', e' := m / p, m % p;
    assert m == q' * p + e' && 0 <= e' < if p > 0 then p else -p;
    assert e' == (k - q') * p;
    if k > q' {
      MulAtLeast(k - q', if p > 0 then p else -p);
    } else if k < q' {
      MulAtLeast(q' - k, if p > 0 then p else -p);
    }
  }

  /** The splice test: the running total's remainder went down with the last item. */
  predicate Splices(prev: int, cum: int, p: int)
    requires p != 0
  {
    PyMod(cum, p) < PyMod(prev, p)
  }

  /** What `insert_at_time(B, minutes)` yields, with interval `p` milliseconds,
      from a running total of `cum`: each item of A, followed by all of B when
      the splice test fires. A zero interval makes the first `%` raise right
      after the first item has been yielded. */
  function TimeSplice(a: seq<Item>, b: seq<Item>, p: int, cum: int): Yield
    decreases |a|
  {
    if a == [] then Yield([], None)
    else if p == 0 then Yield([a[0]], Some(ZeroDivisionError))
    else
      var next := cum + a[0].durationMs;
      Then([a[0]] + (if Splices(cum, next, p) then b else []), TimeSplice(a[1..], b, p, next))
  }

  /** What `insert_at_time_intervals(B, minutes)` yields: as `TimeSplice`, but the
      running total restarts from 0 after each splice and the `used`-th splice
      takes the `used`-th of the 20 copies of B, so a 21st splice raises
      `IndexError` (after the item that triggered it). */
  function IntervalSplice(a: seq<Item>, b: seq<Item>, p: int, cum: int, used: nat): Yield
    decreases |a|
  {
    if a == [] then Yield([], None)
    else if p == 0 then Yield([a[0]], Some(ZeroDivisionError))
    else
      var next := cum + a[0].durationMs;
      if !Splices(cum, next, p) then Then([a[0]], IntervalSplice(a[1..], b, p, next, used))
      else if used >= Copies then Yield([a[0]], Some(IndexError))
      else Then([a[0]] + b, IntervalSplice(a[1..], b, p, 0, used + 1))
  }

  /** How many times the splice test fires along A from a running total of `cum`. */
  function SpliceCount(a: seq<Item>, p: int, cum: int): nat
    requires p != 0
    decreases |a|
  {
    if a == [] then 0
    else
      var next := cum + a[0].durationMs;
      (if Splices(cum, next, p) then 1 else 0) + SpliceCount(a[1..], p, next)
  }

  /** How many times the splice test fires along A when the total restarts at each splice. */
  function IntervalCount(a: seq<Item>, p: int, cum: int): nat
    requires p != 0
    decreases |a|
  {
    if a == [] then 0
    else
      var next := cum + a[0].durationMs;
      if Splices(cum, next, p) then 1 + IntervalCount(a[1..], p, 0)
      else IntervalCount(a[1..], p, next)
  }

  /** What `insert_at_time` yields for one item of A reached with running total `cum`. */
  function Chunk(x: Item, b: seq<Item>, p: int, cum: int): seq<Item>
    requires p != 0
  {
    [x] + (if Splices(cum, cum + x.durationMs, p) then b else [])
  }

  /** One step of `insert_at_time` from position `i` of A: with `out` yielded
      before it and running total `cum`, the walk continues with `out2` yielded
      and running total `cum2`. */
  lemma {:induction false} TimeSpliceAdvance(a: seq<Item>, b: seq<Item>, p: int, i: nat, cum: int, out: seq<Item>,
                                             cum2: int, out2: seq<Item>)
    requires i < |a| && p != 0
    requires TimeSplice(a, b, p, 0) == Then(out, TimeSplice(a[i..], b, p, cum))
    requires cum2 == cum + a[i].durationMs && out2 == out + Chunk(a[i], b, p, cum)
    ensures TimeSplice(a, b, p, 0) == Then(out2, TimeSplice(a[i + 1..], b, p, cum2))
  {
    assert a[i..][0] == a[i] && a[i..][1..] == a[i + 1..];
    ThenThen(out, Chunk(a[i], b, p, cum), TimeSplice(a[i + 1..], b, p, cum2));
  }

  /** A step of `insert_at_time_intervals` whose test does not fire: the item
      alone, and the total grows by its duration. */
  lemma {:induction false} IntervalSpliceKeep(a: seq<Item>, b: seq<Item>, p: int, i: nat, cum: int, used: nat,
                                              out: seq<Item>, cum2: int, out2: seq<Item>)
    requires i < |a| && p != 0
    requires IntervalSplice(a, b, p, 0, 0) == Then(out, IntervalSplice(a[i..], b, p, cum, used))
    requires cum2 == cum + a[i].durationMs && !Splices(cum, cum2, p) && out2 == out + [a[i]]
    ensures IntervalSplice(a, b, p, 0, 0) == Then(out2, IntervalSplice(a[i + 1..], b, p, cum2, used))
  {
    assert a[i..][0] == a[i] && a[i..][1..] == a[i + 1..];
    ThenThen(out, [a[i]], IntervalSplice(a[i + 1..], b, p, cum2, used));
  }

  /** A step of `insert_at_time_intervals` whose test fires with a copy left:
      the item and a copy of B, after which the total restarts from 0. */
  lemma {:induction false} IntervalSpliceCopy(a: seq<Item>, b: seq<Item>, p: int, i: nat, cum: int, used: nat,
                                              out: seq<Item>, used2: nat, out2: seq<Item>)
    requires i < |a| && p != 0
    requires IntervalSplice(a, b, p, 0, 0) == Then(out, IntervalSplice(a[i..], b, p, cum, used))
    requires Splices(cum, cum + a[i].durationMs, p) && used < Copies
    requires used2 == used + 1 && out2 == out + [a[i]] + b
    ensures IntervalSplice(a, b, p, 0, 0) == Then(out2, IntervalSplice(a[i + 1..], b, p, 0, used2))
  {
    assert a[i..][0] == a[i] && a[i..][1..] == a[i + 1..];
    ThenThen(out, [a[i]] + b, IntervalSplice(a[i + 1..], b, p, 0, used2));
    assert out + ([a[i]] + b) == out2;
  }

  /** The step of `insert_at_time_intervals` whose splice finds no copy left. */
  lemma {:induction false} IntervalSpliceOverflow(a: seq<Item>, b: seq<Item>, p: int, i: nat, cum: int, used: nat,
                                                  out: seq<Item>)
    requires i < |a| && p != 0
    requires IntervalSplice(a, b, p, 0, 0) == Then(out, IntervalSplice(a[i..], b, p, cum, used))
    requires Splices(cum, cum + a[i].durationMs, p) && used >= Copies
    ensures IntervalSplice(a, b, p, 0, 0) == Yield(out + [a[i]], Some(IndexError))
  {
    assert a[i..][0] == a[i];
  }

  /** `insert_at_time(other, time)`, consumed. The result is anonymous and not flagged. */
  method InsertAtTime(a: Collection, b: Collection, minutes: int) returns (r: Lazy)
    ensures r.coll.id == "" && !r.coll.enriched
    ensures Yield(r.coll.items, r.raised) == TimeSplice(a.items, b.items, minutes * MsPerMinute, 0)
  {
    var p := minutes * MsPerMinute;
    var out: seq<Item> := [];
    var cum := 0;
    var i := 0;
    while i < |a.items|
      invariant 0 <= i <= |a.items|
      invariant TimeSplice(a.items, b.items, p, 0) == Then(out, TimeSplice(a.items[i..], b.items, p, cum))
    {
      var item := a.items[i];
      if p == 0 {
        assert a.items[i..][0] == item;
        return Lazy(Collection("", out + [item], false), Some(ZeroDivisionError));
      }
      ghost var before := out;
      var prev := cum;
      cum := cum + item.durationMs;
      out := out + [item];
      if Splices(prev, cum, p) {
        out := out + b.items;
      }
      TimeSpliceAdvance(a.items, b.items, p, i, prev, before, cum, out);
      i := i + 1;
    }
    assert a.items[i..] == [];
    r := Lazy(Collection("", out, false), None);
  }

  /** `insert_at_time_intervals(other, time)`, consumed. */
  method InsertAtTimeIntervals(a: Collection, b: Collection, minutes: int) returns (r: Lazy)
    ensures r.coll.id == "" && !r.coll.enriched
    ensures Yield(r.coll.items, r.raised) == IntervalSplice(a.items, b.items, minutes * MsPerMinute, 0, 0)
  {
    var p := minutes * MsPerMinute;
    var out: seq<Item> := [];
    var cum := 0;
    var used: nat := 0;
    var i := 0;
    while i < |a.items|
      invariant 0 <= i <= |a.items|
      invariant IntervalSplice(a.items, b.items, p, 0, 0)
             == Then(out, IntervalSplice(a.items[i..], b.items, p, cum, used))
    {
      var item := a.items[i];
      if p == 0 {
        assert a.items[i..][0] == item;
        return Lazy(Collection("", out + [item], false), Some(ZeroDivisionError));
      }
      ghost var before := out;
      var prev := cum;
      cum := cum + item.durationMs;
      out := out + [item];
      if Splices(prev, cum, p) {
        if used >= Copies {
          IntervalSpliceOverflow(a.items, b.items, p, i, prev, used, before);
          return Lazy(Collection("", out, false), Some(IndexError));
        }
        out := out + b.items;
        used := used + 1;
        cum := 0;
        IntervalSpliceCopy(a.items, b.items, p, i, prev, used - 1, before, used, out);
      } else {
        IntervalSpliceKeep(a.items, b.items, p, i, prev, used, before, cum, out);
      }
      i := i + 1;
    }
    assert a.items[i..] == [];
    r := Lazy(Collection("", out, false), None);
  }

  /** With a positive interval, a remainder never drops below the 0 a run starts
      from, so the first item of A is never followed by B. */
  lemma {:induction false} FirstItemNeverSplices(a: seq<Item>, b: seq<Item>, p: int)
    requires p > 0 && a != []
    ensures TimeSplice(a, b, p, 0) == Then([a[0]], TimeSplice(a[1..], b, p, a[0].durationMs))
    ensures IntervalSplice(a, b, p, 0, 0) == Then([a[0]], IntervalSplice(a[1..], b, p, a[0].durationMs, 0))
  {
    assert PyMod(0, p) == 0;
  }

  /** `insert_at_time` completes unless the interval is zero, and yields every
      item of A plus one full copy of B per firing of the splice test. */
  lemma {:induction false} TimeSpliceLength(a: seq<Item>, b: seq<Item>, p: int, cum: int)
    ensures a == [] ==> TimeSplice(a, b, p, cum) == Yield([], None)
    ensures a != [] ==> (p == 0 <==> TimeSplice(a, b, p, cum).raised.Some?)
    ensures a != [] && p == 0 ==> TimeSplice(a, b, p, cum) == Yield([a[0]], Some(ZeroDivisionError))
    ensures p != 0 ==> |TimeSplice(a, b, p, cum).items| == |a| + SpliceCount(a, p, cum) * |b|
    decreases |a|
  {
    if a != [] && p != 0 {
      var next := cum + a[0].durationMs;
      TimeSpliceLength(a[1..], b, p, next);
      MulSucc(|b|, SpliceCount(a[1..], p, next));
    }
  }

  /** `insert_at_time_intervals` completes exactly when the splice test fires at
      most 20 times (and the interval is not zero), and then yields every item
      of A plus one full copy of B per firing. */
  lemma {:induction false} IntervalSpliceCapacity(a: seq<Item>, b: seq<Item>, p: int, cum: int, used: nat)
    requires p != 0 && used <= Copies
    ensures IntervalSplice(a, b, p, cum, used).raised.None? <==> used + IntervalCount(a, p, cum) <= Copies
    ensures IntervalSplice(a, b, p, cum, used).raised.Some? ==>
              IntervalSplice(a, b, p, cum, used).raised == Some(IndexError)
    ensures IntervalSplice(a, b, p, cum, used).raised.None? ==>
              |IntervalSplice(a, b, p, cum, used).items| == |a| + IntervalCount(a, p, cum) * |b|
    decreases |a|
  {
    if a != [] {
      var next := cum + a[0].durationMs;
      if !Splices(cum, next, p) {
        IntervalSpliceCapacity(a[1..], b, p, next, used);
      } else if used < Copies {
        IntervalSpliceCapacity(a[1..], b, p, 0, used + 1);
        MulSucc(|b|, IntervalCount(a[1..], p, 0));
      }
    }
  }

  /** A zero interval makes both time-based splices yield A's first item and then
      raise `ZeroDivisionError` at the first `%`, whatever the running total and
      however many copies of B are used. */
  lemma {:induction false} ZeroIntervalRaises(a: seq<Item>, b: seq<Item>, cum: int, used: nat)
    requires a != []
    ensures TimeSplice(a, b, 0, cum) == Yield([a[0]], Some(ZeroDivisionError))
    ensures IntervalSplice(a, b, 0, cum, used) == Yield([a[0]], Some(ZeroDivisionError))
  {
  }

  /** A run whose total stays below a positive interval never splices: A comes out unchanged. */
  lemma {:induction false} ShortRunUnchanged(a: seq<Item>, b: seq<Item>, p: int, cum: nat)
    requires p > 0 && cum + TotalMs(a) < p
    ensures TimeSplice(a, b, p, cum) == Yield(a, None)
    ensures IntervalSplice(a, b, p, cum, 0) == Yield(a, None)
    decreases |a|
  {
    if a != [] {
      var next := cum + a[0].durationMs;
      DivModOf(cum, p, 0, cum);
      DivModOf(next, p, 0, next);
      ShortRunUnchanged(a[1..], b, p, next);
    }
  }

  /** The total duration of A in milliseconds. */
  function TotalMs(a: seq<Item>): nat
  {
    if a == [] then 0 else a[0].durationMs + TotalMs(a[1..])
  }

  /** For a non-negative total and an item shorter than a positive interval, the
      splice test fires exactly when the total passes a multiple of the interval. */
  lemma {:induction false} SpliceIffCrossing(prev: nat, d: nat, p: int)
    requires 0 < p && d < p
    ensures Splices(prev, prev + d, p) <==> (prev + d) / p == prev / p + 1
    ensures !Splices(prev, prev + d, p) <==> (prev + d) / p == prev / p
  {
    var q, e := prev / p, prev % p;
    assert prev == q * p + e;
    if e + d < p {
      DivModOf(prev + d, p, q, e + d);
    } else {
      assert prev + d == (q + 1) * p + (e + d - p);
      DivModOf(prev + d, p, q + 1, e + d - p);
    }
  }

  /** Division and remainder are determined by any quotient/remainder pair. */
  lemma {:induction false} DivModOf(n: int, p: int, q: int, e: int)
    requires 0 < p && 0 <= e < p && n == q * p + e
    ensures n / p == q && n % p == e
  {
    var q', e' := n / p, n % p;
    assert n == q' * p + e';
    assert (q - q') * p == e' - e;
    if q > q' {
      assert (q - q') * p >= p by { MulAtLeast(q - q', p); }
    } else if q < q' {
      assert (q' - q) * p >= p by { MulAtLeast(q' - q, p); }
    }
  }

  lemma {:induction false} MulAtLeast(k: int, p: int)
    requires k >= 1 && p > 0
    ensures k * p >= p
  {
  }

  /** An item whose duration is a whole number of intervals leaves the remainder
      where it was, so it never triggers a splice, however many multiples it passes. */
  lemma {:induction false} WholeIntervalsNeverSplice(prev: int, k: nat, p: int)
    requires p > 0
    ensures !Splices(prev, prev + k * p, p)
  {
    var q, e := prev / p, prev % p;
    assert prev + k * p == (q + k) * p + e;
    DivModOf(prev + k * p, p, q + k, e);
  }

  /** `insert_at_position(other, position)`, consumed: the first `position` items
      of A, then all of B, then A again from its first item, since the two `tee`
      copies of A advance independently, so A's prefix is yielded twice. A
      negative position makes `islice` raise before anything is yielded. */
  function InsertAtPosition(a: Collection, b: Collection, position: int): (r: Lazy)
    ensures r.coll.id == "" && !r.coll.enriched
    ensures position < 0 <==> r.raised.Some?
    ensures position < 0 ==> r.raised == Some(ValueError) && r.coll.items == []
    ensures position >= 0 ==>
              var k := Min(position, |a.items|);
              && |r.coll.items| == k + |b.items| + |a.items|
              && r.coll.items[..k] == a.items[..k]
              && r.coll.items[k..k + |b.items|] == b.items
              && r.coll.items[k + |b.items|..] == a.items
  {
    if position < 0 then Lazy(Collection("", [], false), Some(ValueError))
    else Lazy(Collection("", a.items[..Min(position, |a.items|)] + b.items + a.items, false), None)
  }

  /** The splice as evidently intended: B placed after A's first `position`
      items, A otherwise intact and yielded once. */
  function InsertAtPositionIntended(a: seq<Item>, b: seq<Item>, position: nat): (r: seq<Item>)
    ensures |r| == |a| + |b|
    ensures var k := Min(position, |a|); r[..k] == a[..k] && r[k..k + |b|] == b && r[k + |b|..] == a[k..]
  {
    var k := Min(position, |a|);
    a[..k] + b + a[k..]
  }

  /** Taking B back out of the intended splice gives A back. */
  lemma {:induction false} IntendedRemovesToOriginal(a: seq<Item>, b: seq<Item>, position: nat)
    ensures var k := Min(position, |a|);
      var r := InsertAtPositionIntended(a, b, position);
      r[..k] + r[k + |b|..] == a
  {
    var k := Min(position, |a|);
    assert a[..k] + a[k..] == a;
  }

  /** A track known only by its id, for the worked example. */
  function Track(id: string): Item
  {
    Item(id, id, 0, "", None)
  }

  /** Five tracks x1..x5, two tracks y1, y2, position 2: the intended splice yields
      x1, x2, y1, y2, x3, x4, x5, but as written the fifth item yielded is x1 again
      and nine items come out. */
  lemma {:induction false} InsertAtPositionReplaysReceiver()
    ensures var xs := [Track("x1"), Track("x2"), Track("x3"), Track("x4"), Track("x5")];
      var ys := [Track("y1"), Track("y2")];
      var written := InsertAtPosition(Collection("", xs, false), Collection("", ys, false), 2).coll.items;
      && InsertAtPositionIntended(xs, ys, 2)
         == [Track("x1"), Track("x2"), Track("y1"), Track("y2"), Track("x3"), Track("x4"), Track("x5")]
      && |written| == 9 && written[4] == Track("x1")
      && written != InsertAtPositionIntended(xs, ys, 2)
  {
    var xs := [Track("x1"), Track("x2"), Track("x3"), Track("x4"), Track("x5")];
    var ys := [Track("y1"), Track("y2")];
    assert xs[..2] == [Track("x1"), Track("x2")] && xs[2..] == [Track("x3"), Track("x4"), Track("x5")];
  }
}
