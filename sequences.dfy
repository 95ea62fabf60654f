/** The two ways the algebra weaves sequences together: `zip` of two
    generators flattened pairwise (`%`), and `itertools.chain(*zip(*gens))`
    over any number of them (`CollectionCollection.alternate`). */
module Sequences {
  import opened Tracks

  /** a1, b1, a2, b2, ... stopping with the shorter sequence, as `zip` does. */
  function Interleave<T>(a: seq<T>, b: seq<T>): (r: seq<T>)
    ensures |r| == 2 * Min(|a|, |b|)
    ensures forall i :: 0 <= i < Min(|a|, |b|) ==> r[2 * i] == a[i] && r[2 * i + 1] == b[i]
    decreases |a|
  {
    if a == [] || b == [] then []
    else
      var rest := Interleave(a[1..], b[1..]);
      assert forall i :: 1 <= i < Min(|a|, |b|) ==> 2 * i == 2 + 2 * (i - 1);
      [a[0], b[0]] + rest
  }

  /** The length of the shortest sequence, 0 when there are none (`zip()` yields nothing). */
  function MinLen<T>(cs: seq<seq<T>>): (m: nat)
    ensures forall c :: 0 <= c < |cs| ==> m <= |cs[c]|
    ensures cs != [] ==> exists c :: 0 <= c < |cs| && m == |cs[c]|
    ensures cs == [] ==> m == 0
  {
    if cs == [] then 0
    else if |cs| == 1 then |cs[0]|
    else
      var m := MinLen(cs[1..]);
      assert forall c :: 1 <= c < |cs| ==> cs[c] == cs[1..][c - 1];
      if |cs[0]| <= m then |cs[0]| else m
  }

  /** Round `k` of `zip(*cs)`: the `k`-th element of every sequence, in order. */
  function Round<T>(cs: seq<seq<T>>, k: nat): (r: seq<T>)
    requires k < MinLen(cs)
    ensures |r| == |cs| && forall c :: 0 <= c < |cs| ==> r[c] == cs[c][k]
  {
    seq(|cs|, c requires 0 <= c < |cs| => cs[c][k])
  }

  /** `k` strides of length `n`: the offset of round `k` in a round-robin over `n` sequences. */
  function Stride(k: nat, n: nat): nat
  {
    if k == 0 then 0 else Stride(k - 1, n) + n
  }

  /** The rounds from round `k` on, one after the other. */
  function RoundsFrom<T>(cs: seq<seq<T>>, k: nat): (r: seq<T>)
    requires k <= MinLen(cs)
    ensures |r| == Stride(MinLen(cs) - k, |cs|)
    decreases MinLen(cs) - k
  {
    if k == MinLen(cs) then [] else Round(cs, k) + RoundsFrom(cs, k + 1)
  }

  /** `chain(*zip(*cs))`: round after round, the next element of every sequence
      in turn, until the shortest one runs out. */
  function RoundRobin<T>(cs: seq<seq<T>>): seq<T>
  {
    RoundsFrom(cs, 0)
  }

  /** A round-robin holds as many rounds as the shortest sequence has elements. */
  lemma {:induction false} RoundRobinLength<T>(cs: seq<seq<T>>)
    ensures |RoundRobin(cs)| == |cs| * MinLen(cs)
  {
    StrideIsProduct(MinLen(cs), |cs|);
  }

  lemma {:induction false} StrideIsProduct(k: nat, n: nat)
    ensures Stride(k, n) == n * k
  {
    if k > 0 {
      StrideIsProduct(k - 1, n);
      MulSucc(n, k - 1);
    }
  }

  lemma {:induction false} StrideTwo(k: nat)
    ensures Stride(k, 2) == 2 * k
  {
    if k > 0 { StrideTwo(k - 1); }
  }

  /** Round `k0 + d` starts `d` strides into the rounds from `k0` on. */
  lemma {:induction false} RoundsFromAt<T>(cs: seq<seq<T>>, k0: nat, d: nat, c: nat)
    requires k0 + d < MinLen(cs) && c < |cs|
    ensures Stride(d, |cs|) + c < |RoundsFrom(cs, k0)|
    ensures RoundsFrom(cs, k0)[Stride(d, |cs|) + c] == cs[c][k0 + d]
    decreases d
  {
    var n := |cs|;
    var head, rest := Round(cs, k0), RoundsFrom(cs, k0 + 1);
    assert RoundsFrom(cs, k0) == head + rest && |head| == n;
    if d == 0 {
      assert head[c] == cs[c][k0];
    } else {
      RoundsFromAt(cs, k0 + 1, d - 1, c);
      var j := Stride(d - 1, n) + c;
      assert j < |rest| && rest[j] == cs[c][k0 + d];
      assert Stride(d, n) + c == n + j;
      assert (head + rest)[n + j] == rest[j];
    }
  }

  /** The element of sequence `c` in round `k` sits at index `k * |cs| + c`. */
  lemma {:induction false} RoundRobinAt<T>(cs: seq<seq<T>>, k: nat, c: nat)
    requires k < MinLen(cs) && c < |cs|
    ensures Stride(k, |cs|) + c < |RoundRobin(cs)|
    ensures RoundRobin(cs)[Stride(k, |cs|) + c] == cs[c][k]
  {
    RoundsFromAt(cs, 0, k, c);
  }

  lemma {:induction false} MulSucc(n: nat, m: nat)
    ensures n * (m + 1) == n * m + n && (m + 1) * n == m * n + n
  {
  }

  /** `%` is the two-collection case of `alternate`. */
  lemma {:induction false} InterleaveIsRoundRobin<T>(a: seq<T>, b: seq<T>)
    ensures Interleave(a, b) == RoundRobin([a, b])
  {
    var r := RoundRobin([a, b]);
    var m := MinLen([a, b]);
    assert m == Min(|a|, |b|);
    StrideTwo(m);
    var w := Interleave(a, b);
    assert |r| == |w|;
    forall i | 0 <= i < |r|
      ensures r[i] == w[i]
    {
      var k, c := i / 2, i % 2;
      assert i == 2 * k + c && k < m;
      RoundRobinAt([a, b], k, c);
      StrideTwo(k);
      if c == 0 {
        assert r[i] == a[k] == w[2 * k];
      } else {
        assert r[i] == b[k] == w[2 * k + 1];
      }
    }
  }
}
