/** The generator-based `TrackCollection` algebra. Every operator builds a
    new anonymous collection around a generator over its operands' `items`;
    a collection is modelled by the finite sequence that generator yields. */
module LazyCollections {
  import opened Tracks
  import opened Sequences
  import opened Sorting
  import opened Enrichment

  /** `A + B`: all of A's items, then all of B's, nothing removed. */
  function Add(a: Collection, b: Collection): (r: Collection)
    ensures r.id == "" && r.enriched == (a.enriched && b.enriched)
    ensures |r.items| == |a.items| + |b.items|
    ensures r.items[..|a.items|] == a.items && r.items[|a.items|..] == b.items
  {
    Collection("", a.items + b.items, a.enriched && b.enriched)
  }

  /** The running value of Python's `sum`, which starts from the integer 0. */
  datatype Summand = Zero | Coll(c: Collection)

  /** `self.__radd__(other)`: `0 + c` is `c` itself, anything else is `self + other`. */
  function RAdd(self: Collection, other: Summand): (r: Collection)
    ensures other == Zero ==> r == self
    ensures other != Zero ==> r.id == "" && r.items == self.items + other.c.items
  {
    match other
    case Zero => self
    case Coll(c) => Add(self, c)
  }

  /** One step of `sum`: `acc + c`, where `0 + c` goes through `c.__radd__(0)`. */
  function Plus(acc: Summand, c: Collection): Collection
  {
    match acc
    case Zero => RAdd(c, Zero)
    case Coll(a) => Add(a, c)
  }

  function SumFrom(acc: Summand, cs: seq<Collection>): Summand
    decreases |cs|
  {
    if cs == [] then acc else SumFrom(Coll(Plus(acc, cs[0])), cs[1..])
  }

  /** `sum(cs)`. */
  function Sum(cs: seq<Collection>): Summand
  {
    SumFrom(Zero, cs)
  }

  /** The items of every collection, one collection after the other. */
  function ConcatItems(cs: seq<Collection>): seq<Item>
  {
    if cs == [] then [] else cs[0].items + ConcatItems(cs[1..])
  }

  predicate AllEnriched(cs: seq<Collection>)
  {
    forall i :: 0 <= i < |cs| ==> cs[i].enriched
  }

  lemma {:induction false} SumFromCollection(a: Collection, cs: seq<Collection>)
    ensures SumFrom(Coll(a), cs).Coll?
    ensures SumFrom(Coll(a), cs).c.items == a.items + ConcatItems(cs)
    ensures SumFrom(Coll(a), cs).c.enriched == (a.enriched && AllEnriched(cs))
    ensures SumFrom(Coll(a), cs).c.id == if cs == [] then a.id else ""
    ensures cs == [] ==> SumFrom(Coll(a), cs) == Coll(a)
    decreases |cs|
  {
    if cs != [] {
      SumFromCollection(Add(a, cs[0]), cs[1..]);
      assert a.items + cs[0].items + ConcatItems(cs[1..]) == a.items + ConcatItems(cs);
      assert AllEnriched(cs) == (cs[0].enriched && AllEnriched(cs[1..]));
    }
  }

  /** `sum(cs)` is 0 for no collections, the collection itself (same object,
      same id) for one, and otherwise a collection yielding every item of every
      collection in order, enriched only when all of them are. */
  lemma {:induction false} SumIsConcatenation(cs: seq<Collection>)
    ensures cs == [] <==> Sum(cs) == Zero
    ensures |cs| == 1 ==> Sum(cs) == Coll(cs[0])
    ensures cs != [] ==> Sum(cs).Coll? && Sum(cs).c.items == ConcatItems(cs)
                         && Sum(cs).c.enriched == AllEnriched(cs)
    ensures |cs| >= 2 ==> Sum(cs).c.id == ""
  {
    if cs != [] {
      SumFromCollection(cs[0], cs[1..]);
      assert cs[0].items + ConcatItems(cs[1..]) == ConcatItems(cs);
      assert AllEnriched(cs) == (cs[0].enriched && AllEnriched(cs[1..]));
    }
  }

  /** `A - B`: A's items, in A's order, that are not equal to any item of B
      (B is fully materialised first). Only A's flag is kept. */
  function Sub(a: Collection, b: Collection): (r: Collection)
    ensures r.id == "" && r.enriched == a.enriched
    ensures forall x :: multiset(r.items)[x] == if x in b.items then 0 else multiset(a.items)[x]
    ensures Subsequence(r.items, a.items)
  {
    var keep := x => x !in b.items;
    FilterSubsequence(a.items, keep);
    Collection("", Filter(a.items, keep), a.enriched)
  }

  /** `A / B`: A's items, in A's order, that are equal to some item of B.
      The flag is A's alone, not the conjunction `+` and `%` use. */
  function Div(a: Collection, b: Collection): (r: Collection)
    ensures r.id == "" && r.enriched == a.enriched
    ensures forall x :: multiset(r.items)[x] == if x in b.items then multiset(a.items)[x] else 0
    ensures Subsequence(r.items, a.items)
  {
    var keep := x => x in b.items;
    FilterSubsequence(a.items, keep);
    Collection("", Filter(a.items, keep), a.enriched)
  }

  /** `A % B`: a1, b1, a2, b2, ... until either runs out. */
  function Mod(a: Collection, b: Collection): (r: Collection)
    ensures r.id == "" && r.enriched == (a.enriched && b.enriched)
    ensures |r.items| == 2 * Min(|a.items|, |b.items|)
    ensures forall i :: 0 <= i < Min(|a.items|, |b.items|) ==>
              r.items[2 * i] == a.items[i] && r.items[2 * i + 1] == b.items[i]
  {
    Collection("", Interleave(a.items, b.items), a.enriched && b.enriched)
  }

  function ItemsOf(cs: seq<Collection>): (r: seq<seq<Item>>)
    ensures |r| == |cs| && forall i :: 0 <= i < |cs| ==> r[i] == cs[i].items
  {
    seq(|cs|, i requires 0 <= i < |cs| => cs[i].items)
  }

  /** `CollectionCollection.alternate()`: round-robin over the sub-collections,
      stopping with the shortest; the result is never flagged enriched. */
  function Alternate(cs: seq<Collection>): (r: Collection)
    ensures r.id == "" && !r.enriched
    ensures |r.items| == |cs| * MinLen(ItemsOf(cs))
  {
    RoundRobinLength(ItemsOf(cs));
    Collection("", RoundRobin(ItemsOf(cs)), false)
  }

  /** Round `k` of `alternate` holds the `k`-th item of each sub-collection in turn. */
  lemma {:induction false} AlternateAt(cs: seq<Collection>, k: nat, c: nat)
    requires k < MinLen(ItemsOf(cs)) && c < |cs|
    ensures Stride(k, |cs|) + c < |Alternate(cs).items|
    ensures Alternate(cs).items[Stride(k, |cs|) + c] == cs[c].items[k]
  {
    var lists := ItemsOf(cs);
    RoundRobinAt(lists, k, c);
    assert Alternate(cs).items == RoundRobin(lists) && lists[c] == cs[c].items;
  }

  /** `%` yields what `alternate` over the pair yields, though their flags differ. */
  lemma {:induction false} ModIsAlternateOfPair(a: Collection, b: Collection)
    ensures Mod(a, b).items == Alternate([a, b]).items
  {
    InterleaveIsRoundRobin(a.items, b.items);
    assert ItemsOf([a, b]) == [a.items, b.items];
  }

  /** A name `remove_remixes` drops: its lower-cased form contains "remix" or "mixed". */
  predicate IsRemix(item: Item)
  {
    Contains(Lower(item.name), "remix") || Contains(Lower(item.name), "mixed")
  }

  /** `remove_remixes()`: the items, in order, whose name is not a remix's. */
  function RemoveRemixes(c: Collection): (r: Collection)
    ensures r.id == "" && r.enriched == c.enriched
    ensures forall x :: multiset(r.items)[x] == if IsRemix(x) then 0 else multiset(c.items)[x]
    ensures Subsequence(r.items, c.items)
  {
    var keep := x => !IsRemix(x);
    FilterSubsequence(c.items, keep);
    Collection("", Filter(c.items, keep), c.enriched)
  }

  /** `first(n)`: `itertools.islice` is built when `first` is called, so a
      negative `n` raises there; otherwise the first `min(n, |items|)` items. */
  function First(c: Collection, n: int): (r: Result<Collection>)
    ensures n < 0 <==> r == Err(ValueError)
    ensures r.Ok? ==> r.value.id == "" && r.value.enriched == c.enriched
    ensures r.Ok? ==> |r.value.items| == Min(n, |c.items|)
    ensures r.Ok? ==> forall i :: 0 <= i < |r.value.items| ==> r.value.items[i] == c.items[i]
  {
    if n < 0 then Err(ValueError)
    else Ok(Collection("", c.items[..Min(n, |c.items|)], c.enriched))
  }

  /** `shuffle()`: the items in the order the random draws pick them. */
  function Shuffle(c: Collection, draws: seq<nat>): (r: Collection)
    ensures r.id == "" && r.enriched == c.enriched
    ensures multiset(r.items) == multiset(c.items)
  {
    PickOrderPermutes(c.items, draws);
    Collection("", PickOrder(c.items, draws), c.enriched)
  }

  /** `random(N)`: `min(N, |items|)` items drawn without replacement. The
      sample is taken inside the generator, so a negative `N` makes
      `random.sample` raise when the result is consumed. */
  function Random(c: Collection, n: int, draws: seq<nat>): (r: Lazy)
    ensures r.coll.id == "" && r.coll.enriched == c.enriched
    ensures n < 0 <==> r.raised == Some(ValueError)
    ensures n < 0 ==> r.coll.items == []
    ensures n >= 0 ==> r.raised == None && |r.coll.items| == Min(n, |c.items|)
                       && multiset(r.coll.items) <= multiset(c.items)
  {
    if n < 0 then Lazy(Collection("", [], c.enriched), Some(ValueError))
    else Lazy(Collection("", Sample(c.items, Min(n, |c.items|), draws), c.enriched), None)
  }

  /** `set_id(id_)`: a collection with the new id over the same items and flag. */
  function SetId(c: Collection, id: string): (r: Collection)
    ensures r.id == id && r.items == c.items && r.enriched == c.enriched
  {
    Collection(id, c.items, c.enriched)
  }

  /** The items the enrichment step hands on: all of them, enriched, when
      `enrichFirst`, and otherwise the items as they are. Enrichment hands on
      the items before the first id without features, each with its features,
      and then raises `KeyError` of that id. */
  function Source(items: seq<Item>, enrichFirst: bool, catalog: map<string, AudioFeatures>): (y: Yield)
    ensures y.raised.Some? <==>
              enrichFirst && exists i :: 0 <= i < |items| && items[i].id !in catalog
    ensures y.raised.Some? ==> y.raised == EnrichRun(items, catalog).raised
    ensures y.raised.Some? ==>
              |y.items| < |items| && items[|y.items|].id !in catalog
              && y.raised == Some(KeyError(items[|y.items|].id))
    ensures !enrichFirst ==> y.items == items
    ensures enrichFirst ==>
              && |y.items| <= |items|
              && (forall i :: 0 <= i < |y.items| ==>
                    items[i].id in catalog && y.items[i] == Attach(items[i], catalog[items[i].id]))
              && (y.raised.None? ==> |y.items| == |items|)
    ensures enrichFirst ==> AllHaveFeatures(y.items)
  {
    if enrichFirst then EnrichRunSpec(items, catalog); EnrichRunHasFeatures(items, catalog); EnrichRun(items, catalog)
    else Yield(items, None)
  }

  /** Every element of `t` is an element of `s`, so it carries features if all of `s` do. */
  lemma {:induction false} SubsetHasFeatures(s: seq<Item>, t: seq<Item>)
    requires AllHaveFeatures(s) && forall x :: x in t ==> x in s
    ensures AllHaveFeatures(t)
  {
    forall j | 0 <= j < |t| ensures t[j].features.Some? {
      assert t[j] in s;
    }
  }

  /** What the generator of `sort` yields: the receiver's items (enriched
      first when `enrichFirst`), stably sorted. `sorted(list(...))` consumes
      the enrichment completely before yielding, so a `KeyError` leaves
      nothing yielded. */
  function SortedYield(items: seq<Item>, key: Item -> int, ascending: bool, enrichFirst: bool,
                       catalog: map<string, AudioFeatures>): Yield
  {
    var src := Source(items, enrichFirst, catalog);
    if src.raised.Some? then Yield([], src.raised)
    else Yield(StableSort(src.items, key, ascending), None)
  }

  /** `sort` fails exactly when it must enrich and an id has no features, and then
      yields nothing; otherwise it yields a stable sort of the (enriched) items, all
      carrying features when the enrichment ran. */
  lemma {:induction false} SortedYieldSpec(items: seq<Item>, key: Item -> int, ascending: bool, enrichFirst: bool,
                        catalog: map<string, AudioFeatures>, v: int)
    ensures var y := SortedYield(items, key, ascending, enrichFirst, catalog);
      && (y.raised.Some? <==> enrichFirst && exists i :: 0 <= i < |items| && items[i].id !in catalog)
      && (y.raised.Some? ==> y.items == [] && y.raised == EnrichRun(items, catalog).raised)
      && (y.raised.None? ==> SortedBy(y.items, key, ascending))
      && (y.raised.None? ==> KeyClass(y.items, key, v) == KeyClass(Source(items, enrichFirst, catalog).items, key, v))
      && (y.raised.None? && !enrichFirst ==> multiset(y.items) == multiset(items))
      && (y.raised.None? && enrichFirst ==>
            multiset(y.items) == multiset(EnrichRun(items, catalog).items) && AllHaveFeatures(y.items))
  {
    var src := Source(items, enrichFirst, catalog);
    if src.raised.None? {
      var sorted := StableSort(src.items, key, ascending);
      StableSortSorted(src.items, key, ascending);
      StableSortPermutes(src.items, key, ascending);
      StableSortStable(src.items, key, ascending, v);
      if enrichFirst {
        assert forall x :: x in sorted ==> x in multiset(src.items);
        SubsetHasFeatures(src.items, sorted);
      }
    }
  }

  /** What the generator of `filter` yields: the items (enriched first when
      `enrichFirst`) that satisfy the criteria, one by one, so the items that
      pass before a `KeyError` have been yielded when it is raised. */
  function FilteredYield(items: seq<Item>, criteria: Item -> bool, enrichFirst: bool,
                         catalog: map<string, AudioFeatures>): (y: Yield)
    ensures y.raised.Some? <==>
              enrichFirst && exists i :: 0 <= i < |items| && items[i].id !in catalog
    ensures y.raised.Some? ==> y.raised == EnrichRun(items, catalog).raised
    ensures y.raised.Some? ==>
              exists k :: 0 <= k < |items| && items[k].id !in catalog
                          && (forall i :: 0 <= i < k ==> items[i].id in catalog)
                          && y.raised == Some(KeyError(items[k].id))
    ensures forall x :: x in y.items ==> criteria(x)
    ensures !enrichFirst ==> y.items == Filter(items, criteria)
    ensures enrichFirst ==> y.items == Filter(EnrichRun(items, catalog).items, criteria)
                            && AllHaveFeatures(y.items)
  {
    var src := Source(items, enrichFirst, catalog);
    var kept := Filter(src.items, criteria);
    if enrichFirst then
      SubsetHasFeatures(src.items, kept);
      assert src.raised.Some? ==> var k := |src.items|;
        0 <= k < |items| && items[k].id !in catalog
        && (forall i :: 0 <= i < k ==> items[i].id in catalog)
        && src.raised == Some(KeyError(items[k].id));
      Yield(kept, src.raised)
    else Yield(kept, src.raised)
  }

  /** The object side of a collection: `sort` and `filter` are the operators
      that assign to their receiver. */
  class TrackCollection {
    var id: string
    var items: seq<Item>
    var enriched: bool

    constructor (id: string, items: seq<Item>, enriched: bool)
      ensures this.id == id && this.items == items && this.enriched == enriched
    {
      this.id := id;
      this.items := items;
      this.enriched := enriched;
    }

    /** `sort(by, ascending)`, called and then consumed. The result's flag is
        read when `sort` returns, before the generator runs; running it with a
        key that needs audio features on a receiver not yet enriched sets the
        receiver's flag (before the enrichment, so even if it fails). */
    method Sort(key: Item -> int, ascending: bool, needsFeatures: bool,
                catalog: map<string, AudioFeatures>) returns (r: Lazy)
      modifies this`enriched
      ensures r.coll.id == "" && r.coll.enriched == old(enriched)
      ensures enriched == (old(enriched) || needsFeatures)
      ensures Yield(r.coll.items, r.raised)
           == SortedYield(items, key, ascending, needsFeatures && !old(enriched), catalog)
    {
      var flagAtCall := enriched;
      var enrichFirst := needsFeatures && !enriched;
      if enrichFirst {
        enriched := true;
      }
      var y := SortedYield(items, key, ascending, enrichFirst, catalog);
      r := Lazy(Collection("", y.items, flagAtCall), y.raised);
    }

    /** `filter(criteria_func)`, called and then consumed; the flags behave as in `Sort`. */
    method Filter(criteria: Item -> bool, needsFeatures: bool,
                  catalog: map<string, AudioFeatures>) returns (r: Lazy)
      modifies this`enriched
      ensures r.coll.id == "" && r.coll.enriched == old(enriched)
      ensures enriched == (old(enriched) || needsFeatures)
      ensures Yield(r.coll.items, r.raised)
           == FilteredYield(items, criteria, needsFeatures && !old(enriched), catalog)
    {
      var flagAtCall := enriched;
      var enrichFirst := needsFeatures && !enriched;
      if enrichFirst {
        enriched := true;
      }
      var y := FilteredYield(items, criteria, enrichFirst, catalog);
      r := Lazy(Collection("", y.items, flagAtCall), y.raised);
    }
  }

  /** `add_audio_features()`: one lookup per item, each item given its features
      as it is yielded; the result is flagged enriched. */
  method AddAudioFeatures(c: Collection, catalog: map<string, AudioFeatures>) returns (r: Lazy)
    ensures r.coll.id == "" && r.coll.enriched
    ensures Yield(r.coll.items, r.raised) == EnrichRun(c.items, catalog)
  {
    var out: seq<Item> := [];
    var i := 0;
    while i < |c.items|
      invariant 0 <= i <= |c.items|
      invariant EnrichRun(c.items, catalog) == Then(out, EnrichRun(c.items[i..], catalog))
    {
      var item := c.items[i];
      if item.id !in catalog {
        EnrichRunStep(c.items, i, catalog);
        return Lazy(Collection("", out, true), Some(KeyError(item.id)));
      }
      EnrichRunAdvance(c.items, i, out, catalog);
      out := out + [Attach(item, catalog[item.id])];
      i := i + 1;
    }
    assert c.items[i..] == [];
    r := Lazy(Collection("", out, true), None);
  }
}
