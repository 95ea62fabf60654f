/** The earlier, list-based `TrackCollection`. Its `+`, `-` and `/` go through
    Python sets, so their results hold each distinct item once in an order the
    set decides; its reordering and filtering methods overwrite the receiver's
    item list and return the receiver itself. */
module ListCollections {
  import opened Tracks
  import opened Sequences
  import opened Sorting
  import opened Enrichment
  import Lazy = LazyCollections

  /** The elements of `s`. */
  ghost function Elements(s: seq<Item>): set<Item>
  {
    set x | x in s
  }

  /** `list(some_set)`: each element once, in an order the set decides. */
  ghost function SetToSeq(s: set<Item>): (r: seq<Item>)
    ensures Distinct(r) && |r| == |s| && forall x :: x in r <==> x in s
    decreases |s|
  {
    if s == {} then []
    else
      var x :| x in s;
      [x] + SetToSeq(s - {x})
  }

  /** `A + B`: every item of A or of B exactly once; the flag is the conjunction. */
  ghost function Add(a: Collection, b: Collection): (r: Collection)
    ensures r.id == "" && r.enriched == (a.enriched && b.enriched)
    ensures Distinct(r.items) && forall x :: x in r.items <==> x in a.items || x in b.items
  {
    Collection("", SetToSeq(Elements(a.items + b.items)), a.enriched && b.enriched)
  }

  /** `A - B`: every item of A that is not in B, once; A's flag. */
  ghost function Sub(a: Collection, b: Collection): (r: Collection)
    ensures r.id == "" && r.enriched == a.enriched
    ensures Distinct(r.items) && forall x :: x in r.items <==> x in a.items && x !in b.items
  {
    Collection("", SetToSeq(Elements(a.items) - Elements(b.items)), a.enriched)
  }

  /** `A / B`: every item in both, once; here the flag is the conjunction. */
  ghost function Div(a: Collection, b: Collection): (r: Collection)
    ensures r.id == "" && r.enriched == (a.enriched && b.enriched)
    ensures Distinct(r.items) && forall x :: x in r.items <==> x in a.items && x in b.items
  {
    Collection("", SetToSeq(Elements(a.items) * Elements(b.items)), a.enriched && b.enriched)
  }

  /** `A % B`: A without the items that occur in B, interleaved with B. */
  function Mod(a: Collection, b: Collection): (r: Collection)
    ensures r.id == "" && r.enriched == (a.enriched && b.enriched)
  {
    Collection("", Interleave(Filter(a.items, x => x !in b.items), b.items), a.enriched && b.enriched)
  }

  /** `%` pairs the `i`-th item of A that B lacks with the `i`-th item of B, and
      stops with the shorter of the two; nothing of B ever comes from A's side. */
  lemma {:induction false} ModInterleavesFiltered(a: Collection, b: Collection)
    ensures var kept := Filter(a.items, x => x !in b.items);
      && |Mod(a, b).items| == 2 * Min(|kept|, |b.items|)
      && (forall i :: 0 <= i < Min(|kept|, |b.items|) ==>
            Mod(a, b).items[2 * i] == kept[i] && Mod(a, b).items[2 * i + 1] == b.items[i])
      && (forall i :: 0 <= i < Min(|kept|, |b.items|) ==>
            Mod(a, b).items[2 * i] in a.items && Mod(a, b).items[2 * i] !in b.items)
  {
    var kept := Filter(a.items, x => x !in b.items);
    forall i | 0 <= i < Min(|kept|, |b.items|)
      ensures kept[i] in a.items && kept[i] !in b.items
    {
      assert kept[i] in kept;
    }
  }

  /** `0 + c` is `c` itself; anything else is `c + other`. */
  ghost function RAdd(self: Collection, other: Lazy.Summand): (r: Collection)
    ensures other == Lazy.Zero ==> r == self
  {
    match other
    case Zero => self
    case Coll(c) => Add(self, c)
  }

  ghost function SumFrom(acc: Lazy.Summand, cs: seq<Collection>): Lazy.Summand
    decreases |cs|
  {
    if cs == [] then acc
    else
      var next := match acc
        case Zero => RAdd(cs[0], Lazy.Zero)
        case Coll(a) => Add(a, cs[0]);
      SumFrom(Lazy.Coll(next), cs[1..])
  }

  /** `sum(cs)` over list-based collections. */
  ghost function Sum(cs: seq<Collection>): Lazy.Summand
  {
    SumFrom(Lazy.Zero, cs)
  }

  /** An item of some collection of `cs`. */
  ghost predicate InSome(cs: seq<Collection>, x: Item)
  {
    exists i :: 0 <= i < |cs| && x in cs[i].items
  }

  /** An item of some collection of `cs` is an item of its first or of one of the rest. */
  lemma {:induction false} InSomeCons(cs: seq<Collection>)
    requires cs != []
    ensures forall x :: InSome(cs, x) <==> x in cs[0].items || InSome(cs[1..], x)
  {
    forall x ensures InSome(cs, x) <==> x in cs[0].items || InSome(cs[1..], x) {
      if InSome(cs, x) {
        var i :| 0 <= i < |cs| && x in cs[i].items;
        if i > 0 {
          assert x in cs[1..][i - 1].items;
        }
      }
      if InSome(cs[1..], x) {
        var i :| 0 <= i < |cs[1..]| && x in cs[1..][i].items;
        assert x in cs[i + 1].items;
      }
    }
  }

  lemma {:induction false} SumFromUnion(a: Collection, cs: seq<Collection>)
    requires cs != []
    ensures SumFrom(Lazy.Coll(a), cs).Coll?
    ensures var r := SumFrom(Lazy.Coll(a), cs).c;
      && r.id == "" && Distinct(r.items)
      && (forall x :: x in r.items <==> x in a.items || InSome(cs, x))
      && r.enriched == (a.enriched && Lazy.AllEnriched(cs))
    decreases |cs|
  {
    var next := Add(a, cs[0]);
    if |cs| > 1 {
      SumFromUnion(next, cs[1..]);
      InSomeCons(cs);
      assert Lazy.AllEnriched(cs) == (cs[0].enriched && Lazy.AllEnriched(cs[1..]));
    } else {
      InSomeCons(cs);
      assert forall x :: !InSome(cs[1..], x);
    }
  }

  /** `sum(cs)` is 0 for no collections and the collection itself, duplicates and
      all, for one; from two on it is a set union: every item of any of them,
      each once, flagged only when all of them are. */
  lemma {:induction false} SumIsUnion(cs: seq<Collection>)
    ensures cs == [] <==> Sum(cs) == Lazy.Zero
    ensures |cs| == 1 ==> Sum(cs) == Lazy.Coll(cs[0])
    ensures |cs| >= 2 ==> Sum(cs).Coll? && Sum(cs).c.id == "" && Distinct(Sum(cs).c.items)
    ensures |cs| >= 2 ==> forall x :: x in Sum(cs).c.items <==> InSome(cs, x)
    ensures |cs| >= 2 ==> Sum(cs).c.enriched == Lazy.AllEnriched(cs)
  {
    if cs != [] {
      assert Sum(cs) == SumFrom(Lazy.Coll(cs[0]), cs[1..]);
    }
    if |cs| == 1 {
      assert cs[1..] == [];
    }
    if |cs| >= 2 {
      SumFromUnion(cs[0], cs[1..]);
      InSomeCons(cs);
      assert Lazy.AllEnriched(cs) == (cs[0].enriched && Lazy.AllEnriched(cs[1..]));
    }
  }

  /** `ArtistCollection.items` and `AlbumCollection.items`: the injected items when
      the list is not empty, else the sum of the sub-collections, else nothing. */
  ghost function NestedItems(injected: seq<Item>, subs: seq<Collection>): seq<Item>
  {
    if injected != [] then injected
    else if subs == [] then []
    else SumIsUnion(subs); Sum(subs).c.items
  }

  /** Without injected items, one sub-collection is passed through as it is and two
      or more are merged into each of their items once. */
  lemma {:induction false} NestedItemsUnion(injected: seq<Item>, subs: seq<Collection>)
    requires injected == []
    ensures |subs| == 1 ==> NestedItems(injected, subs) == subs[0].items
    ensures |subs| >= 2 ==> Distinct(NestedItems(injected, subs))
                            && forall x :: x in NestedItems(injected, subs) <==> InSome(subs, x)
  {
    SumIsUnion(subs);
  }

  /** The names of the items, in order. */
  function Names(s: seq<Item>): (r: seq<string>)
    ensures |r| == |s| && forall i :: 0 <= i < |s| ==> r[i] == s[i].name
  {
    seq(|s|, i requires 0 <= i < |s| => s[i].name)
  }

  predicate DistinctNames(s: seq<Item>)
  {
    forall i, j :: 0 <= i < j < |s| ==> s[i].name != s[j].name
  }

  /** What `remove_duplicates` leaves: scanning left to right, an item is kept
      exactly when no item kept before it has its name. */
  function DedupByName(s: seq<Item>): seq<Item>
    decreases |s|
  {
    if s == [] then []
    else
      var kept := DedupByName(s[..|s| - 1]);
      if s[|s| - 1].name in Names(kept) then kept else kept + [s[|s| - 1]]
  }

  lemma {:induction false} NamesSnoc(r: seq<Item>, x: Item)
    ensures Names(r + [x]) == Names(r) + [x.name]
  {
    var n, m := Names(r + [x]), Names(r) + [x.name];
    assert |n| == |m| && forall i :: 0 <= i < |n| ==> n[i] == m[i];
  }

  lemma {:induction false} DedupDistinct(s: seq<Item>)
    ensures DistinctNames(DedupByName(s))
    decreases |s|
  {
    if s != [] {
      var init, last := s[..|s| - 1], s[|s| - 1];
      var kept := DedupByName(init);
      DedupDistinct(init);
      if last.name !in Names(kept) {
        var r := kept + [last];
        assert r == DedupByName(s);
        forall i, j | 0 <= i < j < |r| ensures r[i].name != r[j].name {
          if j == |r| - 1 {
            assert Names(kept)[i] == r[i].name;
          } else {
            assert r[i] == kept[i] && r[j] == kept[j];
          }
        }
      }
    }
  }

  lemma {:induction false} DedupSubsequence(s: seq<Item>)
    ensures Subsequence(DedupByName(s), s)
    decreases |s|
  {
    if s != [] {
      var init, last := s[..|s| - 1], s[|s| - 1];
      var kept := DedupByName(init);
      DedupSubsequence(init);
      assert init + [last] == s;
      if last.name in Names(kept) {
        SubsequenceExtend(kept, init, last);
      } else {
        var r := kept + [last];
        assert r[..|r| - 1] == kept && r[|r| - 1] == last;
      }
    }
  }

  lemma {:induction false} DedupCovers(s: seq<Item>)
    ensures forall j :: 0 <= j < |s| ==> s[j].name in Names(DedupByName(s))
    decreases |s|
  {
    if s != [] {
      var init, last := s[..|s| - 1], s[|s| - 1];
      var kept := DedupByName(init);
      DedupCovers(init);
      if last.name !in Names(kept) {
        NamesSnoc(kept, last);
      }
      forall j | 0 <= j < |s| ensures s[j].name in Names(DedupByName(s)) {
        if j < |init| {
          assert s[j] == init[j];
        }
      }
    }
  }

  /** After `remove_duplicates` no two items share a name, the survivors keep
      their relative order, and every name of the original list survives. */
  lemma {:induction false} DedupNamesDistinct(s: seq<Item>)
    ensures DistinctNames(DedupByName(s))
    ensures Subsequence(DedupByName(s), s)
    ensures forall j :: 0 <= j < |s| ==> s[j].name in Names(DedupByName(s))
  {
    DedupDistinct(s);
    DedupSubsequence(s);
    DedupCovers(s);
  }

  /** Every kept item is the first item of the original list carrying its name. */
  lemma {:induction false} DedupKeepsFirst(s: seq<Item>, i: nat)
    requires i < |DedupByName(s)|
    ensures exists j :: 0 <= j < |s| && s[j] == DedupByName(s)[i]
                        && forall k :: 0 <= k < j ==> s[k].name != s[j].name
    decreases |s|
  {
    var init := s[..|s| - 1];
    var last := s[|s| - 1];
    var kept := DedupByName(init);
    assert forall j :: 0 <= j < |init| ==> s[j] == init[j];
    if i < |kept| {
      DedupKeepsFirst(init, i);
      var j :| 0 <= j < |init| && init[j] == kept[i] && forall k :: 0 <= k < j ==> init[k].name != init[j].name;
      assert s[j] == DedupByName(s)[i];
    } else {
      assert DedupByName(s)[i] == last;
      DedupCovers(init);
      forall k | 0 <= k < |s| - 1 ensures s[k].name != last.name {
        assert init[k].name in Names(kept);
      }
    }
  }

  /** A list whose names are already distinct comes through unchanged. */
  lemma {:induction false} DedupOfDistinct(s: seq<Item>)
    requires DistinctNames(s)
    ensures DedupByName(s) == s
    decreases |s|
  {
    if s != [] {
      var init, last := s[..|s| - 1], s[|s| - 1];
      assert DistinctNames(init) by {
        forall i, j | 0 <= i < j < |init| ensures init[i].name != init[j].name {
          assert init[i] == s[i] && init[j] == s[j];
        }
      }
      DedupOfDistinct(init);
      assert last.name !in Names(init) by {
        forall i | 0 <= i < |init| ensures Names(init)[i] != last.name {
          assert init[i] == s[i];
        }
      }
      assert init + [last] == s;
    }
  }

  /** `remove_duplicates` is idempotent. */
  lemma {:induction false} DedupIdempotent(s: seq<Item>)
    ensures DedupByName(DedupByName(s)) == DedupByName(s)
  {
    DedupDistinct(s);
    DedupOfDistinct(DedupByName(s));
  }

  /** A `pop(idx)` of a name already kept keeps `remove_duplicates`' loop in step. */
  lemma {:induction false} DedupDropStep(orig: seq<Item>, seen: nat, list: seq<Item>, idx: nat, list2: seq<Item>)
    requires idx < |list| && seen < |orig|
    requires list[..idx] == DedupByName(orig[..seen]) && list[idx..] == orig[seen..]
    requires list[idx].name in Names(list)[..idx]
    requires list2 == list[..idx] + list[idx + 1..]
    ensures list2[..idx] == DedupByName(orig[..seen + 1]) && list2[idx..] == orig[seen + 1..]
  {
    var pre := orig[..seen + 1];
    assert pre[..seen] == orig[..seen] && pre[seen] == orig[seen] == list[idx];
    assert Names(list)[..idx] == Names(list[..idx]);
    assert list2[..idx] == list[..idx] && list2[idx..] == list[idx + 1..];
    assert list[idx + 1..] == list[idx..][1..];
  }

  /** Keeping a new name and moving on keeps `remove_duplicates`' loop in step. */
  lemma {:induction false} DedupKeepStep(orig: seq<Item>, seen: nat, list: seq<Item>, idx: nat)
    requires idx < |list| && seen < |orig|
    requires list[..idx] == DedupByName(orig[..seen]) && list[idx..] == orig[seen..]
    requires list[idx].name !in Names(list)[..idx]
    ensures list[..idx + 1] == DedupByName(orig[..seen + 1]) && list[idx + 1..] == orig[seen + 1..]
  {
    var pre := orig[..seen + 1];
    assert pre[..seen] == orig[..seen] && pre[seen] == orig[seen] == list[idx];
    assert Names(list)[..idx] == Names(list[..idx]);
    assert list[..idx + 1] == list[..idx] + [list[idx]];
    assert list[idx + 1..] == list[idx..][1..];
  }

  /** The name test `remove_remixes` applies in this generation: only "remix". */
  predicate IsRemix(item: Item)
  {
    Contains(Lower(item.name), "remix")
  }

  /** Assigning to the first position past the done prefix moves one element
      from the pending part of the list to the done part. */
  lemma {:induction false} ReplaceNext(orig: seq<Item>, i: nat, done: seq<Item>, list: seq<Item>, x: Item,
                    done2: seq<Item>, list2: seq<Item>)
    requires i < |orig| && |done| == i && list == done + orig[i..]
    requires list2 == list[i := x] && done2 == done + [x]
    ensures list2 == done2 + orig[i + 1..]
  {
    var want := done2 + orig[i + 1..];
    assert |list2| == |want|;
    forall j | 0 <= j < |want| ensures list2[j] == want[j] {
      if j > i {
        assert list2[j] == list[j] == orig[j] == want[j];
      }
    }
  }

  /** A list-based collection. */
  class TrackCollection {
    var id: string
    var items: seq<Item>
    var enriched: bool

    constructor (id: string, items: seq<Item>, enriched: bool)
      ensures this.id == id && this.items == items && this.enriched == enriched
    {
      this.id := id;
      this.items := items;
      this.enriched := enriched;
    }

    /** `shuffle()`: the items in the order the random draws pick them. */
    method Shuffle(draws: seq<nat>) returns (r: TrackCollection)
      modifies this`items
      ensures r == this && items == PickOrder(old(items), draws)
      ensures multiset(items) == multiset(old(items))
    {
      PickOrderPermutes(items, draws);
      items := PickOrder(items, draws);
      r := this;
    }

    /** `random(N)`: `min(N, len)` items drawn without replacement; a negative
        `N` makes `random.sample` raise before the items are replaced. */
    method Random(n: int, draws: seq<nat>) returns (r: Result<TrackCollection>)
      modifies this`items
      ensures n < 0 <==> r == Err(ValueError)
      ensures n < 0 ==> items == old(items)
      ensures n >= 0 ==> r == Ok(this) && items == Sample(old(items), Min(n, |old(items)|), draws)
      ensures n >= 0 ==> |items| == Min(n, |old(items)|) && multiset(items) <= multiset(old(items))
    {
      if n < 0 {
        return Err(ValueError);
      }
      items := Sample(items, Min(n, |items|), draws);
      r := Ok(this);
    }

    /** `remove_remixes()`: keeps, in order, the items whose name has no "remix". */
    method RemoveRemixes() returns (r: TrackCollection)
      modifies this`items
      ensures r == this && items == Tracks.Filter(old(items), x => !IsRemix(x))
      ensures forall x :: multiset(items)[x] == if IsRemix(x) then 0 else multiset(old(items))[x]
    {
      items := Tracks.Filter(items, x => !IsRemix(x));
      r := this;
    }

    /** `remove_duplicates()`: walks a copy of the list, popping every item whose
        name already occurs before it, then installs the copy. */
    method RemoveDuplicates() returns (r: TrackCollection)
      modifies this`items
      ensures r == this && items == DedupByName(old(items))
    {
      var orig := items;
      var list := items;
      var idx := 0;
      ghost var seen := 0;
      while idx < |list|
        invariant 0 <= idx <= |list| && 0 <= seen <= |orig|
        invariant list[..idx] == DedupByName(orig[..seen]) && list[idx..] == orig[seen..]
        decreases |list| - idx
      {
        if list[idx].name in Names(list)[..idx] {
          ghost var prev := list;
          list := list[..idx] + list[idx + 1..];
          DedupDropStep(orig, seen, prev, idx, list);
        } else {
          DedupKeepStep(orig, seen, list, idx);
          idx := idx + 1;
        }
        seen := seen + 1;
      }
      assert orig[..seen] == orig;
      items := list;
      r := this;
    }

    /** `_enrich_with_audio_features(self.items)`: one batch request for all ids,
        then each item in turn is given the features the response holds for its
        id; an id the response lacks raises `KeyError`, leaving the items before it
        already enriched (they are the same objects as the receiver's). */
    method EnrichWithAudioFeatures(fetch: seq<string> -> map<string, AudioFeatures>)
      returns (requested: seq<string>, raised: Option<Error>)
      modifies this`items
      ensures requested == Ids(old(items))
      ensures items == EnrichInPlace(old(items), fetch(requested))
      ensures raised == EnrichRun(old(items), fetch(requested)).raised
    {
      requested := Ids(items);
      raised := AssignFeatures(fetch(requested));
    }

    /** The `for item in items` loop of the batch enrichment, given the response. */
    method AssignFeatures(found: map<string, AudioFeatures>) returns (raised: Option<Error>)
      modifies this`items
      ensures items == EnrichInPlace(old(items), found)
      ensures raised == EnrichRun(old(items), found).raised
    {
      ghost var orig, done := items, [];
      var i := 0;
      while i < |items|
        invariant |items| == |orig| && 0 <= i <= |orig| && |done| == i
        invariant items == done + orig[i..]
        invariant EnrichRun(orig, found) == Then(done, EnrichRun(orig[i..], found))
      {
        var item := items[i];
        assert item == orig[i];
        if item.id !in found {
          EnrichInPlaceStop(orig, i, done, found);
          return Some(KeyError(item.id));
        }
        EnrichRunAdvance(orig, i, done, found);
        ghost var list, before := items, done;
        items := items[i := Attach(item, found[item.id])];
        done := done + [Attach(item, found[item.id])];
        ReplaceNext(orig, i, before, list, Attach(item, found[item.id]), done, items);
        i := i + 1;
      }
      EnrichInPlaceDone(orig, done, found);
      assert orig[i..] == [];
      raised := None;
    }

    /** `sort(by, ascending)`: when the key reads audio features and the receiver
        is not flagged, its items are enriched first and the flag is set once
        that succeeds; a `KeyError` propagates with the flag unchanged. The result
        is a new collection holding the receiver's items in stable key order,
        carrying the receiver's flag. */
    method Sort(key: Item -> int, ascending: bool, needsFeatures: bool,
                fetch: seq<string> -> map<string, AudioFeatures>) returns (r: Result<Collection>)
      modifies this`items, this`enriched
      ensures var run := EnrichRun(old(items), fetch(Ids(old(items))));
        && (needsFeatures && !old(enriched) ==> items == EnrichInPlace(old(items), fetch(Ids(old(items)))))
        && (!(needsFeatures && !old(enriched)) ==> items == old(items))
        && (r.Err? <==> needsFeatures && !old(enriched) && run.raised.Some?)
        && (r.Err? ==> r.error == run.raised.value && enriched == old(enriched))
        && (r.Ok? ==> enriched == (old(enriched) || needsFeatures))
        && (r.Ok? ==> r.value == Collection("", StableSort(items, key, ascending), enriched))
      ensures r.Ok? ==> SortedBy(r.value.items, key, ascending) && multiset(r.value.items) == multiset(items)
      ensures r.Ok? && needsFeatures && !old(enriched) ==> AllHaveFeatures(r.value.items)
    {
      if needsFeatures && !enriched {
        var requested, raised := EnrichWithAudioFeatures(fetch);
        if raised.Some? {
          return Err(raised.value);
        }
        enriched := true;
      }
      StableSortSorted(items, key, ascending);
      StableSortPermutes(items, key, ascending);
      var sorted := StableSort(items, key, ascending);
      if needsFeatures && !old(enriched) {
        forall x | x in sorted ensures x.features.Some? {
          assert x in multiset(items);
        }
      }
      r := Ok(Collection("", sorted, enriched));
    }

    /** `filter(criteria)`: the same enrichment as `sort`, then a new collection
        holding, in order, the receiver's items that meet the criteria. */
    method Filter(criteria: Item -> bool, needsFeatures: bool,
                  fetch: seq<string> -> map<string, AudioFeatures>) returns (r: Result<Collection>)
      modifies this`items, this`enriched
      ensures var run := EnrichRun(old(items), fetch(Ids(old(items))));
        && (needsFeatures && !old(enriched) ==> items == EnrichInPlace(old(items), fetch(Ids(old(items)))))
        && (!(needsFeatures && !old(enriched)) ==> items == old(items))
        && (r.Err? <==> needsFeatures && !old(enriched) && run.raised.Some?)
        && (r.Err? ==> r.error == run.raised.value && enriched == old(enriched))
        && (r.Ok? ==> enriched == (old(enriched) || needsFeatures))
        && (r.Ok? ==> r.value == Collection("", Tracks.Filter(items, criteria), enriched))
      ensures r.Ok? ==> forall x :: x in r.value.items <==> x in items && criteria(x)
    {
      if needsFeatures && !enriched {
        var requested, raised := EnrichWithAudioFeatures(fetch);
        if raised.Some? {
          return Err(raised.value);
        }
        enriched := true;
      }
      r := Ok(Collection("", Tracks.Filter(items, criteria), enriched));
    }

    /** `set_id(id_)`: a new collection under the new id sharing the receiver's
        item list and flag. */
    method SetId(newId: string) returns (r: TrackCollection)
      ensures fresh(r) && r.id == newId && r.items == items && r.enriched == enriched
    {
      r := new TrackCollection(newId, items, enriched);
    }
  }
}
