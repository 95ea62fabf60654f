/** Attaching audio features to tracks. Both generations walk the items in
    order, assign `item.audio_features` from a lookup keyed by track id, and
    let the lookup's `KeyError` escape at the first id it lacks; items before
    that one have already been given their features. */
module Enrichment {
  import opened Tracks

  /** `item.audio_features = features`. */
  function Attach(item: Item, features: AudioFeatures): (r: Item)
    ensures r.features == Some(features)
    ensures r.id == item.id && r.name == item.name && r.durationMs == item.durationMs
    ensures r.albumArtistId == item.albumArtistId
  {
    item.(features := Some(features))
  }

  /** The run of the enrichment loop over `items` against the features the
      catalog reports (`catalog`): the items it gets through, each with its
      features attached, and the `KeyError` for the first id the catalog lacks. */
  function EnrichRun(items: seq<Item>, catalog: map<string, AudioFeatures>): Yield
  {
    if items == [] then Yield([], None)
    else if items[0].id !in catalog then Yield([], Some(KeyError(items[0].id)))
    else Then([Attach(items[0], catalog[items[0].id])], EnrichRun(items[1..], catalog))
  }

  /** The run enriches a prefix of the items, each with the features the catalog
      reports for its id; it completes exactly when the catalog knows every id,
      and otherwise stops at the first unknown id with a `KeyError` naming it. */
  lemma {:induction false} EnrichRunSpec(items: seq<Item>, catalog: map<string, AudioFeatures>)
    ensures var y := EnrichRun(items, catalog);
      && |y.items| <= |items|
      && (forall i :: 0 <= i < |y.items| ==>
            items[i].id in catalog && y.items[i] == Attach(items[i], catalog[items[i].id]))
      && (y.raised.None? <==> forall i :: 0 <= i < |items| ==> items[i].id in catalog)
      && (y.raised.None? ==> |y.items| == |items|)
      && (y.raised.Some? ==>
            |y.items| < |items| && items[|y.items|].id !in catalog
            && y.raised == Some(KeyError(items[|y.items|].id)))
  {
    if items != [] && items[0].id in catalog {
      EnrichRunSpec(items[1..], catalog);
      assert forall i :: 1 <= i < |items| ==> items[i] == items[1..][i - 1];
    }
  }

  /** Every item the run hands on carries features. */
  lemma {:induction false} EnrichRunHasFeatures(items: seq<Item>, catalog: map<string, AudioFeatures>)
    ensures AllHaveFeatures(EnrichRun(items, catalog).items)
  {
    EnrichRunSpec(items, catalog);
  }

  /** One step of the run from position `i`: the item there either has no
      features, and the run stops with its `KeyError`, or it is enriched and
      the run goes on from `i + 1`. */
  lemma {:induction false} EnrichRunStep(items: seq<Item>, i: nat, catalog: map<string, AudioFeatures>)
    requires i < |items|
    ensures items[i].id !in catalog ==>
              EnrichRun(items[i..], catalog) == Yield([], Some(KeyError(items[i].id)))
    ensures items[i].id in catalog ==>
              EnrichRun(items[i..], catalog)
              == Then([Attach(items[i], catalog[items[i].id])], EnrichRun(items[i + 1..], catalog))
  {
    assert items[i..][0] == items[i] && items[i..][1..] == items[i + 1..];
  }

  /** A run that has enriched `out` and stands at position `i` enriches one more item. */
  lemma {:induction false} EnrichRunAdvance(items: seq<Item>, i: nat, out: seq<Item>, catalog: map<string, AudioFeatures>)
    requires i < |items| && items[i].id in catalog
    requires EnrichRun(items, catalog) == Then(out, EnrichRun(items[i..], catalog))
    ensures EnrichRun(items, catalog)
         == Then(out + [Attach(items[i], catalog[items[i].id])], EnrichRun(items[i + 1..], catalog))
  {
    EnrichRunStep(items, i, catalog);
    ThenThen(out, [Attach(items[i], catalog[items[i].id])], EnrichRun(items[i + 1..], catalog));
  }

  /** A run that has enriched `out` and stands at a position whose id has no
      features leaves the list as `out` followed by the items not reached. */
  lemma {:induction false} EnrichInPlaceStop(items: seq<Item>, i: nat, out: seq<Item>, catalog: map<string, AudioFeatures>)
    requires i < |items| && items[i].id !in catalog && |out| == i
    requires EnrichRun(items, catalog) == Then(out, EnrichRun(items[i..], catalog))
    ensures EnrichInPlace(items, catalog) == out + items[i..]
    ensures EnrichRun(items, catalog).raised == Some(KeyError(items[i].id))
  {
    EnrichRunStep(items, i, catalog);
    assert EnrichRun(items, catalog).items == out;
  }

  /** A run that has enriched `out` and reached the end leaves the list as `out`. */
  lemma {:induction false} EnrichInPlaceDone(items: seq<Item>, out: seq<Item>, catalog: map<string, AudioFeatures>)
    requires |out| == |items|
    requires EnrichRun(items, catalog) == Then(out, EnrichRun(items[|items|..], catalog))
    ensures EnrichInPlace(items, catalog) == out
    ensures EnrichRun(items, catalog).raised == None
  {
    assert items[|items|..] == [];
    assert EnrichRun(items, catalog).items == out + [];
  }

  /** The items after a run that may have stopped early: those it reached carry
      their features, the rest are as they were. This is what a list of track
      objects looks like after the loop, since it assigns to each object in place. */
  function EnrichInPlace(items: seq<Item>, catalog: map<string, AudioFeatures>): (r: seq<Item>)
    ensures |r| == |items|
    ensures EnrichRun(items, catalog).raised.None? ==> AllHaveFeatures(r)
  {
    var y := EnrichRun(items, catalog);
    EnrichRunSpec(items, catalog);
    y.items + items[|y.items|..]
  }

  /** Enriching in place changes no item's id, and gives exactly the items before
      the first unknown id their features. */
  lemma {:induction false} EnrichInPlaceKeepsIds(items: seq<Item>, catalog: map<string, AudioFeatures>)
    ensures Ids(EnrichInPlace(items, catalog)) == Ids(items)
    ensures var n := |EnrichRun(items, catalog).items|;
      forall i :: 0 <= i < |items| ==>
        if i < n then items[i].id in catalog && EnrichInPlace(items, catalog)[i] == Attach(items[i], catalog[items[i].id])
        else EnrichInPlace(items, catalog)[i] == items[i]
  {
    EnrichRunSpec(items, catalog);
    var y := EnrichRun(items, catalog);
    var n := |y.items|;
    var r := EnrichInPlace(items, catalog);
    assert r == y.items + items[n..];
    forall i | 0 <= i < |items|
      ensures if i < n then items[i].id in catalog && r[i] == Attach(items[i], catalog[items[i].id])
              else r[i] == items[i]
      ensures r[i].id == items[i].id
    {
      if i < n {
        assert r[i] == y.items[i];
      } else {
        assert r[i] == items[n..][i - n];
      }
    }
    assert forall i :: 0 <= i < |items| ==> Ids(r)[i] == Ids(items)[i];
  }
}
