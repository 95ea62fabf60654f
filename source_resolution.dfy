/** Where a collection's `items` come from: the injected `_items` when they are
    truthy; otherwise, for a collection with an id, `item_gen`, which reads the
    store when it has the id and else converts the catalog's records, writing
    each track to a loaded store before yielding it; otherwise nothing. */
module SourceResolution {
  import opened Tracks
  import opened LazyCollections

  /** The injected `_items`: a list (the default is the empty list) or a
      generator object, which Python counts as true whatever it will yield. */
  datatype Injected = ListItems(elems: seq<Item>) | GeneratorItems(elems: seq<Item>)

  /** `if self._items:` */
  predicate Truthy(injected: Injected)
  {
    injected.GeneratorItems? || injected.elems != []
  }

  /** The catalog's records, each converted to a track. */
  function Convert<R>(api: seq<R>, convert: R -> Item): (r: seq<Item>)
    ensures |r| == |api| && forall i :: 0 <= i < |api| ==> r[i] == convert(api[i])
  {
    seq(|api|, i requires 0 <= i < |api| => convert(api[i]))
  }

  /** What `items` yields for a collection with this id and injected items, given
      the store's state and the records the catalog would return. */
  function Resolved<R>(loaded: bool, cached: map<string, seq<Item>>, id: string, injected: Injected,
                       api: seq<R>, convert: R -> Item): seq<Item>
  {
    if Truthy(injected) then injected.elems
    else if id == "" then []
    else if loaded && id in cached then cached[id]
    else Convert(api, convert)
  }

  /** The tracks a full consumption of `items` writes to the store. */
  function Writes<R>(loaded: bool, cached: map<string, seq<Item>>, id: string, injected: Injected,
                     api: seq<R>, convert: R -> Item): seq<Item>
  {
    if Truthy(injected) || id == "" || !loaded || id in cached then []
    else Convert(api, convert)
  }

  /** Injected items are yielded as they are and the store is not touched. */
  lemma {:induction false} InjectedWins<R>(loaded: bool, cached: map<string, seq<Item>>, id: string, injected: Injected,
                        api: seq<R>, convert: R -> Item)
    requires Truthy(injected)
    ensures Resolved(loaded, cached, id, injected, api, convert) == injected.elems
    ensures Writes(loaded, cached, id, injected, api, convert) == []
  {
  }

  /** Without truthy injected items, an empty id yields nothing and writes nothing. */
  lemma {:induction false} EmptyIdYieldsNothing<R>(loaded: bool, cached: map<string, seq<Item>>, injected: Injected,
                                api: seq<R>, convert: R -> Item)
    requires !Truthy(injected)
    ensures Resolved(loaded, cached, "", injected, api, convert) == []
    ensures Writes(loaded, cached, "", injected, api, convert) == []
  {
  }

  /** Otherwise the store, when loaded and holding the id, is read and nothing is
      written; in every other case the catalog's records are converted, and they
      are all written exactly when the store is loaded. */
  lemma {:induction false} StoreOrCatalog<R>(loaded: bool, cached: map<string, seq<Item>>, id: string, injected: Injected,
                          api: seq<R>, convert: R -> Item)
    requires !Truthy(injected) && id != ""
    ensures loaded && id in cached ==>
              Resolved(loaded, cached, id, injected, api, convert) == cached[id]
              && Writes(loaded, cached, id, injected, api, convert) == []
    ensures !(loaded && id in cached) ==>
              Resolved(loaded, cached, id, injected, api, convert) == Convert(api, convert)
              && Writes(loaded, cached, id, injected, api, convert)
                 == if loaded then Resolved(loaded, cached, id, injected, api, convert) else []
  {
  }

  /** `set_id` wraps the receiver's `items` generator, which is truthy, so the
      renamed collection yields what the receiver yields and never reads the
      store or the catalog under its new id. */
  lemma {:induction false} SetIdIgnoresStore<R>(c: Collection, newId: string, loaded: bool, cached: map<string, seq<Item>>,
                             api: seq<R>, convert: R -> Item)
    ensures var renamed := SetId(c, newId);
      && Resolved(loaded, cached, renamed.id, GeneratorItems(renamed.items), api, convert) == c.items
      && Writes(loaded, cached, renamed.id, GeneratorItems(renamed.items), api, convert) == []
  {
  }

  /** The store behind `CollectionDatabase`: whether it is loaded, the
      collections it holds, and the log of tracks written to it. */
  class Store {
    var loaded: bool
    var cached: map<string, seq<Item>>
    var written: seq<Item>

    constructor (loaded: bool, cached: map<string, seq<Item>>)
      ensures this.loaded == loaded && this.cached == cached && written == []
    {
      this.loaded := loaded;
      this.cached := cached;
      written := [];
    }

    /** `exist_in_db`: false whenever the store is not loaded. */
    predicate Has(id: string)
      reads this
    {
      loaded && id in cached
    }

    /** `item_gen()`, consumed: the stored tracks, or each catalog record converted
        and, when the store is loaded, written to it before it is yielded. */
    method ItemGen<R>(id: string, api: seq<R>, convert: R -> Item) returns (r: seq<Item>)
      modifies this`written
      ensures Has(id) ==> r == cached[id] && written == old(written)
      ensures !Has(id) ==> r == Convert(api, convert)
      ensures !Has(id) ==> written == old(written) + if loaded then r else []
    {
      if Has(id) {
        return cached[id];
      }
      r := [];
      var i := 0;
      while i < |api|
        invariant 0 <= i <= |api|
        invariant r == Convert(api[..i], convert)
        invariant written == old(written) + if loaded then r else []
      {
        var track := convert(api[i]);
        if loaded {
          written := written + [track];
        }
        r := r + [track];
        i := i + 1;
      }
      assert api[..i] == api;
    }

    /** `items`, consumed. */
    method Items<R>(id: string, injected: Injected, api: seq<R>, convert: R -> Item) returns (r: seq<Item>)
      modifies this`written
      ensures r == Resolved(loaded, cached, id, injected, api, convert)
      ensures written == old(written) + Writes(loaded, cached, id, injected, api, convert)
    {
      if Truthy(injected) {
        r := injected.elems;
      } else if id != "" {
        r := ItemGen(id, api, convert);
      } else {
        r := [];
      }
    }
  }

  /** `CollectionCollection.items`: its own `_items` when truthy; otherwise, with
      an id, `item_gen`, which sums the sub-collections; otherwise nothing. A
      collection of collections built without an id (as all of them are) yields
      nothing at all. */
  function NestedItems(id: string, injected: Injected, subs: seq<Collection>): seq<Item>
  {
    if Truthy(injected) then injected.elems
    else if id == "" || subs == [] then []
    else SumIsConcatenation(subs); Sum(subs).c.items
  }

  /** With an id, a collection of collections yields the items of its sub-collections
      one after the other; without one it yields nothing, whatever they hold. */
  lemma {:induction false} NestedItemsConcatenate(id: string, injected: Injected, subs: seq<Collection>)
    requires !Truthy(injected)
    ensures id != "" ==> NestedItems(id, injected, subs) == ConcatItems(subs)
    ensures id == "" ==> NestedItems(id, injected, subs) == []
  {
    SumIsConcatenation(subs);
  }
}
