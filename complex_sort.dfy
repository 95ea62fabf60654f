/** `complex_sort`: the items are grouped by the id of their album's first
    artist, and the groups are laid out by a greedy nearest-neighbour walk over
    a weighted artist graph, starting from the first group in the order the
    distinct keys come out of a Python `set`. */
module ComplexSorting {
  import opened Tracks

  /** The path length `complex_sort` substitutes when the graph has no path. */
  const Unreachable: nat := 9999999

  /** The artist graph as far as `nx.shortest_path_length` reveals it: its
      nodes, and for two nodes the weighted length of a shortest path between
      them, if there is one. */
  datatype Graph = Graph(nodes: set<string>, shortest: (string, string) -> Option<nat>)

  /** `nx.shortest_path_length(graph, source, target, weight="weight")` with
      `NetworkXNoPath` caught. With a weight the lookup is Dijkstra's, which
      raises `NodeNotFound` (not caught) only for a source that is not a node; a
      target it cannot reach, a non-node among them, raises `NetworkXNoPath`,
      so it costs `Unreachable` like any missing path. */
  function PathLength(g: Graph, source: string, target: string): (r: Result<nat>)
    ensures r.Err? <==> source !in g.nodes
    ensures r.Err? ==> r.error == NodeNotFound(source)
    ensures r.Ok? && target !in g.nodes ==> r.value == Unreachable
    ensures r.Ok? && target in g.nodes ==> r.value == match g.shortest(source, target)
                                                      case None => Unreachable
                                                      case Some(n) => n
  {
    if source !in g.nodes then Err(NodeNotFound(source))
    else if target !in g.nodes then Ok(Unreachable)
    else match g.shortest(source, target)
      case None => Ok(Unreachable)
      case Some(n) => Ok(n)
  }

  /** The grouping key, `item.album.artists[0].id`, whatever `by` says. */
  function GroupKey(x: Item): string
  {
    x.albumArtistId
  }

  /** The items of one group, in their original order. */
  function Group(items: seq<Item>, k: string): seq<Item>
  {
    Filter(items, x => GroupKey(x) == k)
  }

  /** The groups for the keys `ks`, one after the other. */
  function Groups(items: seq<Item>, ks: seq<string>): seq<Item>
  {
    if ks == [] then [] else Group(items, ks[0]) + Groups(items, ks[1..])
  }

  /** `order` lists each key of the items exactly once, as `list(set(...))` does. */
  predicate IsKeyOrder(items: seq<Item>, order: seq<string>)
  {
    && Distinct(order)
    && (forall i :: 0 <= i < |items| ==> GroupKey(items[i]) in order)
    && (forall k :: k in order ==> exists i :: 0 <= i < |items| && GroupKey(items[i]) == k)
  }

  /** The path lengths from `latest` to each of `rem`, collected in order; the
      first key whose lookup raises stops the collection with that error. */
  function Costs(g: Graph, latest: string, rem: seq<string>): (r: Result<seq<nat>>)
    ensures r.Ok? ==> |r.value| == |rem|
    ensures r.Ok? ==> forall i :: 0 <= i < |rem| ==> PathLength(g, latest, rem[i]) == Ok(r.value[i])
    ensures r.Err? ==> exists i :: 0 <= i < |rem| && PathLength(g, latest, rem[i]) == Err(r.error)
    ensures r.Ok? <==> forall i :: 0 <= i < |rem| ==> PathLength(g, latest, rem[i]).Ok?
    ensures r.Err? <==> rem != [] && latest !in g.nodes
    ensures r.Err? ==> r.error == NodeNotFound(latest)
  {
    if rem == [] then Ok([])
    else
      var init := rem[..|rem| - 1];
      var last := rem[|rem| - 1];
      assert forall i :: 0 <= i < |init| ==> init[i] == rem[i];
      match Costs(g, latest, init)
      case Err(e) => Err(e)
      case Ok(cs) =>
        match PathLength(g, latest, last)
        case Err(e) => Err(e)
        case Ok(d) => Ok(cs + [d])
  }

  /** `j` is the first index holding the minimum of `cs`. */
  predicate IsFirstMin(cs: seq<nat>, j: int)
  {
    && 0 <= j < |cs|
    && (forall i :: 0 <= i < |cs| ==> cs[j] <= cs[i])
    && (forall i :: 0 <= i < j ==> cs[j] < cs[i])
  }

  /** `np.where(a == a.min())[0][0]`. */
  function FirstMinIndex(cs: seq<nat>): (j: nat)
    requires cs != []
    ensures IsFirstMin(cs, j)
  {
    if |cs| == 1 then 0
    else
      var init := cs[..|cs| - 1];
      var j := FirstMinIndex(init);
      assert forall i :: 0 <= i < |init| ==> init[i] == cs[i];
      if cs[|cs| - 1] < cs[j] then |cs| - 1 else j
  }

  /** Only one index is the first minimum. */
  lemma {:induction false} FirstMinUnique(cs: seq<nat>, j: int, k: int)
    requires IsFirstMin(cs, j) && IsFirstMin(cs, k)
    ensures j == k
  {
    var atJ, atK := cs[j], cs[k];
  }

  /** `list.pop(j)`: the sequence without its `j`-th element. */
  function Remove(s: seq<string>, j: nat): (r: seq<string>)
    requires j < |s|
    ensures |r| == |s| - 1 && multiset(r) == multiset(s) - multiset{s[j]}
  {
    assert s == s[..j] + [s[j]] + s[j + 1..];
    s[..j] + s[j + 1..]
  }

  /** A key order with `p` in front, or the error that stopped it. */
  function Prepend(p: seq<string>, r: Result<seq<string>>): Result<seq<string>>
  {
    match r
    case Ok(t) => Ok(p + t)
    case Err(e) => Err(e)
  }

  /** The keys the greedy walk visits after `latest`: the first of the remaining
      keys at the least distance from the latest one, then the walk from it. */
  function Greedy(g: Graph, latest: string, rem: seq<string>): Result<seq<string>>
    decreases |rem|
  {
    if rem == [] then Ok([])
    else
      match Costs(g, latest, rem)
      case Err(e) => Err(e)
      case Ok(cs) =>
        var j := FirstMinIndex(cs);
        Prepend([rem[j]], Greedy(g, rem[j], Remove(rem, j)))
  }

  /** The order of the groups: the first key in set order, then the greedy walk;
      with no keys at all, `pop(0)` raises `IndexError`. */
  function GroupOrder(g: Graph, order: seq<string>): Result<seq<string>>
  {
    if order == [] then Err(IndexError) else Prepend([order[0]], Greedy(g, order[0], order[1..]))
  }

  /** The items `complex_sort` produces: the groups in walk order. */
  function ComplexSortSpec(g: Graph, items: seq<Item>, order: seq<string>): Result<seq<Item>>
  {
    match GroupOrder(g, order)
    case Err(e) => Err(e)
    case Ok(ks) => Ok(Groups(items, ks))
  }

  lemma {:induction false} GroupsConcat(items: seq<Item>, a: seq<string>, b: seq<string>)
    ensures Groups(items, a + b) == Groups(items, a) + Groups(items, b)
  {
    if a == [] {
      assert a + b == b;
    } else {
      var ab, head := a + b, Group(items, a[0]);
      assert ab[0] == a[0] && ab[1..] == a[1..] + b;
      assert Groups(items, ab) == head + Groups(items, a[1..] + b);
      GroupsConcat(items, a[1..], b);
      assert head + (Groups(items, a[1..]) + Groups(items, b)) == (head + Groups(items, a[1..])) + Groups(items, b);
    }
  }

  lemma {:induction false} CostsPrefixErr(g: Graph, latest: string, rem: seq<string>, i: nat)
    requires i <= |rem| && Costs(g, latest, rem[..i]).Err?
    ensures Costs(g, latest, rem) == Costs(g, latest, rem[..i])
    decreases |rem| - i
  {
    if i < |rem| {
      assert rem[..i + 1][..i] == rem[..i];
      CostsPrefixErr(g, latest, rem, i + 1);
    } else {
      assert rem[..i] == rem;
    }
  }

  lemma {:induction false} PrependPrepend(p: seq<string>, q: seq<string>, r: Result<seq<string>>)
    ensures Prepend(p, Prepend(q, r)) == Prepend(p + q, r)
  {
    if r.Ok? {
      assert p + (q + r.value) == (p + q) + r.value;
    }
  }

  /** The `for artist in remaining_artists` loop: one path lookup per remaining
      key, in order, any lookup error escaping at once. */
  method PathLengths(g: Graph, latest: string, rem: seq<string>) returns (r: Result<seq<nat>>)
    ensures r == Costs(g, latest, rem)
  {
    var costs: seq<nat> := [];
    var i := 0;
    while i < |rem|
      invariant 0 <= i <= |rem|
      invariant Costs(g, latest, rem[..i]) == Ok(costs)
    {
      var d := PathLength(g, latest, rem[i]);
      assert rem[..i + 1][..i] == rem[..i] && rem[..i + 1][i] == rem[i];
      if d.Err? {
        CostsPrefixErr(g, latest, rem, i + 1);
        return Err(d.error);
      }
      costs := costs + [d.value];
      i := i + 1;
    }
    assert rem[..i] == rem;
    r := Ok(costs);
  }

  /** The index of the first minimal path length, scanning left to right. */
  method NearestIndex(cs: seq<nat>) returns (j: nat)
    requires cs != []
    ensures j == FirstMinIndex(cs)
  {
    j := 0;
    var k := 1;
    while k < |cs|
      invariant 1 <= k <= |cs| && IsFirstMin(cs[..k], j)
    {
      assert cs[..k + 1][..k] == cs[..k];
      if cs[k] < cs[j] {
        j := k;
      }
      k := k + 1;
    }
    assert cs[..k] == cs;
    FirstMinUnique(cs, j, FirstMinIndex(cs));
  }

  /** One round of the `while remaining_artists` loop: popping the first-nearest
      key and appending its group keeps the walk and the output in step. */
  lemma {:induction false} GreedyStep(g: Graph, order: seq<string>, items: seq<Item>,
                                      visited: seq<string>, latest: string, rem: seq<string>,
                                      cs: seq<nat>, out: seq<Item>,
                                      visited2: seq<string>, latest2: string, rem2: seq<string>,
                                      out2: seq<Item>)
    requires rem != [] && Costs(g, latest, rem) == Ok(cs)
    requires GroupOrder(g, order) == Prepend(visited, Greedy(g, latest, rem))
    requires out == Groups(items, visited)
    requires latest2 == rem[FirstMinIndex(cs)] && rem2 == Remove(rem, FirstMinIndex(cs))
    requires visited2 == visited + [latest2] && out2 == out + Group(items, latest2)
    ensures GroupOrder(g, order) == Prepend(visited2, Greedy(g, latest2, rem2))
    ensures out2 == Groups(items, visited2)
  {
    PrependPrepend(visited, [latest2], Greedy(g, latest2, rem2));
    GroupsConcat(items, visited, [latest2]);
    assert Groups(items, [latest2]) == Group(items, latest2) + Groups(items, []);
  }

  /** `complex_sort(by, graph)`. Its inner function is an ordinary function, not a
      generator, so the whole walk runs when `complex_sort` is called and any
      error is raised there. The result keeps the receiver's flag. */
  method ComplexSort(c: Collection, order: seq<string>, g: Graph) returns (r: Result<Collection>)
    requires IsKeyOrder(c.items, order)
    ensures r.Err? <==> ComplexSortSpec(g, c.items, order).Err?
    ensures r.Err? ==> r.error == ComplexSortSpec(g, c.items, order).error
    ensures r.Ok? ==> r.value == Collection("", ComplexSortSpec(g, c.items, order).value, c.enriched)
    ensures r.Ok? ==> multiset(r.value.items) == multiset(c.items)
  {
    var items := c.items;
    if |order| == 0 {
      return Err(IndexError);
    }
    var latest := order[0];
    var remaining := order[1..];
    var out := Group(items, latest);
    ghost var visited := [latest];
    assert Groups(items, visited) == out + [];
    while remaining != []
      invariant GroupOrder(g, order) == Prepend(visited, Greedy(g, latest, remaining))
      invariant out == Groups(items, visited)
      decreases |remaining|
    {
      var costs := PathLengths(g, latest, remaining);
      if costs.Err? {
        assert Greedy(g, latest, remaining) == Err(costs.error);
        return Err(costs.error);
      }
      var j := NearestIndex(costs.value);
      ghost var before, prev, rem, done := visited, latest, remaining, out;
      latest := remaining[j];
      remaining := Remove(remaining, j);
      out := out + Group(items, latest);
      visited := visited + [latest];
      GreedyStep(g, order, items, before, prev, rem, costs.value, done, visited, latest, remaining, out);
    }
    assert GroupOrder(g, order) == Ok(visited + []);
    assert visited + [] == visited;
    r := Ok(Collection("", out, c.enriched));
    ComplexSortPermutes(g, items, order);
  }

  /** The walk visits every remaining key exactly once. */
  lemma {:induction false} GreedyPermutes(g: Graph, latest: string, rem: seq<string>)
    requires Greedy(g, latest, rem).Ok?
    ensures multiset(Greedy(g, latest, rem).value) == multiset(rem)
    decreases |rem|
  {
    if rem != [] {
      var cs := Costs(g, latest, rem).value;
      var j := FirstMinIndex(cs);
      GreedyPermutes(g, rem[j], Remove(rem, j));
    }
  }

  /** Each step of the walk moves to the first remaining group at the least
      distance from the latest group, an unreachable group counting as `Unreachable`. */
  lemma {:induction false} GreedyPicksNearest(g: Graph, latest: string, rem: seq<string>)
    requires rem != [] && Greedy(g, latest, rem).Ok?
    ensures Costs(g, latest, rem).Ok?
    ensures var t := Greedy(g, latest, rem).value;
      exists j :: 0 <= j < |rem| && t != [] && t[0] == rem[j]
        && forall i :: 0 <= i < |rem| ==>
             PathLength(g, latest, rem[j]).value <= PathLength(g, latest, rem[i]).value
             && (i < j ==> PathLength(g, latest, rem[j]).value < PathLength(g, latest, rem[i]).value)
  {
    var cs := Costs(g, latest, rem).value;
    var j := FirstMinIndex(cs);
    assert Greedy(g, latest, rem).value[0] == rem[j];
  }

  lemma {:induction false} DistinctCount(s: seq<string>, x: string)
    requires Distinct(s)
    ensures multiset(s)[x] <= 1
  {
    if s != [] {
      assert s == [s[0]] + s[1..];
      DistinctCount(s[1..], x);
      if x == s[0] {
        assert x !in s[1..];
      }
    }
  }

  /** A rearrangement of a sequence without repetitions has none either. */
  lemma {:induction false} PermutationDistinct(s: seq<string>, t: seq<string>)
    requires Distinct(s) && multiset(s) == multiset(t)
    ensures Distinct(t)
  {
    forall i, j | 0 <= i < j < |t| ensures t[i] != t[j] {
      if t[i] == t[j] {
        assert t == t[..j] + [t[j]] + t[j + 1..];
        assert t[i] in t[..j];
        assert multiset(t)[t[i]] >= 2;
        DistinctCount(s, t[i]);
      }
    }
  }

  lemma {:induction false} GroupsFilter(items: seq<Item>, ks: seq<string>)
    requires Distinct(ks)
    ensures multiset(Groups(items, ks)) == multiset(Filter(items, x => GroupKey(x) in ks))
  {
    if ks != [] {
      GroupsFilter(items, ks[1..]);
      var p := (x: Item) => GroupKey(x) in ks;
      var q := (x: Item) => GroupKey(x) in ks[1..];
      forall x
        ensures multiset(Groups(items, ks))[x] == multiset(Filter(items, p))[x]
      {
        assert GroupKey(x) in ks <==> GroupKey(x) == ks[0] || GroupKey(x) in ks[1..];
        assert ks[0] !in ks[1..];
        assert multiset(Filter(items, q))[x] == if q(x) then multiset(items)[x] else 0;
      }
    }
  }

  /** The groups for a repetition-free list of keys covering every item are a
      rearrangement of the items. */
  lemma {:induction false} GroupsPermutes(items: seq<Item>, ks: seq<string>)
    requires Distinct(ks) && forall i :: 0 <= i < |items| ==> GroupKey(items[i]) in ks
    ensures multiset(Groups(items, ks)) == multiset(items)
  {
    GroupsFilter(items, ks);
    FilterAll(items, x => GroupKey(x) in ks);
  }

  /** The key order of the walk is a rearrangement of the set order. */
  lemma {:induction false} GroupOrderPermutes(g: Graph, order: seq<string>)
    requires GroupOrder(g, order).Ok?
    ensures order != [] && multiset(GroupOrder(g, order).value) == multiset(order)
  {
    GreedyPermutes(g, order[0], order[1..]);
    assert order == [order[0]] + order[1..];
  }

  /** `complex_sort` outputs a rearrangement of its input. */
  lemma {:induction false} ComplexSortPermutes(g: Graph, items: seq<Item>, order: seq<string>)
    requires IsKeyOrder(items, order) && ComplexSortSpec(g, items, order).Ok?
    ensures multiset(ComplexSortSpec(g, items, order).value) == multiset(items)
  {
    var ks := GroupOrder(g, order).value;
    GroupOrderPermutes(g, order);
    PermutationDistinct(order, ks);
    forall i | 0 <= i < |items| ensures GroupKey(items[i]) in ks {
      assert GroupKey(items[i]) in multiset(order);
    }
    GroupsPermutes(items, ks);
  }

  lemma {:induction false} GroupsKeys(items: seq<Item>, ks: seq<string>, x: Item)
    requires x in Groups(items, ks)
    ensures GroupKey(x) in ks && x in items
  {
    if ks != [] {
      if x !in Group(items, ks[0]) {
        GroupsKeys(items, ks[1..], x);
      }
    }
  }

  /** The items of one group come out as one block, in their original relative
      order: the output is the groups before it, the group, and the groups after
      it, and no item outside the block carries its key. */
  lemma {:induction false} GroupsContiguous(items: seq<Item>, ks: seq<string>, m: nat)
    requires Distinct(ks) && m < |ks|
    ensures Groups(items, ks) == Groups(items, ks[..m]) + Group(items, ks[m]) + Groups(items, ks[m + 1..])
    ensures forall x :: x in Groups(items, ks[..m]) + Groups(items, ks[m + 1..]) ==> GroupKey(x) != ks[m]
    ensures forall x :: x in Group(items, ks[m]) <==> x in items && GroupKey(x) == ks[m]
  {
    var pre, post := ks[..m], ks[m + 1..];
    var rest := [ks[m]] + post;
    assert ks == pre + rest;
    GroupsConcat(items, pre, rest);
    assert rest[0] == ks[m] && rest[1..] == post;
    assert Groups(items, rest) == Group(items, ks[m]) + Groups(items, post);
    assert ks[m] !in pre && ks[m] !in post by {
      forall i | 0 <= i < |pre| ensures pre[i] != ks[m] { assert pre[i] == ks[i]; }
      forall i | 0 <= i < |post| ensures post[i] != ks[m] { assert post[i] == ks[m + 1 + i]; }
    }
    forall x | x in Groups(items, pre) + Groups(items, post)
      ensures GroupKey(x) != ks[m]
    {
      if x in Groups(items, pre) {
        GroupsKeys(items, pre, x);
      } else {
        GroupsKeys(items, post, x);
      }
    }
  }

  /** The only error the walk can raise is `NodeNotFound` for a key it reached
      that is not a node of the graph. */
  lemma {:induction false} GreedyErrIsNodeNotFound(g: Graph, latest: string, rem: seq<string>)
    ensures Greedy(g, latest, rem).Err? ==> Greedy(g, latest, rem).error.NodeNotFound?
    ensures Greedy(g, latest, rem).Err? ==>
              var k := Greedy(g, latest, rem).error.node;
              k !in g.nodes && (k == latest || k in rem)
    decreases |rem|
  {
    if rem != [] && Costs(g, latest, rem).Ok? {
      var j := FirstMinIndex(Costs(g, latest, rem).value);
      var rest := Remove(rem, j);
      GreedyErrIsNodeNotFound(g, rem[j], rest);
      assert Greedy(g, latest, rem) == Prepend([rem[j]], Greedy(g, rem[j], rest));
      if Greedy(g, rem[j], rest).Err? {
        var k := Greedy(g, rem[j], rest).error.node;
        if k in rest {
          assert k in multiset(rest);
        }
      }
    }
  }

  /** `complex_sort` fails with `IndexError` exactly on an empty input; any other
      failure is a key missing from the graph. */
  lemma {:induction false} ComplexSortErrors(g: Graph, items: seq<Item>, order: seq<string>)
    requires IsKeyOrder(items, order)
    ensures items == [] <==> ComplexSortSpec(g, items, order) == Err(IndexError)
    ensures items != [] && ComplexSortSpec(g, items, order).Err? ==>
              ComplexSortSpec(g, items, order).error.NodeNotFound?
  {
    if order != [] {
      assert order[0] in order;
    }
    if items != [] {
      assert GroupKey(items[0]) in order;
      GreedyErrIsNodeNotFound(g, order[0], order[1..]);
    }
  }

  /** With the default, empty graph, two or more groups make the first path
      lookup raise `NodeNotFound` for the first group's key. */
  lemma {:induction false} DefaultGraphFails(items: seq<Item>, order: seq<string>, shortest: (string, string) -> Option<nat>)
    requires |order| >= 2
    ensures ComplexSortSpec(Graph({}, shortest), items, order) == Err(NodeNotFound(order[0]))
  {
    var g := Graph({}, shortest);
    var rem := order[1..];
    assert Costs(g, order[0], rem[..1]) == Err(NodeNotFound(order[0])) by {
      assert rem[..1][..0] == [];
    }
    CostsPrefixErr(g, order[0], rem, 1);
  }

  /** The example's graph: three distinct groups, and the shortest paths from
      `x` and from `y`. */
  predicate ExampleGraph(g: Graph, x: string, y: string, z: string)
  {
    && x != y && y != z && x != z
    && g.nodes == {x, y, z}
    && g.shortest(x, y) == Some(1) && g.shortest(x, z) == Some(2)
    && g.shortest(y, z) == Some(1)
  }

  lemma {:induction false} SeqAppend(a: string, b: string, c: string)
    ensures [a] + [b] == [a, b] && [a] + [b, c] == [a, b, c]
  {
  }

  lemma {:induction false} ExampleFromY(g: Graph, x: string, y: string, z: string)
    requires ExampleGraph(g, x, y, z)
    ensures Greedy(g, y, [z]) == Ok([z])
  {
    var zs, none: seq<string> := [z], [];
    assert zs[..|zs| - 1] == none && zs[|zs| - 1] == z;
    assert PathLength(g, y, z) == Ok(1);
    assert Costs(g, y, none) == Ok([]);
    assert Costs(g, y, zs).Ok? && Costs(g, y, zs).value == [1];
    assert FirstMinIndex([1]) == 0;
    assert Remove(zs, 0) == none;
    assert Greedy(g, z, none) == Ok([]);
    assert Greedy(g, y, zs) == Prepend(zs, Ok([]));
    assert zs + [] == zs;
  }

  lemma {:induction false} ExampleFromX(g: Graph, x: string, y: string, z: string)
    requires ExampleGraph(g, x, y, z)
    ensures Greedy(g, x, [z, y]) == Ok([y, z])
  {
    var zy, zs, none: seq<string> := [z, y], [z], [];
    assert zy[..|zy| - 1] == zs && zy[|zy| - 1] == y && zs[..|zs| - 1] == none && zs[|zs| - 1] == z;
    assert PathLength(g, x, z) == Ok(2) && PathLength(g, x, y) == Ok(1);
    assert Costs(g, x, none) == Ok([]);
    assert Costs(g, x, zs).Ok? && Costs(g, x, zs).value == [2];
    var costs := Costs(g, x, zy).value;
    assert costs == [2, 1];
    assert FirstMinIndex(costs) == 1;
    assert Remove(zy, 1) == zs;
    ExampleFromY(g, x, y, z);
    assert Greedy(g, x, zy) == Prepend([y], Ok(zs));
    SeqAppend(y, z, z);
  }

  /** Groups x, y, z whose shortest paths are x–y at 1, y–z at 1 and x–z at 2:
      from x the walk visits y, then z, even when the set order lists z before y. */
  lemma {:induction false} NearestFirstExample(g: Graph, x: string, y: string, z: string)
    requires ExampleGraph(g, x, y, z)
    ensures GroupOrder(g, [x, z, y]) == Ok([x, y, z])
  {
    SeqAppend(x, y, z);
    var order: seq<string> := [x, z, y];
    assert order[0] == x && order[1..] == [z, y];
    ExampleFromX(g, x, y, z);
  }
}
