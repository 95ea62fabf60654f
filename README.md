# Track-collection algebra of spotify-flows, in Dafny

This project models the `TrackCollection` algebra of spotify-flows in its two
generations and proves what each operation yields.

- **The current generation** is `spotify_flows/spotify/collections.py`. Every operation builds a new
  collection around a generator over the receiver's `items`.
- **The earlier generation** is `spotify-flows/spotify/collections.py`. It works on plain lists: `+`,
  `-` and `/` go through Python sets, and most methods overwrite the
  receiver's `_items` and return the receiver itself.

A collection is modelled by the items its `items` would yield, its id and its
`_audio_features_enriched` flag (`Tracks.Collection`). A generator that can raise is
modelled by what it yields before raising, plus the exception it raises
(`Tracks.Yield`, `Tracks.Lazy`). Where the source mutates objects, the model
uses classes and methods:

- `sort`/`filter` of both generations, which set the receiver's flag;
- the earlier generation's in-place methods;
- `item_gen`, which writes to the collection store.

Where the source loops over state, the model uses methods with loops:

- the time-based splices, with their running total of milliseconds;
- `complex_sort`'s greedy walk;
- `add_audio_features` and the batch enrichment;
- `remove_duplicates`, which pops from its list.

Modules:

- `Tracks`: items, collections, errors and shared sequence helpers.
- `Sequences`: interleaving and round-robin.
- `Sorting`: Python's stable `sorted`, plus `random.shuffle`/`random.sample` driven by a sequence of draws.
- `Enrichment`: attaching audio features.
- `LazyCollections` and `Splicing`: the current generation's operators.
- `ComplexSorting`: `complex_sort`.
- `SourceResolution`: `items`/`item_gen` and `CollectionCollection`.
- `ListCollections`: the earlier generation.

Four behaviours of the code are worth stating on their own:

- `insert_at_position` replays the whole receiver after the inserted items (see Findings).
- `insert_at_time_intervals` splices a whole copy of the other collection at each splice point, always from its first item.
- `/` in the current generation keeps the left operand's enrichment flag only.
- `remove_remixes` in the current generation drops names containing "mixed" as well as "remix".

## Model

| member | source | states |
|---|---|---|
| `LazyCollections.Add` | spotify_flows/spotify/collections.py:141-155 | `A + B` yields all of A then all of B, length \|A\|+\|B\|, no deduplication; id is empty, flag is A's AND B's |
| `LazyCollections.RAdd` | spotify_flows/spotify/collections.py:157-166 | `0 + c` is `c` itself; any other left operand gives the concatenation |
| `LazyCollections.SumFromCollection` | spotify_flows/spotify/collections.py:157-166 | folding `+` from a collection appends every later collection's items in order; the flag is the AND of all flags; the id survives only when nothing is added |
| `LazyCollections.SumIsConcatenation` | spotify_flows/spotify/collections.py:157-166 | `sum(cs)` is 0 exactly when `cs` is empty, is `cs[0]` itself for one collection, and otherwise yields all items in order, flagged only when every collection is |
| `LazyCollections.Sub` | spotify_flows/spotify/collections.py:168-184 | `A - B` keeps every occurrence of each item of A that B lacks, and none of those B holds, in A's order (a subsequence of A); A's flag |
| `LazyCollections.Div` | spotify_flows/spotify/collections.py:186-202 | `A / B` keeps every occurrence of each item of A that B holds, and nothing else, in A's order (a subsequence of A); A's flag only |
| `LazyCollections.Mod` | spotify_flows/spotify/collections.py:204-217 | `A % B` yields a1,b1,a2,b2,… of length 2·min(\|A\|,\|B\|); flag is the AND |
| `LazyCollections.ItemsOf` | spotify_flows/spotify/collections.py:705-709 | the item sequences of the sub-collections, in order |
| `LazyCollections.Alternate` | spotify_flows/spotify/collections.py:705-709 | `alternate` yields \|cs\|·(shortest length) items, empty id, unflagged |
| `LazyCollections.AlternateAt` | spotify_flows/spotify/collections.py:705-709 | position k·\|cs\|+c of `alternate` holds the k-th item of the c-th sub-collection (round-robin rounds) |
| `LazyCollections.ModIsAlternateOfPair` | spotify_flows/spotify/collections.py:204-217 | `A % B` yields exactly what `alternate` over [A, B] yields |
| `LazyCollections.RemoveRemixes` | spotify_flows/spotify/collections.py:300-320 | keeps every occurrence of each item whose lower-cased name contains neither "remix" nor "mixed", in their order (a subsequence of the input), drops the rest; keeps the flag |
| `LazyCollections.First` | spotify_flows/spotify/collections.py:488-499 | `first(n)` is the prefix of length min(n,\|A\|) with the receiver's flag; a negative n raises `ValueError` |
| `LazyCollections.Shuffle` | spotify_flows/spotify/collections.py:266-279 | `shuffle` yields a permutation of the items, with the receiver's flag |
| `LazyCollections.Random` | spotify_flows/spotify/collections.py:281-298 | `random(N)` yields min(N,\|A\|) items drawn without replacement; a negative N raises `ValueError` when consumed |
| `LazyCollections.SetId` | spotify_flows/spotify/collections.py:453-463 | `set_id` keeps the items and flag and takes the new id |
| `LazyCollections.Source` | spotify_flows/spotify/collections.py:334-341 | the items `sort`/`filter` work on: as they are, or, when enriching, the prefix of the items before the first id without features, each with that id's features (all of them when every id has features), followed by `KeyError` of that first id; it raises iff enriching and some id lacks features |
| `LazyCollections.SortedYieldSpec` | spotify_flows/spotify/collections.py:334-349 | the sorted generator raises iff enrichment is needed and some id lacks features, then yields nothing; otherwise its output is ordered by key (reversed when descending), stable within equal keys, a permutation of the (enriched) items |
| `LazyCollections.FilteredYield` | spotify_flows/spotify/collections.py:365-379 | the filtered generator yields, in order, the (enriched) items meeting the criteria and raises iff enrichment meets a missing id, the error being `KeyError` of the first id without features |
| `LazyCollections.TrackCollection.Sort` | spotify_flows/spotify/collections.py:322-353 | the result carries the flag read at call time; the receiver's flag becomes true when the key needs features, even if the enrichment then raises |
| `LazyCollections.TrackCollection.Filter` | spotify_flows/spotify/collections.py:355-384 | as `sort`, for filtering |
| `LazyCollections.AddAudioFeatures` | spotify_flows/spotify/collections.py:428-436 | the loop yields each item with its features attached until an id without features raises `KeyError`; the result is flagged enriched |
| `Enrichment.Attach` | spotify_flows/spotify/collections.py:430-433 | attaching features changes nothing but the item's features |
| `Enrichment.EnrichRunSpec` | spotify_flows/spotify/collections.py:438-451 | per-item enrichment yields each item with its features, raises iff some id has none, and then stops at the first such id with `KeyError` of it |
| `Enrichment.EnrichRunHasFeatures` | spotify_flows/spotify/collections.py:438-451 | every item enrichment yields carries features |
| `Enrichment.EnrichInPlace` | spotify-flows/spotify/collections.py:183-191 | after the assignment loop the list keeps its length, and every item carries features when no id was missing |
| `Enrichment.EnrichInPlaceKeepsIds` | spotify-flows/spotify/collections.py:188-189 | the loop keeps every id in place; the items before the first missing id carry the response's features for their id, the rest are untouched |
| `Splicing.PyMod` | spotify_flows/spotify/collections.py:398 | Python's floored `%`: the remainder has the divisor's sign, lies strictly within the divisor's magnitude, and differs from the dividend by a multiple of the divisor |
| `Splicing.InsertAtTime` | spotify_flows/spotify/collections.py:405-417 | the running-total loop yields exactly the time-splice specification for an interval of t·60000 ms |
| `Splicing.InsertAtTimeIntervals` | spotify_flows/spotify/collections.py:386-403 | the loop that resets the total after each splice and uses up one of 20 copies per splice yields exactly its specification |
| `Splicing.FirstItemNeverSplices` | spotify_flows/spotify/collections.py:392-398 | for a positive interval the first item is yielded alone: starting from 0 it cannot cross an interval boundary |
| `Splicing.TimeSpliceLength` | spotify_flows/spotify/collections.py:405-417 | the splice raises iff the interval is zero and A is not empty, and then it yields A's first item and raises `ZeroDivisionError`; with a non-zero interval the length is \|A\| + (number of splices)·\|B\| |
| `Splicing.ZeroIntervalRaises` | spotify_flows/spotify/collections.py:386-417 | with a zero interval both time-based splices yield A's first item, then raise `ZeroDivisionError` at the first `%` |
| `Splicing.IntervalSpliceCapacity` | spotify_flows/spotify/collections.py:386-403 | the intervals variant raises iff more than 20 splices are due, then with `IndexError`; otherwise its length counts one whole B per splice |
| `Splicing.ShortRunUnchanged` | spotify_flows/spotify/collections.py:386-417 | when A's total duration stays below one interval, both variants yield A unchanged |
| `Splicing.SpliceIffCrossing` | spotify_flows/spotify/collections.py:398 | for a step shorter than the interval, the modulo-decrease test fires iff the running total crosses a multiple of the interval |
| `Splicing.WholeIntervalsNeverSplice` | spotify_flows/spotify/collections.py:414 | an item lasting a whole number of intervals never triggers a splice |
| `Splicing.InsertAtPosition` | spotify_flows/spotify/collections.py:419-426 | as written: A[..min(p,\|A\|)], then B, then all of A again; a negative p raises `ValueError` |
| `Splicing.InsertAtPositionIntended` | spotify_flows/spotify/collections.py:419-426 | the evidently intended splice A[..k] ++ B ++ A[k..] |
| `Splicing.IntendedRemovesToOriginal` | spotify_flows/spotify/collections.py:419-426 | removing the inserted block from the intended splice gives back A |
| `Splicing.InsertAtPositionReplaysReceiver` | spotify_flows/spotify/collections.py:421-424 | on five items, two inserted at position 2, the code yields nine items with x1 at index 4, unlike the intended seven |
| `ComplexSorting.PathLength` | spotify_flows/spotify/collections.py:553-560 | a missing source, and only that, raises `NodeNotFound` of the source; a missing path, including one to a target that is not a node, counts as 9999999 |
| `ComplexSorting.Costs` | spotify_flows/spotify/collections.py:549-562 | the path lengths to each remaining group in order; it fails, with `NodeNotFound` of the latest key, exactly when groups remain and the latest key, the lookups' source, is not a node of the graph |
| `ComplexSorting.PathLengths` | spotify_flows/spotify/collections.py:549-562 | the `for` loop collects exactly those path lengths |
| `ComplexSorting.FirstMinIndex` | spotify_flows/spotify/collections.py:565-566 | `np.where(a == a.min())[0][0]` is the first index holding the minimum |
| `ComplexSorting.FirstMinUnique` | spotify_flows/spotify/collections.py:565-566 | that index is unique |
| `ComplexSorting.NearestIndex` | spotify_flows/spotify/collections.py:565-566 | the scan finds the first minimum |
| `ComplexSorting.Remove` | spotify_flows/spotify/collections.py:569 | `pop(j)` removes exactly the j-th key |
| `ComplexSorting.ComplexSort` | spotify_flows/spotify/collections.py:525-578 | the `while remaining_artists` loop produces exactly the specified group order's items, or its error, with the receiver's flag; on success a permutation of the input |
| `ComplexSorting.GreedyStep` | spotify_flows/spotify/collections.py:549-572 | one iteration of the walk pops the first-nearest group, appends that group's items to the output and moves on from it, keeping the loop in step with the specified order |
| `ComplexSorting.GreedyPermutes` | spotify_flows/spotify/collections.py:546-572 | the walk visits every remaining group exactly once |
| `ComplexSorting.GreedyPicksNearest` | spotify_flows/spotify/collections.py:551-569 | each next group is at the least distance from the previous one and earlier than any other group at that distance |
| `ComplexSorting.GroupOrderPermutes` | spotify_flows/spotify/collections.py:531-572 | the group order is a rearrangement of the distinct keys |
| `ComplexSorting.GroupsPermutes` | spotify_flows/spotify/collections.py:531-539 | the groups of all keys together hold every item once |
| `ComplexSorting.ComplexSortPermutes` | spotify_flows/spotify/collections.py:525-578 | the output is a permutation of the input |
| `ComplexSorting.GroupsKeys` | spotify_flows/spotify/collections.py:533-539 | every output item is an input item of one of the listed groups |
| `ComplexSorting.GroupsContiguous` | spotify_flows/spotify/collections.py:533-572 | items sharing `album.artists[0].id` come out as one block holding exactly them, in their original order |
| `ComplexSorting.GreedyErrIsNodeNotFound` | spotify_flows/spotify/collections.py:553-560 | the only error the walk raises is `NodeNotFound` of a key it reached (the start or a remaining key) that is not a node of the graph |
| `ComplexSorting.ComplexSortErrors` | spotify_flows/spotify/collections.py:541-560 | an empty input and only that fails at `pop(0)` with `IndexError`; any other failure is `NodeNotFound` |
| `ComplexSorting.DefaultGraphFails` | spotify_flows/spotify/collections.py:525-560 | with the default empty graph, two or more groups fail with `NodeNotFound` of the first group |
| `ComplexSorting.NearestFirstExample` | spotify_flows/spotify/collections.py:546-572 | for any three distinct groups x, z, y in set order, with x–y at 1, x–z at 2 and y–z at 1, the walk visits x, y, z |
| `SourceResolution.Convert` | spotify_flows/spotify/collections.py:112-113 | each catalog record is converted to a track, in order |
| `SourceResolution.InjectedWins` | spotify_flows/spotify/collections.py:96-97 | truthy injected items are yielded as they are and nothing is written |
| `SourceResolution.EmptyIdYieldsNothing` | spotify_flows/spotify/collections.py:99-102 | without injected items an empty id yields nothing |
| `SourceResolution.StoreOrCatalog` | spotify_flows/spotify/collections.py:104-116 | a loaded store holding the id is read; otherwise the records are converted and written exactly when the store is loaded |
| `SourceResolution.SetIdIgnoresStore` | spotify_flows/spotify/collections.py:453-463 | a renamed collection keeps yielding the receiver's items and never reads the store |
| `SourceResolution.Store.ItemGen` | spotify_flows/spotify/collections.py:104-116 | `item_gen` yields the stored tracks without writing, or each converted record, appending it to a loaded store first |
| `SourceResolution.Store.Items` | spotify_flows/spotify/collections.py:94-102 | `items` yields the resolved sequence and writes exactly the tracks it fetched into a loaded store |
| `SourceResolution.NestedItemsConcatenate` | spotify_flows/spotify/collections.py:701-703 | a collection of collections with an id yields its sub-collections' items in order; without an id, nothing |
| `ListCollections.SetToSeq` | spotify-flows/spotify/collections.py:62 | `list(set(...))` holds each element once, exactly the set's elements |
| `ListCollections.Add` | spotify-flows/spotify/collections.py:61-64 | `A + B` holds each item of A or B exactly once; flag is the AND |
| `ListCollections.Sub` | spotify-flows/spotify/collections.py:72-75 | `A - B` holds each item of A not in B exactly once; A's flag |
| `ListCollections.Div` | spotify-flows/spotify/collections.py:77-80 | `A / B` holds each item in both exactly once; flag is the AND |
| `ListCollections.Mod` | spotify-flows/spotify/collections.py:82-94 | `A % B` has an empty id and flag AND |
| `ListCollections.ModInterleavesFiltered` | spotify-flows/spotify/collections.py:82-94 | `A % B` drops from A what B holds, then pairs the rest with B: length 2·min(\|A'\|,\|B\|), even positions from A' and never in B, odd positions from B |
| `ListCollections.RAdd` | spotify-flows/spotify/collections.py:66-70 | `0 + c` is `c` itself |
| `ListCollections.SumIsUnion` | spotify-flows/spotify/collections.py:61-70 | `sum` of one collection is that collection, duplicates and all; of two or more, each item of any of them exactly once, flag the AND |
| `ListCollections.NestedItemsUnion` | spotify-flows/spotify/collections.py:284-313 | without injected items, an artist or album collection with one member yields its items and with more yields their distinct union |
| `ListCollections.Names` | spotify-flows/spotify/collections.py:206 | the names of the items, position by position |
| `ListCollections.DedupNamesDistinct` | spotify-flows/spotify/collections.py:200-214 | after `remove_duplicates` no two items share a name, the survivors keep their order, and every name survives |
| `ListCollections.DedupKeepsFirst` | spotify-flows/spotify/collections.py:200-214 | each kept item is the first item of the original list with its name |
| `ListCollections.DedupOfDistinct` | spotify-flows/spotify/collections.py:200-214 | a list with distinct names is left as it is |
| `ListCollections.DedupIdempotent` | spotify-flows/spotify/collections.py:200-214 | applying `remove_duplicates` twice changes nothing more |
| `ListCollections.TrackCollection.Shuffle` | spotify-flows/spotify/collections.py:138-142 | the receiver's items become a permutation of themselves and the receiver is returned |
| `ListCollections.TrackCollection.Random` | spotify-flows/spotify/collections.py:144-147 | the items become min(N,\|items\|) of them drawn without replacement and the receiver is returned; a negative N raises `ValueError` and leaves them alone |
| `ListCollections.TrackCollection.RemoveRemixes` | spotify-flows/spotify/collections.py:149-152 | drops exactly the items whose lower-cased name contains "remix", keeping the order and the rest |
| `ListCollections.TrackCollection.RemoveDuplicates` | spotify-flows/spotify/collections.py:200-214 | the pop loop leaves exactly the name-deduplicated list in the receiver |
| `ListCollections.TrackCollection.EnrichWithAudioFeatures` | spotify-flows/spotify/collections.py:183-191 | one batch request with all ids; every item is given its features, and a missing id raises `KeyError` of that id with the earlier items already enriched |
| `ListCollections.TrackCollection.AssignFeatures` | spotify-flows/spotify/collections.py:188-189 | the `for item in items` loop leaves exactly the in-place enrichment of the receiver's items and raises exactly what per-item enrichment raises |
| `ListCollections.TrackCollection.Sort` | spotify-flows/spotify/collections.py:154-167 | enriches the receiver first when needed; on success sets its flag and returns its items sorted stably by key (a permutation), flagged like the receiver; a `KeyError` leaves the flag unset |
| `ListCollections.TrackCollection.Filter` | spotify-flows/spotify/collections.py:169-181 | the same enrichment, then the receiver's items meeting the criteria, in order |
| `ListCollections.TrackCollection.SetId` | spotify-flows/spotify/collections.py:193-198 | a new collection with the new id and the same items and flag |
| `Sorting.StableSortSorted` | spotify-flows/spotify/collections.py:162-164 | `sorted(..., reverse=not ascending)` orders by key, non-decreasing or non-increasing |
| `Sorting.StableSortPermutes` | spotify-flows/spotify/collections.py:162-164 | the sorted list is a permutation of its input |
| `Sorting.StableSortStable` | spotify-flows/spotify/collections.py:162-164 | items with equal keys keep their relative order |
| `Sorting.PickOrderPermutes` | spotify-flows/spotify/collections.py:138-142 | whatever the random draws, `random.shuffle` gives a permutation |
| `Sorting.Sample` | spotify-flows/spotify/collections.py:144-147 | `random.sample(s, k)` is k elements of s drawn without replacement |
| `Sequences.Interleave` | spotify-flows/spotify/collections.py:88-92 | the zip-and-flatten pairs the i-th items, length twice the shorter |
| `Sequences.RoundRobinLength` | spotify_flows/spotify/collections.py:707 | `chain(*zip(*lists))` has \|lists\| times the shortest length |
| `Sequences.RoundRobinAt` | spotify_flows/spotify/collections.py:707 | the k-th element of list c sits at position k·\|lists\| + c |
| `Sequences.InterleaveIsRoundRobin` | spotify_flows/spotify/collections.py:707 | interleaving two lists is the round-robin of the pair |
| `Tracks.Filter` | spotify-flows/spotify/collections.py:150 | a comprehension filter keeps every occurrence of the items meeting the test and no others |
| `Tracks.FilterSubsequence` | spotify-flows/spotify/collections.py:150 | a comprehension filter keeps its items in the input's order: the result is a subsequence of the input |
| `Tracks.Lower` | spotify-flows/spotify/collections.py:150 | `lower()` on ASCII letters, length kept |
| `Tracks.Contains` | spotify-flows/spotify/collections.py:150 | substring test: true iff the pattern occurs at some position |

## Left out

- Remote catalog calls are not performed. `get_playlist_tracks`, `get_album_songs`, `get_audio_features` and the networkx graph become parameters: a record list with a conversion function, a features map (or a batch lookup function), and an abstract shortest-path function with a node set.
- `CollectionDatabase` and `SpotifyDatabase` are reduced to a loaded flag, a map of stored collections and an append-only log of written tracks.
- The login module, `to_dataframes`, `to_playlist`, `to_database` and `from_name` are I/O and are not modelled.
- `optimize` is not modelled. It uses numpy float scores and `np.argsort`, whose default sort is not stable, so its tie order is undefined.
- The thin variant classes are not modelled: `Playlist`, `Album`, `Artist` (`popular`, `all_songs`, `related_artists`), `SavedTracks`, `Genre`, `Show` and `Track`. They only choose which remote call feeds `item_gen`.
- Randomness is a parameter. `random.shuffle` and `random.sample` are functions of a sequence of draws, and the model proves only permutation and sub-multiset facts, not the distribution.
- `eval`-built sort keys and filter strings, and the `inspect.getsource` test for "audio_features", become a typed integer key or predicate plus an explicit "needs features" flag.
- Durations are integer milliseconds. The interval is t·60000 ms, not float minutes, so float rounding in the running total is not modelled.
- The operators `+`, `-`, `/`, `%`, `alternate`, `sum` and the splices take operands that raise nothing: an operand whose generator raises (a `random(-1)` or a `filter` whose enrichment fails) cannot be expressed, so exceptions passing through the operators are not modelled. In particular, `-` and `/` run `list(other.items)` when they are called, so an error in B surfaces at the call, while `+`, `%` and the splices surface it only when their result is consumed.
- Generators are modelled as the finite sequence they yield. Single-pass effects are not captured. In particular, `insert_at_time` re-reads `other.items` for each splice, and the model yields all of B every time. When B is backed by a one-shot generator, the real code yields it only at the first splice.
- Aliasing is not modelled. The current `sort`/`filter`/`add_audio_features` mutate item objects shared with other collections; the model gives each collection its own values.
- The current `sort`/`filter` are modelled as a call followed by full consumption of the result, in one method.
- The current `remove_duplicates` fails at `copy.copy(self.items)`: `self.items` is a generator, and copying a generator raises `TypeError`. Only the earlier, list-based algorithm is modelled (`ListCollections.TrackCollection.RemoveDuplicates`).
- The current `_enrich_with_audio_features` generator is modelled through `Enrichment.EnrichRunSpec`; its per-item `AudioFeaturesItem.from_dict` conversion is folded into the features map.
- `lower()` folds ASCII letters only.
- Item equality and hashing are structural, so Python set and `in` tests compare whole items.
- `ListCollections.Add`, `ListCollections.Sub` and `ListCollections.Div` leave the order of their results unspecified, as Python's set iteration order is: `ListCollections.SetToSeq` picks one order.
- `ComplexSorting.ComplexSort` takes `list(set(...))`'s order of the group keys as a parameter, and ignores `by` as the code does.
- `ComplexSorting.PathLength` does not compute shortest paths; they come from the abstract graph.

## Findings

| source | as written | input that shows it | evidently intended | confidence | as-written member | corrected member |
|---|---|---|---|---|---|---|
| spotify_flows/spotify/collections.py:419-426 | `itertools.tee` gives two independent copies, so after `islice(before, position)` and B, `after` replays A from its first item | A = x1..x5, B = y1,y2, position 2 yields x1,x2,y1,y2,x1,x2,x3,x4,x5 | x1,x2,y1,y2,x3,x4,x5 (A[..p] ++ B ++ A[p..]) | high (not executed) | `Splicing.InsertAtPositionReplaysReceiver` | `Splicing.InsertAtPositionIntended` |
