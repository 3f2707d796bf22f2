# Isochrone grid pipeline — Dafny model

This project models `backend/get_distance.py`, the back end of a travel-time map.
Given one or more origins, the pipeline:

1. Asks a routing service for the transit duration from each origin to every point of
   a fixed 38 × 38 lattice of grid points (`get_time_for_dests`). It cuts the points
   into batches of 99, reads back `{duration, destinationIndex}` entries and parses
   the `"<seconds>s"` strings.
2. Merges the per-origin lists into one list keyed by `(lat, lon)`, taking the maximum
   or the mean of each point's durations (`compute_max_duration`,
   `compute_average_duration`).
3. Sorts the merged list by `(-lat, lon)`, reshapes it into a 38 × 38 matrix and walks
   the 37 × 37 cells column by column. Each cell becomes a 5 × 5 sub-lattice through
   `build_grid`, whose durations an interpolator fills in from the four corner durations.
4. Removes duplicate triples with `list(set(...))` (`get_grid_times`).

Python exceptions are modelled as values. Every operation that can raise returns
`Types.Result`, and `Types.Error` names each exception the code can raise:
- the three `AssertionError`s of `build_grid`;
- `IndexError` from an out-of-range `destinationIndex` or an empty list handed to the sort key;
- `ValueError` from `int()`, from `np.linspace` with a negative count, and from `reshape`;
- `TypeError` from hashing a dictionary in `set()` or from negating a tuple in the sort key.

The modules follow the source's functions:
- `Types`: coordinates, `(lat, lon, duration)` triples, Python indexing and slicing,
  and `tuple_to_dict`/`dict_to_tuple`.
- `RowMajor`: index arithmetic of a matrix stored row by row.
- `Fetch`: `get_time_for_dests`. The routing service is a function parameter that
  maps an origin and a batch of destinations to the decoded response list.
- `Aggregate`: the two merge functions. Each is an imperative method over a map of
  duration lists, proved equal to a functional specification whose properties are lemmas.
- `Cells`: `build_grid`. It is a pure function of the two given corners, the step
  count, the four optional corner durations and the interpolator.
- `GridTimes`: `get_grid_times`. The sort, reshape, cell walk and deduplication are
  specified by functions. The method follows the source's loops and is proved equal
  to the specification `GridTimesSpec`.

In four places the code does not do what its surroundings suggest, and the model follows the code:
- Deduplication compares whole `(lat, lon, duration)` triples, although removing repeated
  coordinates would be expected.
- A cell is always sampled with 5 steps, although a supersample factor would be expected.
- The grid size is always 38. The selection by number of origins is overwritten two
  lines later.
- A failed request is not a separate case, although an error reply would be expected to
  raise. Its decoded body is read like any other response list, which is why the
  response is an input sequence here.

## Model

| member | source | states |
|---|---|---|
| Types.TupleToDict | backend/get_distance.py:23-27 | the dictionary's latitude is the tuple's first component and its longitude the second |
| Types.DictToTuple | backend/get_distance.py:30-31 | the tuple is `(latitude, longitude)` of the dictionary |
| Types.TupleDictRoundTrip | backend/get_distance.py:23-31 | `dict_to_tuple` and `tuple_to_dict` are inverse in both directions |
| Types.PyIndex | backend/get_distance.py:89 | Python list indexing: defined exactly for `-len <= i < len`; a negative index counts from the end; the element is one of the list's |
| Types.PySlice | backend/get_distance.py:43-45 | a slice with clamped bounds has length `min(hi, len) - min(lo, len)` and element k is `s[lo + k]` |
| Fetch.BatchedPrefix | backend/get_distance.py:39-45 | the first n batches concatenated are the first `min(99n, L)` destinations |
| Fetch.ChunksPartition | backend/get_distance.py:39-45 | the `ceil(L/99)` slices concatenate to exactly the destination list, and each is 1 to 99 long |
| Fetch.ChunkOfPosition | backend/get_distance.py:39-45 | destination p lies in slice `p / 99` at offset `p % 99`, so every destination lands in a slice |
| Fetch.ParseInt | backend/get_distance.py:91 | an optional `+` or `-` followed by ASCII digits parses, to the digits' decimal value negated for `-`; every other string, the empty one included, is rejected (ValueError) |
| Fetch.DurationRoundTrip | backend/get_distance.py:91 | dropping the final unit character and parsing gives back n from `"<n>s"`, and -n from `"-<n>s"` |
| Fetch.DecodeEntry | backend/get_distance.py:86-92 | an entry is skipped exactly when it lacks `duration` or `destinationIndex`; a complete entry is kept exactly when its index is valid Python indexing of the current slice (negative counting from the end) and its duration parses; a kept entry carries the coordinate Python indexing gives and the parsed duration; a bad index raises IndexError and a bad duration ValueError |
| Fetch.CountCompleteBound | backend/get_distance.py:85-88 | the number of complete entries is at most the number of entries |
| Fetch.DecodeResponseOk | backend/get_distance.py:85-92 | decoding a response succeeds exactly when no entry fails, and on failure raises the first failing entry's error |
| Fetch.DecodeResponseShape | backend/get_distance.py:85-92 | a decoded response has one triple per complete entry, so no more triples than entries; each triple is some entry's decoding and lies on the slice |
| Fetch.DecodeErrPersists | backend/get_distance.py:85-92 | once an entry raises, the rest of the response does not change the outcome |
| Fetch.DecodeStep | backend/get_distance.py:85-92 | one more entry is skipped, raises, or appends its triple |
| Fetch.FetchErrPersists | backend/get_distance.py:42-92 | once a slice raises, the later slices do not change the outcome |
| Fetch.FetchStep | backend/get_distance.py:42-92 | one more slice appends its decoded response or raises that response's error |
| Fetch.FetchWithinDests | backend/get_distance.py:42-94 | every returned coordinate is one of the destinations |
| Fetch.GetTimeForDests | backend/get_distance.py:39-94 | the loop over slices returns exactly the specification's result or error |
| Fetch.DecodeBatch | backend/get_distance.py:85-92 | the loop over one response's entries returns exactly the decoding of the response: the kept entries' triples in order, or the first entry's error |
| Fetch.Abort | backend/get_distance.py:42-92 | a slice whose response raises ends the whole call with that response's error |
| Fetch.FullResponseDecodes | backend/get_distance.py:85-92 | a response with one complete entry per destination decodes to one triple per destination, in order |
| Fetch.FullEntryKept | backend/get_distance.py:86-92 | entry j of a full answer is kept as destination j of the slice with its duration |
| Fetch.FullBatchDecodes | backend/get_distance.py:85-92 | a full answer to one slice decodes to one triple per destination, in order |
| Fetch.FetchDecodedStep | backend/get_distance.py:42-92 | one more slice that decodes to one triple per destination extends the result by exactly those triples |
| Fetch.FetchFullStep | backend/get_distance.py:39-94 | with a service that answers every destination, each further slice extends the result by its destinations' triples |
| Fetch.FetchFull | backend/get_distance.py:39-94 | with a service that answers every destination, the first n slices yield exactly their destinations' triples |
| Fetch.FetchFullCoverage | backend/get_distance.py:39-94 | with a service that answers every destination, the result has exactly one triple per destination, in the given order |
| Aggregate.Order | backend/get_distance.py:188-198 | the dictionary's key order has no repeated coordinate and holds exactly the coordinates that occur |
| Aggregate.Contribs | backend/get_distance.py:188-190 | a coordinate has contributions exactly when it occurs in the input |
| Aggregate.SeqMax | backend/get_distance.py:215 | `max` returns an element that is at least every element |
| Aggregate.KeysOfAppend | backend/get_distance.py:188-190 | the coordinates of two concatenated lists are the union of each list's coordinates |
| Aggregate.GroupStep | backend/get_distance.py:189-190 | appending one triple's duration under its key keeps the grouping invariant |
| Aggregate.GroupList | backend/get_distance.py:189-190 | the inner loop extends the grouping invariant over one list |
| Aggregate.GroupByCoord | backend/get_distance.py:185-190 | after both loops, the key order and the duration lists are those of all lists concatenated |
| Aggregate.ComputeMaxDuration | backend/get_distance.py:203-220 | the imperative grouping and the result loop return exactly `MaxCombine` of the lists |
| Aggregate.ComputeAverageDuration | backend/get_distance.py:183-200 | the imperative grouping and the result loop return exactly `MeanCombine` of the lists |
| Aggregate.OrderIsFirstOccurrence | backend/get_distance.py:194-198 | output keys come in the order of their first occurrence in the input |
| Aggregate.FlattenKeys | backend/get_distance.py:188-190 | the coordinates of all lists concatenated are the union of the lists' coordinates |
| Aggregate.ContribsFrom | backend/get_distance.py:189-190 | every contribution of a coordinate comes from a triple at that coordinate |
| Aggregate.ContribsHas | backend/get_distance.py:189-190 | every triple's duration is among its coordinate's contributions |
| Aggregate.MaxCombineKeys | backend/get_distance.py:203-220 | the max variant outputs each coordinate once, and its coordinates are the union of the inputs' |
| Aggregate.MaxCombineValues | backend/get_distance.py:213-218 | each output duration is at least every contribution for its coordinate and is equal to one of the input triples |
| Aggregate.SumBounds | backend/get_distance.py:195 | a sum of n values in `[lo, hi]` lies in `[n*lo, n*hi]` |
| Aggregate.AverageBetween | backend/get_distance.py:195 | the quotient of such a sum by n lies in `[lo, hi]` |
| Aggregate.MeanBounds | backend/get_distance.py:195 | `sum/len` lies between the minimum and the maximum, and is the value itself for one contribution |
| Aggregate.MeanCombineSpec | backend/get_distance.py:183-200 | the average variant has the max variant's keys in the same order; each value is `sum/count` of its contributions, at least their minimum and at most the maximum |
| Aggregate.OrderOfDistinct | backend/get_distance.py:188-198 | for a list without repeated coordinates, the key order is the list's own order and each coordinate has its one duration |
| Aggregate.SingleListMax | backend/get_distance.py:203-220 | the max variant returns a list without repeated coordinates unchanged |
| Aggregate.SingleListMaxLength | backend/get_distance.py:203-220 | the max variant keeps the length of a list without repeated coordinates |
| Aggregate.SingleListMaxAt | backend/get_distance.py:203-220 | entry i of the max variant over such a list is the list's entry i |
| Aggregate.SingleListMean | backend/get_distance.py:183-200 | the average variant returns such a list unchanged, with durations as reals |
| Aggregate.SingleListMeanLength | backend/get_distance.py:183-200 | the average variant keeps the length of a list without repeated coordinates |
| Aggregate.SingleListMeanAt | backend/get_distance.py:183-200 | entry i of the average variant over such a list is the list's entry i with its duration as a real |
| Aggregate.ContribsAppend | backend/get_distance.py:188-190 | the contributions of a concatenation are those of the first part then those of the second |
| Aggregate.ContribsOfDistinct | backend/get_distance.py:188-190 | in a list without repeated coordinates, a coordinate contributes its one duration or nothing |
| Aggregate.CombineAt | backend/get_distance.py:183-220 | entry k of both variants has the same coordinate, and its value is the maximum (resp. mean) of that coordinate's contributions |
| Aggregate.TwoOriginsContribs | backend/get_distance.py:188-190 | with two origins, a coordinate's contributions are its duration from each origin that has it |
| Aggregate.TwoOrigins | backend/get_distance.py:183-220 | with two origins, a coordinate both reached gets the larger of its two durations (resp. their half-sum); a coordinate only one reached keeps that origin's duration |
| Cells.TopRight | backend/get_distance.py:109-112 | the rebuilt top-right corner has the top-left latitude and the bottom-right longitude |
| Cells.BottomLeft | backend/get_distance.py:114-117 | the rebuilt bottom-left corner has the bottom-right latitude and the top-left longitude |
| Cells.Linspace | backend/get_distance.py:126-127 | n samples; the first is the start and, from two samples on, the last is the end |
| Cells.LinspaceIncreasing | backend/get_distance.py:126-127 | over an increasing interval the samples strictly increase and stay inside it |
| Cells.LinspaceStrict | backend/get_distance.py:126-127 | over an increasing interval an earlier sample is strictly smaller than a later one |
| Cells.LinspaceWithin | backend/get_distance.py:126-127 | over an increasing interval every sample lies between the two ends |
| Cells.Row | backend/get_distance.py:129 | one meshgrid row has one point per longitude |
| Cells.Lattice | backend/get_distance.py:129 | the flattened meshgrid has `len(ys) * len(xs)` points |
| Cells.LatticeAt | backend/get_distance.py:129-160 | flattened point `r*len(xs)+c` is `(ys[r], xs[c])`, latitude-major as `ravel` gives it |
| Cells.LatticeGrid | backend/get_distance.py:129 | over two axes of n samples the lattice has `n²` points and point `r*n+c` is `(ys[r], xs[c])` |
| Cells.LatticeMembers | backend/get_distance.py:129-160 | every lattice point takes its latitude from ys and its longitude from xs |
| Cells.LatticeAscending | backend/get_distance.py:129-160 | from increasing axes, the flattened points strictly ascend by latitude, then longitude |
| Cells.CornerPoints | backend/get_distance.py:137-144 | the four points are, as `(lon, lat)`, bottom-left, bottom-right, top-left and top-right, in the order of the duration list `[bl, br, tl, tr]` |
| Cells.Swap | backend/get_distance.py:139-142 | `[::-1]` turns `(lat, lon)` into `(lon, lat)` |
| Cells.CornersFormRectangle | backend/get_distance.py:109-122 | the rebuilt corners share edges with the given ones, and for correctly ordered corners the four are distinct |
| Cells.BuildGridFails | backend/get_distance.py:119-126 | `build_grid` raises exactly when the corners are not ordered west-to-east and south-to-north (assert 1), or the step count is negative; asserts 2 and 3 never fire |
| Cells.GridPoints | backend/get_distance.py:126-164 | a returned grid has ordered corners, a non-negative step count, and the meshgrid of the two linspaces as its points |
| Cells.BuildGridShape | backend/get_distance.py:126-164 | `num_steps²` points; point `r*n+c` is `(y[r], x[c])`; valued triples exactly when all four corner durations are present and non-zero |
| Cells.BuildGridValues | backend/get_distance.py:137-157 | each valued triple's duration is the interpolation of the four corner durations at its point |
| Cells.BuildGridEnds | backend/get_distance.py:126-164 | the first point is the bottom-left corner, and from two steps on the last is the top-right corner |
| Cells.BuildGridInside | backend/get_distance.py:126-164 | every point lies inside the rectangle, and the points strictly ascend by latitude, then longitude |
| GridTimes.Insert | backend/get_distance.py:252-255 | inserting into a sorted list keeps it sorted and adds exactly that element |
| GridTimes.SortByKey | backend/get_distance.py:252-255 | the result is sorted by `(-lat, lon)` and is a permutation of the input |
| GridTimes.Reshape | backend/get_distance.py:256-257 | the reshape succeeds exactly when there are `g²` points, giving g rows of g |
| GridTimes.ReshapeAt | backend/get_distance.py:256-257 | matrix entry `[r][c]` is flat element `r*g+c` |
| RowMajor.IndexOf | backend/get_distance.py:256-257 | position `(r, c)` of a `g × g` matrix has flat index `r*g+c`, which lies below `g²` and maps back to row r and column c |
| GridTimes.ReshapeRoundTrip | backend/get_distance.py:256-257 | flattening the reshaped matrix gives back the list |
| GridTimes.RowsPrefix | backend/get_distance.py:256-257 | the first k rows flattened are the first `k*g` elements |
| GridTimes.SortedMatrix | backend/get_distance.py:252-257 | after the sort, earlier rows are to the north and, within a row, earlier columns to the west |
| GridTimes.Items | backend/get_distance.py:286 | one item per cell point; items are triples exactly when the cell grid is valued |
| GridTimes.ItemsAt | backend/get_distance.py:286 | item k is the grid's own triple k for a valued grid and its dictionary k otherwise |
| GridTimes.CornerAt | backend/get_distance.py:261-276 | a corner read from the matrix is that entry's coordinate |
| GridTimes.CellGridsAgree | backend/get_distance.py:259-285 | the per-cell function gives, for every in-range cell, `build_grid` on that cell's four corners |
| GridTimes.ColumnErrPersists | backend/get_distance.py:260-286 | once a cell raises, the rest of its column does not change the outcome |
| GridTimes.WalkErrPersists | backend/get_distance.py:259-286 | once a column raises, the later columns do not change the outcome |
| GridTimes.ColumnStep | backend/get_distance.py:260-286 | one more cell extends the items by its grid's points or raises its error |
| GridTimes.WalkStep | backend/get_distance.py:259-286 | one more column extends the items by its cells or raises |
| GridTimes.WalkAbort | backend/get_distance.py:259-286 | a column that raises ends the walk with that column's error |
| GridTimes.ExtendColumn | backend/get_distance.py:260-286 | the inner loop appends exactly one column's cells to the items so far, or returns the first cell's error |
| GridTimes.ReadCell | backend/get_distance.py:261-285 | reading a cell's four corners from the matrix and calling `build_grid` with 5 steps gives that cell's grid or error |
| GridTimes.WalkCells | backend/get_distance.py:258-286 | the double loop over `(g-1)²` cells, columns outside and rows inside, returns exactly the specified walk |
| GridTimes.ColumnFacts | backend/get_distance.py:260-286 | a column succeeds exactly when all its cells do, holds `rows*k` items, and otherwise raises one cell's error |
| GridTimes.WalkFacts | backend/get_distance.py:259-286 | the walk succeeds exactly when every cell does, and otherwise raises one cell's error |
| GridTimes.WalkLength | backend/get_distance.py:259-286 | a successful walk over `cols` columns of n cells with k points each holds `cols*(n*k)` items |
| GridTimes.WalkContains | backend/get_distance.py:259-286 | every point of every cell is in the walk's output |
| GridTimes.ColumnContains | backend/get_distance.py:260-286 | every point of every cell of a column is in that column's output |
| GridTimes.CellOutcome | backend/get_distance.py:261-285 | a cell raises assert 1 exactly when its corners are misordered; otherwise it has 25 points, which are dictionaries exactly when a corner duration is 0 |
| GridTimes.CellGridsUniform | backend/get_distance.py:277-285 | every successful cell grid has 25 points |
| GridTimes.CellGridsOutcome | backend/get_distance.py:261-285 | every in-range cell succeeds exactly when its corners are ordered, and otherwise raises assert 1 |
| GridTimes.CellsWalkOutcome | backend/get_distance.py:258-286 | for cells with those outcomes and 25 points each, the walk succeeds exactly when every cell's corners are ordered, then holds `(g-1)²·25` items, and otherwise raises assert 1 |
| GridTimes.WalkOutcome | backend/get_distance.py:258-286 | the walk succeeds exactly when every cell's corners are ordered, and then holds `(g-1)²·25` points; otherwise it raises assert 1 |
| GridTimes.Distinct | backend/get_distance.py:288 | `list(set(...))` keeps exactly the same elements, each once, and is no longer than the input |
| GridTimes.SamplesOf | backend/get_distance.py:288 | one triple per item |
| GridTimes.SamplesOfAt | backend/get_distance.py:288 | triple k is the one that item k carries |
| GridTimes.Dedupe | backend/get_distance.py:288 | raises TypeError exactly when some item is a dictionary; otherwise the result holds exactly the triples of the walk, each once |
| GridTimes.AsReal | backend/get_distance.py:256 | the same coordinates in the same order, each integer duration as a real |
| GridTimes.Combine | backend/get_distance.py:242-255 | fails exactly with two or more origins and a mode that is neither `max` nor `average` |
| GridTimes.FetchAllErrPersists | backend/get_distance.py:241 | once an origin's fetch raises, the later origins do not change the outcome |
| GridTimes.Origins | backend/get_distance.py:226 | one origin per start pair, in order, with the pair's latitude and longitude |
| GridTimes.FetchTimes | backend/get_distance.py:241 | the loop over origins returns exactly every origin's fetch result in order, or the first origin's error |
| GridTimes.CombineTimes | backend/get_distance.py:242-255 | the branch on the number of origins and the mode returns exactly the specified combination, or the error of an unknown mode |
| GridTimes.GetGridTimes | backend/get_distance.py:224-289 | the fetch loop, combination, sort, reshape, cell walk and dedup return exactly `GridTimesSpec` |
| GridTimes.SingleOriginBypass | backend/get_distance.py:242-248 | one origin's list passes through whatever the mode, and both merges would return a list without repeated coordinates unchanged |
| GridTimes.NoOrigins | backend/get_distance.py:241-257 | with no origins the reshape raises ValueError |
| GridTimes.NeedsFullGrid | backend/get_distance.py:255-257 | unless exactly 38² points arrive, the call raises ValueError at the reshape |
| GridTimes.GridTimesResult | backend/get_distance.py:241-289 | a successful call fetched and combined exactly 38² points and returns distinct triples, at most 37²·25 of them |
| GridTimes.GridTimesStages | backend/get_distance.py:241-289 | in a successful call every fetch and the merge succeed with 38² points, the sorted points reshape into a matrix, and the result is the deduplication of that matrix's cell walk |
| GridTimes.DistinctBound | backend/get_distance.py:288 | a duplicate-free list of triples taken from the walk is no longer than the walk |
| GridTimes.ZeroDurationRaises | backend/get_distance.py:277-288 | a zero duration at any corner of any cell makes `set()` raise TypeError over the whole call |
| GridTimes.ZeroCornerUnvalued | backend/get_distance.py:277-285 | a cell with a zero corner duration, if it succeeds, yields a non-empty list of dictionaries |
| GridTimes.UnvaluedCellRaises | backend/get_distance.py:286-288 | one such cell in a successful walk makes `set()` raise TypeError |

## Left out

- HTTP request construction, `requests.post`, the status-code check and `.json()` (backend/get_distance.py:46-82) are network I/O. The decoded response list is an input: `Fetch.Provider` maps an origin and a batch to that list.
- The departure `time` argument of `get_time_for_dests` only reaches the request body, so it is part of the provider.
- `scipy.interpolate.griddata` (backend/get_distance.py:151) is foreign numerics. It is the `Cells.Interpolator` parameter, applied to the four corners and values and to each point.
- `np.linspace`/`np.meshgrid` use float arithmetic. The model uses exact reals `a + k*(b-a)/(n-1)`, so rounding differences, and the float equality `set()` relies on, are not captured.
- `load_grid` (backend/get_distance.py:167-180) reads a CSV file. The grid points are a parameter of `GridTimes.GetGridTimes`.
- `@lru_cache` (backend/get_distance.py:223) keeps no state the model could observe apart from its eviction in functools.
- The grid-size selection at backend/get_distance.py:228-236 is dead code, overwritten at 238-239. `GridTimes.GridSize` is 38.
- `print` logging is left out, as are backend/main.py (HTTP routing) and backend/config.py (environment variables).
- Fetch.ParseInt: Python's `int()` also accepts surrounding whitespace, underscores between digits and non-ASCII digits. The model accepts only an optional sign and ASCII digits, which is what the routing service sends.
- GridTimes.Distinct: `list(set(...))` returns its elements in hash order. The model keeps first occurrences; only membership and uniqueness are stated.
- GridTimes.SortByKey: Python's sort is stable. The model's insertion sort is stable too, but only sortedness and permutation are stated.
- Integer durations are treated as exact when they become floats in `np.array`. Integers beyond 2⁵³ would round in the source.
- NaN durations from the interpolator outside its convex hull are not modelled. The interpolator returns an arbitrary real.
