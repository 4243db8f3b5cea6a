# Variable-size list: the offset/size cache

This project models the core of `VariableSizeList` from react-window 1.8.6 (a port for
Svelte). A virtualized list shows only the items inside its viewport. When items have
different sizes, it needs each item's pixel offset. It computes offsets lazily. A cache
maps an item index to `{offset, size}`. A high-water mark `lastMeasuredIndex` records how
far the cache is valid. Items above the mark are measured on demand, in ascending order,
with the caller's `itemSize(i)` callback.

The model has five modules:

- `Metadata` (`metadata.dfy`) holds the cache's value types and its invariant.
  - `Chained(m, last)`: entries `0..last` exist, and each starts where its predecessor ends.
  - `Fill`: the reference definition of a forward measurement.
  - `Forward`: "the state was measured forward and nothing else changed". It relates both
    the map and a ghost log of every `itemSize` call to the old state.
  - The lemmas about starts: prefix sums, monotonicity, uniqueness of a located index.
- `Alignment` (`alignment.dfy`) holds the pure scroll-to-item arithmetic of
  `getOffsetForIndexAndAlignment`.
- `Search` (`search.dfy`) holds the loop invariants of the binary search, the exponential
  search and the stop-index loop as value-level predicates, each with its step lemma. It
  also holds two correctness lemmas. One is for the binary search when starts strictly
  increase over its window. The other is for the locator when every measured size is
  positive.
- `VariableSizeList` (`variable_size_list.dfy`) holds the class `InstanceProps`.
  - Its state: `itemMetadataMap`, `lastMeasuredIndex`, the constant `estimatedItemSize`, the
    ghost call log `measureLog` and a counter `styleCacheClears`.
  - Its methods: every operation that measures or mutates.
  - The pure total-size estimate `EstimatedTotalSize`.
- `Scenarios` (`scenarios.dfy`) holds concrete runs on small lists, proved from the
  operations' contracts.

`itemSize` is a parameter of type `nat -> nat` of every measuring operation. The sizes may
differ from call to call, because the props may change between calls. That is why the
invariant is stated structurally (`offset(i) == offset(i-1) + size(i-1)`), not as "offset
equals the sum of the current sizes". The viewport size is a parameter, not derived from
`direction`/`layout`/`width`/`height`. `Math.round(min + (max - min) / 2)` on integers is
`(min + max + 1) / 2`.

For 50-pixel items, a 300-pixel viewport and scroll offset 0, the stop index is 5: items
0..5 end exactly at 300, and the loop at src/VariableSizeList.js:246 stops once the running
end reaches the viewport's end (`Scenarios.ScenarioConstantSizes`).

## Model

| member | source | states |
|---|---|---|
| Metadata.ChainedExtend | src/VariableSizeList.js:29-34 | appending an entry that starts where the last one ends keeps the chain invariant one index further |
| Metadata.Range | src/VariableSizeList.js:26 | the ascending index run lo..hi-1 of the measuring loop has hi - lo elements (none when hi <= lo) |
| Metadata.RangeElements | src/VariableSizeList.js:26 | element k of the run lo..hi-1 is lo + k, so the loop visits indices in ascending order |
| Metadata.RangeAppend | src/VariableSizeList.js:26 | two consecutive runs a..b-1 and b..c-1 concatenate to a..c-1 |
| Metadata.RangeSnoc | src/VariableSizeList.js:26 | extending a run by one index appends exactly that index |
| Metadata.Fill | src/VariableSizeList.js:19-37 | measuring forward from the mark to last1 keeps the old mark's entry and produces an entry at last1 |
| Metadata.FilledStep | src/VariableSizeList.js:26-35 | one iteration of the measuring loop (store `{offset, itemSize(i)}`, log the call, advance offset by the size) keeps the loop invariant: the map is the forward fill so far, offset is the end of the last stored item, the log is the old log plus the ascending indices measured |
| Metadata.FillEntry | src/VariableSizeList.js:26-35 | after a forward fill, an index has an entry iff it had one or lies in (last0, last1]; entries in that range have size itemSize(k); every other entry is untouched |
| Metadata.FillChained | src/VariableSizeList.js:20-35 | a forward fill from a chained cache yields a chained cache up to the new mark (offsets start at 0, or at the end of the last measured item) |
| Metadata.FillTrans | src/VariableSizeList.js:19-37 | filling to last1 and then to last2 equals filling straight to last2 |
| Metadata.FillKeepsStart | src/VariableSizeList.js:26-35 | a forward fill leaves the start of every item up to the old mark + 1 unchanged |
| Metadata.FillFromEmpty | src/VariableSizeList.js:20-35 | measured from an empty cache, item j exists and ends at itemSize(0) + ... + itemSize(j) |
| Metadata.LogSnoc | src/VariableSizeList.js:26-27 | logging one more call on index i extends the logged run a..i-1 to a..i |
| Metadata.LogTrans | src/VariableSizeList.js:26-27 | two consecutive logged runs compose into one run |
| Metadata.ForwardTrans | src/VariableSizeList.js:19-37 | two forward measurements in a row are one forward measurement (map and call log) |
| Metadata.ForwardNone | src/VariableSizeList.js:19-40 | resolving an index at or below the mark is a forward measurement of nothing: same map, same call log |
| Metadata.FilledForward | src/VariableSizeList.js:26-37 | a finished measuring loop is a forward measurement up to the index it reached |
| Metadata.ForwardStill | src/VariableSizeList.js:19 | a forward measurement that leaves the mark where it was changed neither the map nor the call log: zero itemSize calls |
| Metadata.ForwardKeepsStart | src/VariableSizeList.js:26-35 | a forward measurement does not move the start of any item up to the old mark + 1 |
| Metadata.StartIsSumOfSizes | src/VariableSizeList.js:20-34 | in a chained cache, item i starts at the sum of the stored sizes of items 0..i-1 |
| Metadata.StartMonotone | src/VariableSizeList.js:29-34 | in a chained cache, starts never decrease with the index |
| Metadata.StartStrictlyMonotone | src/VariableSizeList.js:29-34 | with positive sizes, starts strictly increase with the index |
| Metadata.LocatedIsLargest | src/VariableSizeList.js:82-99 | if item r starts at or before the target and item r + 1 after it, then r is exactly the set bound: j starts at or before the target iff j <= r |
| Metadata.ExactHitIsLargest | src/VariableSizeList.js:86-87 | with positive sizes, an item starting exactly at the target is the largest index starting at or before it |
| Search.BracketProbe | src/VariableSizeList.js:83-92 | after probing middle, moving low past middle (probe before target) or high below it (probe after target) keeps the bracket: everything below low starts before the target, everything above high after it |
| Search.NarrowedProbe | src/VariableSizeList.js:82-93 | one binary-search iteration keeps the loop invariant: the bounds stay within [low, high], the state is a forward measurement of indices up to high only, and the bracket holds |
| Search.BracketClosed | src/VariableSizeList.js:95-99 | when the loop ends without a hit, max(lo - 1, 0) is the fallback for an empty range, at most high, and either starts at or before the target or is the fallback, with the next item after the target; on a non-empty window the fallback low - 1 comes back only when item low starts after the target |
| Search.BinarySearchFindsLargest | src/VariableSizeList.js:82-99 | with starts strictly increasing over a non-empty [low, high] (positive sizes in [low, high) only) whose first item starts at or before the target, j in [low, high] starts at or before the target iff j is at most the answer, and the answer is at least low |
| Search.BinarySearchOutcome | src/VariableSizeList.js:82-99 | every outcome of the binary search is, under those hypotheses, the largest index in [low, high] starting at or before the target, so it meets the whole `BinaryOutcome` promise |
| Search.NearestIsUnique | src/VariableSizeList.js:43-126 | with positive sizes, the locator's answer is the unique index below itemCount whose start is at or before the target while the next one's is not |
| Search.NearestIsUniqueAll | src/VariableSizeList.js:43-126 | the same for every measured j below itemCount at once |
| Search.ProbeStep | src/VariableSizeList.js:111-116 | after a probe below itemCount that starts before the target, advancing by the interval and doubling it keeps the bracket's lower end i / 2 at or below that probe |
| Search.ExploringProbe | src/VariableSizeList.js:111-117 | one exponential-search iteration keeps the loop invariant: measuring only probes below itemCount, i + 1 == index + interval, and the lower-end fact |
| Search.ExponentialFinish | src/VariableSizeList.js:119-125 | the final binary search over [i / 2, min(i, itemCount - 1)] completes the exponential search's contract |
| Search.ExtendingStep | src/VariableSizeList.js:246-249 | one iteration of the stop-index loop keeps its invariant: the running offset is the end of item stopIndex, and the item before stopIndex ends before the viewport's end |
| Alignment.ResolvedAlign | src/VariableSizeList.js:193-202 | 'smart' becomes 'auto' iff minOffset - size <= scrollOffset <= maxOffset + size, otherwise 'center'; any other value is kept |
| Alignment.OffsetForAlignment | src/VariableSizeList.js:184-220 | every result is non-negative; 'start' gives the item's offset, or max(0, total - size) when the item lies past the last scrollable offset; 'end' puts the item's end at the viewport's end, or gives 0 when that would be negative; 'center' is the band's midpoint rounded half up; 'auto' and unknown values keep an in-band offset, move to minOffset from below and to maxOffset from above, also for an empty band |
| Alignment.BandIsFullyVisible | src/VariableSizeList.js:184-191 | within the scrollable range, [minOffset, maxOffset] is exactly the scroll offsets at which the whole item is inside the viewport |
| Alignment.BandNonEmpty | src/VariableSizeList.js:184-191 | the band is non-empty when the item fits in the viewport and in the total size |
| Alignment.AutoMovesLeast | src/VariableSizeList.js:211-219 | 'auto' picks an offset in the band that is nearest to the current scroll offset |
| VariableSizeList.EstimatedItemSizeOrDefault | src/VariableSizeList.js:254-260 | an absent or zero estimatedItemSize prop becomes 50; any other is kept |
| VariableSizeList.EstimatedTotalSize | src/VariableSizeList.js:128-149 | the sum of the stored sizes of the measured items below itemCount (the mark clamped to itemCount - 1) plus estimatedItemSize per unmeasured item; at least the measured sum for a non-negative estimate; exact once every item is measured |
| VariableSizeList.EstimateCoversMeasuredItem | src/VariableSizeList.js:180-182 | with a non-negative estimate, the estimate reaches past the end of every measured item below itemCount |
| VariableSizeList.InstanceProps.constructor | src/VariableSizeList.js:254-261 | an empty cache, the mark at -1, the estimate defaulted |
| VariableSizeList.InstanceProps.GetItemMetadata | src/VariableSizeList.js:11-41 | the new state is the forward fill of the old one up to index with the ascending calls logged (so an index at or below the mark measures nothing), the mark is max(old mark, index), the chain invariant holds, and the result is the entry at index, starting where item index - 1 ends |
| VariableSizeList.InstanceProps.GetItemOffset | src/VariableSizeList.js:152-156 | the offset of item index, which is the sum of the stored sizes before it, after measuring forward to index |
| VariableSizeList.InstanceProps.GetItemSize | src/VariableSizeList.js:158-162 | a plain read of the cache; for a measured item it is the distance to the next item's start |
| VariableSizeList.InstanceProps.ResetAfterIndex | src/VariableSizeList.js:263-283 | the mark becomes min(old mark, index - 1), no entry is removed or changed, the chain invariant still holds, and the style cache is told to clear once |
| VariableSizeList.InstanceProps.FindNearestItemBinarySearch | src/VariableSizeList.js:75-100 | only indices up to high are measured (forward, nothing else changes); an empty range gives max(low - 1, 0); the answer is at most high and is either the fallback or a measured index in [low, high] starting at or before the target; below high it is an exact hit or the next item starts after the target; on a non-empty window the fallback low - 1 comes back only when item low starts after the target; with starts strictly increasing over a measured [low, high] and item low at or before the target, the answer is the largest index in [low, high] starting at or before the target |
| VariableSizeList.InstanceProps.FindNearestItemExponentialSearch | src/VariableSizeList.js:102-126 | only indices below itemCount are measured; when item index starts before the target, the answer starts at or before the target, and when also index < itemCount the answer is below itemCount and is the last item, an exact hit, or followed by an item starting after the target |
| VariableSizeList.InstanceProps.FindNearestItem | src/VariableSizeList.js:43-73 | when the last measured item starts at or after the target, nothing is measured and the state is unchanged; only indices below itemCount are measured; a negative target gives 0; for a non-negative target the answer starts at or before it; when also itemCount > 0 and the mark is below itemCount the answer is a measured index below itemCount (or 0 with nothing measured) and is the last item, an exact hit, or followed by an item starting after the target; with positive sizes it is then the unique such index |
| VariableSizeList.InstanceProps.GetStopIndexForStartIndex | src/VariableSizeList.js:229-252 | measures forward up to the stop index; startIndex <= stop, and stop < itemCount whenever it moved past startIndex (so a start at or past the last item comes back unchanged); the range reaches the last item or ends at or after scrollOffset + size; and it is minimal: the item before stop ends before scrollOffset + size |
| VariableSizeList.InstanceProps.GetOffsetForIndexAndAlignment | src/VariableSizeList.js:166-221 | measures forward to index, then applies the alignment rule to that item with the estimate taken after the measurement; the result is non-negative and, for an index below itemCount and a non-negative estimate, the estimate reaches past the item's end |
| VariableSizeList.InstanceProps.VisibleRange | src/VariableSizeList.js:223-252 | getStartIndexForOffset followed by getStopIndexForStartIndex: both indices measured; for a non-negative scroll offset the start item begins at or before it; the range covers the viewport or reaches the last item; and for a non-negative scroll offset, a non-empty list and a mark below itemCount the stop index is below itemCount |
| VariableSizeList.InstanceProps.ResolveTwice | src/VariableSizeList.js:19-40 | resolving an index twice returns the same metadata and logs each measured index once, in ascending order |
| Scenarios.ConstantSizeSum | src/VariableSizeList.js:26-34 | with a constant size c, the first n sizes total c * n |
| Scenarios.ConstantStart | src/VariableSizeList.js:20-34 | with a constant size c, item k measured from an empty cache starts at c * k |
| Scenarios.ScenarioConstantSizes | src/VariableSizeList.js:223-252 | 1000 items of 50 px, viewport 300 at offset 0: start index 0, stop index 5 |
| Scenarios.ScenarioStaleStart | src/VariableSizeList.js:244-251 | 10 items and a stale start index 20: the loop never runs and the stop index is 20 |
| Scenarios.PatternSums | src/VariableSizeList.js:26-34 | the sizes 20, 30, 40, 50 sum to 140 and with 60 to 200 |
| Scenarios.ScenarioEstimate | src/VariableSizeList.js:128-149 | with sizes 20..60 repeating and the default estimate, item 4 starts at 140 and 1000 items are estimated at 49950 |
| Scenarios.ScenarioShrunkCount | src/VariableSizeList.js:136-138 | 51 measured items of 50 px and an item count shrunk to 30: the estimate is 1500 and the mark stays 50 |
| Scenarios.ScenarioResetThenResolve | src/VariableSizeList.js:263-270 | after a reset after index 10, the mark is 9, resolving item 9 calls itemSize on nothing, and resolving item 10 calls it on exactly [10] |
| Scenarios.ScenarioSmartKeepsVisibleItem | src/VariableSizeList.js:193-219 | an item at [1000, 1050] in a 300 px viewport at 900: the band is [750, 1000] and 'smart' keeps 900 |

## Left out

- `createListComponent` (rendering, scroll events, overscan, the item-style cache) is not part of this model. The call `_getItemStyleCache(-1)` in `resetAfterIndex` is modelled only as the counter `styleCacheClears`.
- The `shouldForceUpdate` parameter and the commented-out `instance.$set({})` have no effect and are not modelled.
- `validateProps` has an empty body. `itemSize` is a trusted total function returning naturals. Negative, fractional or non-numeric sizes are out of scope.
- Orientation selection (`direction`/`layout` to `width`/`height`): the viewport size is a parameter.
- JavaScript numbers are floating point. Offsets and sizes are unbounded integers, and `Math.round` is integer half-up rounding.
- VariableSizeList.InstanceProps.ResetAfterIndex: the argument is a `nat`. A negative argument, which would drive the mark below -1, is excluded.
- `getStartIndexForOffset` only forwards to `findNearestItem`. It has no member of its own; `VisibleRange` makes that call.
- `shouldResetStyleCacheOnItemSizeChange` is a constant flag read by the list component, which is not part of this model.
- VariableSizeList.InstanceProps.GetItemMetadata: "an index at or below the mark changes nothing and calls itemSize zero times" is not a separate ensures clause. It follows from the `Forward` ensures and the new mark, by `Metadata.ForwardStill`.
- VariableSizeList.InstanceProps.GetItemSize: requires the entry to exist. The source throws a TypeError when it reads the size of a missing entry. The list component only asks for sizes of items it has already measured, so that error path is not modelled.
- VariableSizeList.InstanceProps.FindNearestItem: the exactness part is guarded by "the mark is below itemCount". With a stale mark (the item count shrank since measuring), the code's answer may be at or above itemCount.
