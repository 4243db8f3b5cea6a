/** The lazily filled offset/size cache of a variable-size list and the operations the
    list component calls on it: measuring, locating the item at an offset, estimating
    the total size, resolving an alignment and extending a visible range. */
module VariableSizeList {
  import opened Metadata
  import opened Alignment
  import opened Search

  const DEFAULT_ESTIMATED_ITEM_SIZE := 50

  datatype Option<T> = None | Some(value: T)

  /** `estimatedItemSize || DEFAULT_ESTIMATED_ITEM_SIZE`: an absent prop (None) and the
      falsy value 0 select the default; any other value is kept. */
  function EstimatedItemSizeOrDefault(prop: Option<int>): (r: int)
    ensures r != 0
    ensures prop.Some? && prop.value != 0 ==> r == prop.value
    ensures prop.None? || prop.value == 0 ==> r == DEFAULT_ESTIMATED_ITEM_SIZE
  {
    if prop.Some? && prop.value != 0 then prop.value else DEFAULT_ESTIMATED_ITEM_SIZE
  }

  /** The high-water mark clamped below the item count (the count may have shrunk). */
  function ClampedMark(lastMeasuredIndex: int, itemCount: nat): (mark: int)
  {
    if lastMeasuredIndex >= itemCount then itemCount - 1 else lastMeasuredIndex
  }

  /**
   * The estimated total size: the exact extent of the measured items below `itemCount`
   * plus `estimatedItemSize` for each item not measured yet. It never falls below the
   * measured extent (for a non-negative estimate) and is exact once every item is measured.
   */
  function EstimatedTotalSize(itemCount: nat, itemMetadataMap: MetadataMap, estimatedItemSize: int,
                              lastMeasuredIndex: int): (r: int)
    requires Chained(itemMetadataMap, lastMeasuredIndex)
    ensures var measured := Min(lastMeasuredIndex + 1, itemCount);
            r == SumSizes(itemMetadataMap, measured) + (itemCount - measured) * estimatedItemSize
    ensures estimatedItemSize >= 0 ==>
              r >= SumSizes(itemMetadataMap, Min(lastMeasuredIndex + 1, itemCount))
    ensures lastMeasuredIndex + 1 >= itemCount ==> r == SumSizes(itemMetadataMap, itemCount)
  {
    var mark := ClampedMark(lastMeasuredIndex, itemCount);
    StartIsSumOfSizes(itemMetadataMap, lastMeasuredIndex, mark + 1);
    var totalSizeOfMeasuredItems := EndOf(itemMetadataMap, mark);
    var numUnmeasuredItems := itemCount - mark - 1;
    totalSizeOfMeasuredItems + numUnmeasuredItems * estimatedItemSize
  }

  /** With a non-negative estimate, the estimated total size reaches past the end of every
      measured item below the item count. */
  lemma EstimateCoversMeasuredItem(itemCount: nat, m: MetadataMap, estimatedItemSize: int,
                                   last: int, j: nat)
    requires Chained(m, last) && j <= last && j < itemCount && estimatedItemSize >= 0
    ensures EndOf(m, j) <= EstimatedTotalSize(itemCount, m, estimatedItemSize, last)
  {
    var mark := ClampedMark(last, itemCount);
    StartMonotone(m, last, j + 1, mark + 1);
    assert (itemCount - mark - 1) * estimatedItemSize >= 0;
  }

  /**
   * The per-list state: the metadata cache, its high-water mark and the estimate for
   * unmeasured items. `measureLog` records, in order, every index handed to the size
   * callback; `styleCacheClears` counts the signals to clear the list's item-style cache.
   */
  class InstanceProps {
    var itemMetadataMap: MetadataMap
    var lastMeasuredIndex: int
    const estimatedItemSize: int
    ghost var measureLog: seq<nat>
    var styleCacheClears: nat

    /** Entries 0..lastMeasuredIndex exist and each starts where the previous one ends. */
    ghost predicate Valid()
      reads this
    {
      Chained(itemMetadataMap, lastMeasuredIndex)
    }

    /** The state since `old` was measured forward with `itemSize` and nothing else changed. */
    ghost predicate MeasuredForwardFrom(itemSize: nat -> nat, m0: MetadataMap, last0: int, log0: seq<nat>)
      reads this
    {
      Forward(itemSize, m0, last0, log0, itemMetadataMap, lastMeasuredIndex, measureLog)
    }

    /** initInstanceProps: an empty cache with nothing measured. */
    constructor (estimatedItemSizeProp: Option<int>)
      ensures Valid()
      ensures itemMetadataMap == map[] && lastMeasuredIndex == -1
      ensures estimatedItemSize == EstimatedItemSizeOrDefault(estimatedItemSizeProp)
      ensures measureLog == [] && styleCacheClears == 0
    {
      itemMetadataMap := map[];
      estimatedItemSize := EstimatedItemSizeOrDefault(estimatedItemSizeProp);
      lastMeasuredIndex := -1;
      measureLog := [];
      styleCacheClears := 0;
    }

    /**
     * getItemMetadata: the metadata of item `index`. An index at or below the mark is read
     * from the cache without calling `itemSize`; otherwise every item from the mark up to
     * `index` is measured in ascending order, each starting where the previous one ends,
     * and the mark moves to `index`.
     */
    method GetItemMetadata(itemSize: nat -> nat, index: nat) returns (meta: ItemMetadata)
      requires Valid()
      modifies this`itemMetadataMap, this`lastMeasuredIndex, this`measureLog
      ensures Valid()
      ensures MeasuredForwardFrom(itemSize, old(itemMetadataMap), old(lastMeasuredIndex), old(measureLog))
      ensures lastMeasuredIndex == Max(old(lastMeasuredIndex), index)
      ensures meta == itemMetadataMap[index]
      ensures meta.offset == StartOf(itemMetadataMap, index)
    {
      if index > lastMeasuredIndex {
        ghost var m0, last0, log0 := itemMetadataMap, lastMeasuredIndex, measureLog;
        var offset: nat := 0;
        if lastMeasuredIndex >= 0 {
          var itemMetadata := itemMetadataMap[lastMeasuredIndex];
          offset := itemMetadata.offset + itemMetadata.size;
        }
        var i: nat := lastMeasuredIndex + 1;
        while i <= index
          invariant lastMeasuredIndex == last0
          invariant last0 + 1 <= i <= index + 1
          invariant Filled(itemSize, m0, last0, log0, itemMetadataMap, i - 1, measureLog, offset)
        {
          var size := itemSize(i);
          FilledStep(itemSize, m0, last0, log0, itemMetadataMap, i - 1, measureLog, offset);
          measureLog := measureLog + [i];
          itemMetadataMap := itemMetadataMap[i := ItemMetadata(offset, size)];
          offset := offset + size;
          i := i + 1;
        }
        FillChained(itemSize, m0, last0, index);
        FilledForward(itemSize, m0, last0, log0, itemMetadataMap, index, measureLog, offset);
        lastMeasuredIndex := index;
      } else {
        ForwardNone(itemSize, itemMetadataMap, lastMeasuredIndex, measureLog);
      }
      meta := itemMetadataMap[index];
    }

    /** getItemOffset: where item `index` starts, i.e. the total size of the items before it. */
    method GetItemOffset(itemSize: nat -> nat, index: nat) returns (offset: nat)
      requires Valid()
      modifies this`itemMetadataMap, this`lastMeasuredIndex, this`measureLog
      ensures Valid()
      ensures MeasuredForwardFrom(itemSize, old(itemMetadataMap), old(lastMeasuredIndex), old(measureLog))
      ensures lastMeasuredIndex == Max(old(lastMeasuredIndex), index)
      ensures offset == StartOf(itemMetadataMap, index) == SumSizes(itemMetadataMap, index)
    {
      var meta := GetItemMetadata(itemSize, index);
      StartIsSumOfSizes(itemMetadataMap, lastMeasuredIndex, index);
      offset := meta.offset;
    }

    /** getItemSize: a plain read of the cache; for a measured item it is the distance
        from its start to the start of the next item. */
    function GetItemSize(index: nat): (size: nat)
      reads this
      requires index in itemMetadataMap
      ensures Valid() && index <= lastMeasuredIndex ==>
                size == StartOf(itemMetadataMap, index + 1) - StartOf(itemMetadataMap, index)
    {
      itemMetadataMap[index].size
    }

    /** resetAfterIndex: lower the mark to index - 1 (never raising it), keep every entry,
        and signal the item-style cache to clear. */
    method ResetAfterIndex(index: nat)
      requires Valid()
      modifies this`lastMeasuredIndex, this`styleCacheClears
      ensures Valid()
      ensures itemMetadataMap == old(itemMetadataMap)
      ensures lastMeasuredIndex == Min(old(lastMeasuredIndex), index - 1)
      ensures styleCacheClears == old(styleCacheClears) + 1
    {
      lastMeasuredIndex := Min(lastMeasuredIndex, index - 1);
      styleCacheClears := styleCacheClears + 1;
    }

    /**
     * findNearestItemBinarySearch over [low, high]. Without any assumption on the offsets:
     * the result is a probed index that starts at or before `offset` (or the fallback
     * max(low - 1, 0)), and below `high` either the result starts exactly at `offset` or
     * the next item starts after it. Only indices up to `high` are measured. On a non-empty
     * window the fallback low - 1 comes back only when item low starts after `offset`; with
     * starts strictly increasing over the window and item low at or before `offset`, the
     * result is the largest index in [low, high] that starts at or before `offset`.
     */
    method FindNearestItemBinarySearch(itemSize: nat -> nat, high: int, low: nat, offset: int)
      returns (index: nat)
      requires Valid()
      modifies this`itemMetadataMap, this`lastMeasuredIndex, this`measureLog
      ensures Valid()
      ensures MeasuredForwardFrom(itemSize, old(itemMetadataMap), old(lastMeasuredIndex), old(measureLog))
      ensures lastMeasuredIndex <= Max(old(lastMeasuredIndex), high)
      ensures BinaryOutcome(itemMetadataMap, lastMeasuredIndex, low, high, offset, index)
    {
      var lo: nat, hi: int := low, high;
      while lo <= hi
        invariant Narrowed(itemSize, old(itemMetadataMap), old(lastMeasuredIndex), old(measureLog),
                           itemMetadataMap, lastMeasuredIndex, measureLog, low, high, lo, hi, offset)
        decreases hi - lo
      {
        var middle: nat := lo + (hi - lo) / 2;
        ghost var m0, last0, log0 := itemMetadataMap, lastMeasuredIndex, measureLog;
        var meta := GetItemMetadata(itemSize, middle);
        var currentOffset := meta.offset;
        if currentOffset == offset {
          ForwardTrans(itemSize, old(itemMetadataMap), old(lastMeasuredIndex), old(measureLog),
                       m0, last0, log0, itemMetadataMap, lastMeasuredIndex, measureLog);
          BinarySearchOutcome(itemMetadataMap, lastMeasuredIndex, low, high, offset, middle);
          return middle;
        }
        ghost var lo0, hi0 := lo, hi;
        if currentOffset < offset {
          lo := middle + 1;
        } else {
          hi := middle - 1;
        }
        NarrowedProbe(itemSize, old(itemMetadataMap), old(lastMeasuredIndex), old(measureLog),
                      m0, last0, log0, itemMetadataMap, lastMeasuredIndex, measureLog,
                      low, high, lo0, hi0, offset, middle, lo, hi);
      }
      BracketClosed(itemMetadataMap, lastMeasuredIndex, low, high, lo, hi, offset);
      if lo > 0 {
        index := lo - 1;
      } else {
        index := 0;
      }
      BinarySearchOutcome(itemMetadataMap, lastMeasuredIndex, low, high, offset, index);
    }

    /**
     * findNearestItemExponentialSearch from `index`: probe index, index+1, index+3, ...
     * while the probe is below `itemCount` and starts before `offset`, then binary-search
     * the bracket [i / 2, min(i, itemCount - 1)]. Only indices below `itemCount` are
     * measured. When item `index` is known and starts before `offset`, the result starts
     * at or before `offset`; when also `index < itemCount`, the result is below
     * `itemCount` and is the last item, starts exactly at `offset`, or is followed by an
     * item that starts after `offset`.
     */
    method FindNearestItemExponentialSearch(itemSize: nat -> nat, itemCount: nat, index: nat, offset: int)
      returns (nearest: nat)
      requires Valid()
      modifies this`itemMetadataMap, this`lastMeasuredIndex, this`measureLog
      ensures Valid()
      ensures MeasuredForwardFrom(itemSize, old(itemMetadataMap), old(lastMeasuredIndex), old(measureLog))
      ensures lastMeasuredIndex <= Max(old(lastMeasuredIndex), itemCount - 1)
      ensures index <= old(lastMeasuredIndex) + 1 && old(StartOf(itemMetadataMap, index)) < offset ==>
                nearest <= lastMeasuredIndex + 1 && StartOf(itemMetadataMap, nearest) <= offset
      ensures index <= old(lastMeasuredIndex) + 1 && old(StartOf(itemMetadataMap, index)) < offset &&
              index < itemCount ==>
                nearest < itemCount && nearest <= lastMeasuredIndex &&
                (nearest == itemCount - 1 || StartOf(itemMetadataMap, nearest) == offset ||
                 StartOf(itemMetadataMap, nearest + 1) > offset)
    {
      ghost var known := index <= lastMeasuredIndex + 1 && StartOf(itemMetadataMap, index) < offset;
      var i: nat := index;
      var interval: nat := 1;
      // the last index known to start before offset; the bracket's lower end i / 2 never passes it
      ghost var below: nat := index;
      while i < itemCount
        invariant Exploring(itemSize, old(itemMetadataMap), old(lastMeasuredIndex), old(measureLog),
                            itemMetadataMap, lastMeasuredIndex, measureLog,
                            index, itemCount, i, interval, below, offset, known)
        decreases itemCount - i
      {
        ghost var m0, last0, log0 := itemMetadataMap, lastMeasuredIndex, measureLog;
        var meta := GetItemMetadata(itemSize, i);
        if meta.offset >= offset {
          ExploringProbe(itemSize, old(itemMetadataMap), old(lastMeasuredIndex), old(measureLog),
                         m0, last0, log0, itemMetadataMap, lastMeasuredIndex, measureLog,
                         index, itemCount, i, interval, below, offset, known, i, interval, below);
          break;
        }
        ghost var i0, interval0, below0 := i, interval, below;
        below := i;
        i := i + interval;
        interval := interval * 2;
        ExploringProbe(itemSize, old(itemMetadataMap), old(lastMeasuredIndex), old(measureLog),
                       m0, last0, log0, itemMetadataMap, lastMeasuredIndex, measureLog,
                       index, itemCount, i0, interval0, below0, offset, known, i, interval, below);
      }
      ghost var m1, last1, log1 := itemMetadataMap, lastMeasuredIndex, measureLog;
      nearest := FindNearestItemBinarySearch(itemSize, Min(i, itemCount - 1), i / 2, offset);
      ExponentialFinish(itemSize, old(itemMetadataMap), old(lastMeasuredIndex), old(measureLog),
                        m1, last1, log1, itemMetadataMap, lastMeasuredIndex, measureLog,
                        index, itemCount, i, interval, below, offset, known, nearest);
    }

    /**
     * findNearestItem: the index of the item at pixel `offset`. When the last measured
     * item starts at or after `offset` the answer is binary-searched among measured items
     * and nothing is measured; otherwise an exponential search measures forward. For a
     * negative offset the result is 0. For a non-negative offset the result starts at or
     * before `offset`; when also `itemCount > 0` and the mark is below `itemCount`, the
     * result is a measured index below `itemCount` (or 0 with nothing measured) and is the
     * last item, starts exactly at `offset`, or is followed by an item that starts after
     * `offset`. With positive sizes it is then the unique such index.
     */
    method FindNearestItem(itemSize: nat -> nat, itemCount: nat, offset: int) returns (nearest: nat)
      requires Valid()
      modifies this`itemMetadataMap, this`lastMeasuredIndex, this`measureLog
      ensures Valid()
      ensures MeasuredForwardFrom(itemSize, old(itemMetadataMap), old(lastMeasuredIndex), old(measureLog))
      ensures lastMeasuredIndex <= Max(old(lastMeasuredIndex), itemCount - 1)
      ensures old(StartOf(itemMetadataMap, Max(0, lastMeasuredIndex))) >= offset ==>
                itemMetadataMap == old(itemMetadataMap) && lastMeasuredIndex == old(lastMeasuredIndex) &&
                measureLog == old(measureLog)
      ensures offset < 0 ==> nearest == 0
      ensures offset >= 0 ==> nearest <= lastMeasuredIndex + 1 && StartOf(itemMetadataMap, nearest) <= offset
      ensures offset >= 0 && 0 < itemCount && old(lastMeasuredIndex) < itemCount ==>
                nearest < itemCount &&
                (nearest <= lastMeasuredIndex || (lastMeasuredIndex == -1 && nearest == 0)) &&
                (nearest == itemCount - 1 || StartOf(itemMetadataMap, nearest) == offset ||
                 (nearest + 1 <= lastMeasuredIndex + 1 && StartOf(itemMetadataMap, nearest + 1) > offset))
      ensures offset >= 0 && 0 < itemCount && old(lastMeasuredIndex) < itemCount &&
              PositiveSizes(itemMetadataMap, lastMeasuredIndex) ==>
                UniqueNearest(itemMetadataMap, lastMeasuredIndex, itemCount, offset, nearest)
    {
      var lastMeasuredItemOffset :=
        if lastMeasuredIndex > 0 then itemMetadataMap[lastMeasuredIndex].offset else 0;
      assert lastMeasuredItemOffset == StartOf(itemMetadataMap, Max(0, lastMeasuredIndex));
      if lastMeasuredItemOffset >= offset {
        nearest := FindNearestItemBinarySearch(itemSize, lastMeasuredIndex, 0, offset);
        ForwardStill(itemSize, old(itemMetadataMap), old(lastMeasuredIndex), old(measureLog),
                     itemMetadataMap, lastMeasuredIndex, measureLog);
      } else {
        nearest := FindNearestItemExponentialSearch(itemSize, itemCount, Max(0, lastMeasuredIndex), offset);
      }
      if offset >= 0 && 0 < itemCount && old(lastMeasuredIndex) < itemCount {
        NearestIsUniqueAll(itemMetadataMap, lastMeasuredIndex, itemCount, offset, nearest);
      }
    }

    /**
     * getStopIndexForStartIndex: extend the range from `startIndex` one item at a time
     * until the items cover the viewport [scrollOffset, scrollOffset + size] or the last
     * item is reached. The result is the smallest such index: the item before it still
     * ends before the viewport's end. A start at or past the last item comes back unchanged.
     */
    method GetStopIndexForStartIndex(itemSize: nat -> nat, itemCount: nat, startIndex: nat,
                                     scrollOffset: int, size: int) returns (stopIndex: nat)
      requires Valid()
      modifies this`itemMetadataMap, this`lastMeasuredIndex, this`measureLog
      ensures Valid()
      ensures MeasuredForwardFrom(itemSize, old(itemMetadataMap), old(lastMeasuredIndex), old(measureLog))
      ensures lastMeasuredIndex == Max(old(lastMeasuredIndex), stopIndex)
      ensures startIndex <= stopIndex
      ensures startIndex < itemCount ==> stopIndex < itemCount
      ensures stopIndex >= itemCount - 1 || EndOf(itemMetadataMap, stopIndex) >= scrollOffset + size
      ensures stopIndex > startIndex ==> EndOf(itemMetadataMap, stopIndex - 1) < scrollOffset + size
      ensures stopIndex > startIndex ==> stopIndex < itemCount
    {
      var itemMetadata := GetItemMetadata(itemSize, startIndex);
      var maxOffset := scrollOffset + size;
      var offset := itemMetadata.offset + itemMetadata.size;
      stopIndex := startIndex;
      while stopIndex < itemCount - 1 && offset < maxOffset
        invariant Extending(itemSize, old(itemMetadataMap), old(lastMeasuredIndex), old(measureLog),
                            itemMetadataMap, lastMeasuredIndex, measureLog,
                            itemCount, startIndex, stopIndex, offset, maxOffset)
        decreases itemCount - stopIndex
      {
        ghost var m0, last0, log0 := itemMetadataMap, lastMeasuredIndex, measureLog;
        ghost var stop0, offset0 := stopIndex, offset;
        stopIndex := stopIndex + 1;
        var meta := GetItemMetadata(itemSize, stopIndex);
        offset := offset + meta.size;
        ExtendingStep(itemSize, old(itemMetadataMap), old(lastMeasuredIndex), old(measureLog),
                      m0, last0, log0, itemMetadataMap, lastMeasuredIndex, measureLog,
                      itemCount, startIndex, stop0, offset0, maxOffset, meta);
      }
    }

    /**
     * getOffsetForIndexAndAlignment: measure item `index`, take the estimated total size
     * after that measurement, and apply the alignment rule. The estimate then reaches
     * past the item's end whenever the item is below `itemCount`.
     */
    method GetOffsetForIndexAndAlignment(itemSize: nat -> nat, itemCount: nat, index: nat, align: string,
                                         scrollOffset: int, size: int) returns (target: int)
      requires Valid()
      modifies this`itemMetadataMap, this`lastMeasuredIndex, this`measureLog
      ensures Valid()
      ensures MeasuredForwardFrom(itemSize, old(itemMetadataMap), old(lastMeasuredIndex), old(measureLog))
      ensures lastMeasuredIndex == Max(old(lastMeasuredIndex), index)
      ensures target == OffsetForAlignment(align, scrollOffset, size, itemMetadataMap[index],
                          EstimatedTotalSize(itemCount, itemMetadataMap, estimatedItemSize, lastMeasuredIndex))
      ensures target >= 0
      ensures index < itemCount && estimatedItemSize >= 0 ==>
                EndOf(itemMetadataMap, index) <=
                EstimatedTotalSize(itemCount, itemMetadataMap, estimatedItemSize, lastMeasuredIndex)
    {
      var itemMetadata := GetItemMetadata(itemSize, index);
      var estimatedTotalSize := EstimatedTotalSize(itemCount, itemMetadataMap, estimatedItemSize, lastMeasuredIndex);
      if index < itemCount && estimatedItemSize >= 0 {
        EstimateCoversMeasuredItem(itemCount, itemMetadataMap, estimatedItemSize, lastMeasuredIndex, index);
      }
      target := OffsetForAlignment(align, scrollOffset, size, itemMetadata, estimatedTotalSize);
    }

    /**
     * The visible range as the list component derives it from the two entry points
     * getStartIndexForOffset (findNearestItem) and getStopIndexForStartIndex, without
     * overscan: the items from `startIndex` to `stopIndex` cover the viewport, or the
     * range reaches the last item.
     */
    method VisibleRange(itemSize: nat -> nat, itemCount: nat, scrollOffset: int, size: int)
      returns (startIndex: nat, stopIndex: nat)
      requires Valid()
      modifies this`itemMetadataMap, this`lastMeasuredIndex, this`measureLog
      ensures Valid()
      ensures MeasuredForwardFrom(itemSize, old(itemMetadataMap), old(lastMeasuredIndex), old(measureLog))
      ensures startIndex <= stopIndex <= lastMeasuredIndex
      ensures scrollOffset >= 0 ==> StartOf(itemMetadataMap, startIndex) <= scrollOffset
      ensures stopIndex >= itemCount - 1 || EndOf(itemMetadataMap, stopIndex) >= scrollOffset + size
      ensures scrollOffset >= 0 && 0 < itemCount && old(lastMeasuredIndex) < itemCount ==>
                stopIndex < itemCount
    {
      startIndex := FindNearestItem(itemSize, itemCount, scrollOffset);
      ghost var m0, last0, log0 := itemMetadataMap, lastMeasuredIndex, measureLog;
      stopIndex := GetStopIndexForStartIndex(itemSize, itemCount, startIndex, scrollOffset, size);
      ForwardTrans(itemSize, old(itemMetadataMap), old(lastMeasuredIndex), old(measureLog),
                   m0, last0, log0, itemMetadataMap, lastMeasuredIndex, measureLog);
      if scrollOffset >= 0 {
        ForwardKeepsStart(itemSize, m0, last0, log0, itemMetadataMap, lastMeasuredIndex, measureLog, startIndex);
      }
    }

    /** Resolving an index twice measures every index at most once: the second call
        returns the same metadata and does not call `itemSize` at all. */
    method ResolveTwice(itemSize: nat -> nat, index: nat) returns (first: ItemMetadata, second: ItemMetadata)
      requires Valid()
      modifies this`itemMetadataMap, this`lastMeasuredIndex, this`measureLog
      ensures Valid()
      ensures first == second
      ensures measureLog == old(measureLog) + Range(old(lastMeasuredIndex) + 1, Max(old(lastMeasuredIndex), index) + 1)
    {
      first := GetItemMetadata(itemSize, index);
      ghost var m0, last0, log0 := itemMetadataMap, lastMeasuredIndex, measureLog;
      second := GetItemMetadata(itemSize, index);
      ForwardStill(itemSize, m0, last0, log0, itemMetadataMap, lastMeasuredIndex, measureLog);
    }
  }
}
