/** What the loops over the cache know between two measurements — the binary and the
    exponential search of the nearest-item locator, and the stop-index extension — and
    how one measurement (a forward fill) preserves it. */
module Search {
  import opened Metadata

  /**
   * The binary search over [low, high] has narrowed its window to [lo, hi]: the item just
   * below the window (if the window has moved up from `low`) starts before `offset`, and
   * the item just above it (if the window has moved down from `high`) starts after it.
   */
  ghost predicate Bracket(m: MetadataMap, last: int, low: nat, high: int, lo: nat, hi: int, offset: int)
  {
    Chained(m, last) &&
    (lo > low ==> lo - 1 <= last && StartOf(m, lo - 1) < offset) &&
    (hi < high ==> hi + 1 >= 0 && hi + 1 <= last && StartOf(m, hi + 1) > offset)
  }

  /** Probing `middle` (a forward measurement that reaches it) keeps the bracket, and
      moving the window past the probe as the comparison says keeps it too. */
  lemma BracketProbe(itemSize: nat -> nat,
                     m0: MetadataMap, last0: int, log0: seq<nat>,
                     m1: MetadataMap, last1: int, log1: seq<nat>,
                     low: nat, high: int, lo: nat, hi: int, offset: int, middle: nat)
    requires Bracket(m0, last0, low, high, lo, hi, offset)
    requires Forward(itemSize, m0, last0, log0, m1, last1, log1) && Chained(m1, last1)
    requires lo <= middle <= hi && middle <= last1
    ensures StartOf(m1, middle) < offset ==> Bracket(m1, last1, low, high, middle + 1, hi, offset)
    ensures StartOf(m1, middle) > offset ==> Bracket(m1, last1, low, high, lo, middle - 1, offset)
  {
    if lo > low {
      ForwardKeepsStart(itemSize, m0, last0, log0, m1, last1, log1, lo - 1);
    }
    if hi < high {
      ForwardKeepsStart(itemSize, m0, last0, log0, m1, last1, log1, hi + 1);
    }
  }

  /**
   * The binary search over [low, high] started from (m0, last0, log0) and has narrowed
   * its window to [lo, hi]: the window stays inside [low, high], the probes so far are a
   * forward measurement reaching no further than `high`, and the bracket holds.
   */
  ghost predicate Narrowed(itemSize: nat -> nat,
                           m0: MetadataMap, last0: int, log0: seq<nat>,
                           m: MetadataMap, last: int, log: seq<nat>,
                           low: nat, high: int, lo: nat, hi: int, offset: int)
  {
    low <= lo && hi <= high && (lo <= hi + 1 || (lo == low && hi == high)) &&
    Forward(itemSize, m0, last0, log0, m, last, log) && last <= Max(last0, high) &&
    Bracket(m, last, low, high, lo, hi, offset)
  }

  /** One probe at the midpoint of a non-empty window that misses `offset`, followed by
      moving the window past the probe, keeps the search narrowed. */
  lemma NarrowedProbe(itemSize: nat -> nat,
                      m0: MetadataMap, last0: int, log0: seq<nat>,
                      m1: MetadataMap, last1: int, log1: seq<nat>,
                      m2: MetadataMap, last2: int, log2: seq<nat>,
                      low: nat, high: int, lo: nat, hi: int, offset: int, middle: nat,
                      lo': nat, hi': int)
    requires Narrowed(itemSize, m0, last0, log0, m1, last1, log1, low, high, lo, hi, offset)
    requires lo <= hi && middle == lo + (hi - lo) / 2
    requires Forward(itemSize, m1, last1, log1, m2, last2, log2) && Chained(m2, last2)
    requires last2 == Max(last1, middle)
    requires StartOf(m2, middle) < offset ==> lo' == middle + 1 && hi' == hi
    requires StartOf(m2, middle) > offset ==> lo' == lo && hi' == middle - 1
    requires StartOf(m2, middle) != offset
    ensures Narrowed(itemSize, m0, last0, log0, m2, last2, log2, low, high, lo', hi', offset)
  {
    ForwardTrans(itemSize, m0, last0, log0, m1, last1, log1, m2, last2, log2);
    BracketProbe(itemSize, m1, last1, log1, m2, last2, log2, low, high, lo, hi, offset, middle);
  }

  /**
   * When the window is empty, `max(lo - 1, 0)` is the fallback max(low - 1, 0) or an
   * index in [low, high] that starts at or before `offset`; below `high` it starts exactly
   * at `offset` or the next item starts after `offset`.
   */
  lemma BracketClosed(m: MetadataMap, last: int, low: nat, high: int, lo: nat, hi: int, offset: int)
    requires Bracket(m, last, low, high, lo, hi, offset)
    requires low <= lo && hi <= high && hi < lo
    requires lo == hi + 1 || (lo == low && hi == high)
    ensures var index := Max(lo - 1, 0);
            (low > high ==> index == Max(low - 1, 0)) &&
            (low <= high ==> index <= high) &&
            (index == Max(low - 1, 0) || (low <= index <= last && StartOf(m, index) <= offset)) &&
            (index < high ==>
               index + 1 <= last + 1 &&
               (StartOf(m, index) == offset || StartOf(m, index + 1) > offset)) &&
            FallbackOnlyPastTarget(m, last, low, high, offset, index)
  {
    if lo == 0 && hi < high {
      assert m[0].offset == StartOf(m, 0);
    }
  }

  /** Starts strictly increase over [low, high]: every item in [low, high) has a positive size. */
  ghost predicate IncreasingOver(m: MetadataMap, low: nat, high: int)
  {
    forall i: nat :: low <= i < high ==> i in m && m[i].size > 0
  }

  /** `index` is the largest index in [low, high] that starts at or before `offset`. */
  ghost predicate LargestAtOrBefore(m: MetadataMap, last: int, low: nat, high: int, offset: int, index: nat)
  {
    Chained(m, last) && high <= last + 1 && low <= index <= high &&
    forall j: nat {:trigger StartOf(m, j)} :: low <= j <= high ==> (StartOf(m, j) <= offset <==> j <= index)
  }

  /** On a non-empty window, the fallback below `low` comes back only when item `low` starts
      after `offset`. */
  ghost predicate FallbackOnlyPastTarget(m: MetadataMap, last: int, low: nat, high: int, offset: int, index: nat)
    requires Chained(m, last)
  {
    low <= high && index < low ==> low <= last && StartOf(m, low) > offset
  }

  /** Whenever starts strictly increase over a non-empty, measured [low, high] whose first
      item starts at or before `offset`, `index` is the largest index in [low, high] that
      starts at or before `offset`. */
  ghost predicate LargestWhenIncreasing(m: MetadataMap, last: int, low: nat, high: int, offset: int, index: nat)
    requires Chained(m, last)
  {
    low <= high <= last + 1 && IncreasingOver(m, low, high) && StartOf(m, low) <= offset ==>
      LargestAtOrBefore(m, last, low, high, offset, index)
  }

  /**
   * With starts strictly increasing over a non-empty [low, high] whose first item starts
   * at or before `offset`, an outcome of the binary search is the largest index in
   * [low, high] that starts at or before `offset`; an exact hit is that index. Sizes
   * outside the window do not matter.
   */
  lemma BinarySearchFindsLargest(m: MetadataMap, last: int, low: nat, high: int, offset: int,
                                 index: nat, j: nat)
    requires Chained(m, last)
    requires low <= high <= last + 1 && StartOf(m, low) <= offset
    requires IncreasingOver(m, low, high)
    requires index <= high
    requires index == Max(low - 1, 0) || (low <= index <= last && StartOf(m, index) <= offset)
    requires index < high ==>
               index + 1 <= last + 1 &&
               (StartOf(m, index) == offset || StartOf(m, index + 1) > offset)
    requires index < low ==> low <= last && StartOf(m, low) > offset
    requires low <= j <= high
    ensures low <= index
    ensures StartOf(m, j) <= offset <==> j <= index
  {
    if index < high {
      if StartOf(m, index) == offset {
        if j <= index {
          StartMonotone(m, last, j, index);
        } else {
          // item index lies in the window, so it has a positive size
          assert m[index].offset == StartOf(m, index) && m[index].size > 0;
          StartMonotone(m, last, index + 1, j);
        }
      } else {
        LocatedIsLargest(m, last, index, offset, j);
      }
    } else {
      StartMonotone(m, last, j, index);
    }
  }

  /**
   * What the binary search over [low, high] promises about its answer `index`, for any
   * offsets: an empty window gives the fallback max(low - 1, 0); otherwise the answer is
   * at most `high`; it is the fallback or a measured index in [low, high] that starts at
   * or before `offset`; below `high` it is an exact hit or the next item starts after
   * `offset`; the fallback below `low` comes back only past the target; and with
   * increasing starts it is the largest index at or before `offset`.
   */
  ghost predicate BinaryOutcome(m: MetadataMap, last: int, low: nat, high: int, offset: int, index: nat)
  {
    Chained(m, last) &&
    (low > high ==> index == Max(low - 1, 0)) &&
    (low <= high ==> index <= high) &&
    (index == Max(low - 1, 0) || (low <= index <= last && StartOf(m, index) <= offset)) &&
    (index < high ==>
       index + 1 <= last + 1 &&
       (StartOf(m, index) == offset || StartOf(m, index + 1) > offset)) &&
    FallbackOnlyPastTarget(m, last, low, high, offset, index) &&
    LargestWhenIncreasing(m, last, low, high, offset, index)
  }

  /** Every outcome of the binary search satisfies the largest-index property
      when its hypotheses hold. */
  lemma BinarySearchOutcome(m: MetadataMap, last: int, low: nat, high: int, offset: int, index: nat)
    requires Chained(m, last)
    requires low > high ==> index == Max(low - 1, 0)
    requires low <= high ==> index <= high
    requires index == Max(low - 1, 0) || (low <= index <= last && StartOf(m, index) <= offset)
    requires index < high ==>
               index + 1 <= last + 1 &&
               (StartOf(m, index) == offset || StartOf(m, index + 1) > offset)
    requires FallbackOnlyPastTarget(m, last, low, high, offset, index)
    ensures LargestWhenIncreasing(m, last, low, high, offset, index)
    ensures BinaryOutcome(m, last, low, high, offset, index)
  {
    if low <= high <= last + 1 && IncreasingOver(m, low, high) && StartOf(m, low) <= offset {
      forall j: nat | low <= j <= high
        ensures StartOf(m, j) <= offset <==> j <= index
      {
        BinarySearchFindsLargest(m, last, low, high, offset, index, j);
      }
      BinarySearchFindsLargest(m, last, low, high, offset, index, low);
    }
  }

  /**
   * With positive sizes, an answer of the locator — below `itemCount`, starting at or
   * before `offset`, and the last item, an exact hit, or followed by an item that starts
   * after `offset` — is the unique index below `itemCount` whose start is at or before
   * `offset` while the next one's is not: every measured j below `itemCount` starts at or
   * before `offset` exactly when j is at most the answer.
   */
  lemma NearestIsUnique(m: MetadataMap, last: int, itemCount: nat, offset: int, nearest: nat, j: nat)
    requires Chained(m, last) && PositiveSizes(m, last)
    requires nearest < itemCount && nearest <= last + 1 && StartOf(m, nearest) <= offset
    requires nearest == itemCount - 1 || StartOf(m, nearest) == offset ||
             (nearest + 1 <= last + 1 && StartOf(m, nearest + 1) > offset)
    requires j < itemCount && j <= last + 1
    ensures StartOf(m, j) <= offset <==> j <= nearest
  {
    if StartOf(m, nearest) == offset {
      ExactHitIsLargest(m, last, nearest, offset, j);
    } else if nearest == itemCount - 1 {
      StartMonotone(m, last, j, nearest);
    } else {
      LocatedIsLargest(m, last, nearest, offset, j);
    }
  }

  /** `nearest` is the unique index below `itemCount` whose start is at or before `offset`
      while the next one's is not: every measured j below `itemCount` starts at or before
      `offset` exactly when j is at most `nearest`. */
  ghost predicate UniqueNearest(m: MetadataMap, last: int, itemCount: nat, offset: int, nearest: nat)
  {
    Chained(m, last) && nearest < itemCount &&
    forall j: nat {:trigger StartOf(m, j)} :: j < itemCount && j <= last + 1 ==>
      (StartOf(m, j) <= offset <==> j <= nearest)
  }

  /** NearestIsUnique for every j at once. */
  lemma NearestIsUniqueAll(m: MetadataMap, last: int, itemCount: nat, offset: int, nearest: nat)
    requires Chained(m, last)
    requires nearest < itemCount && nearest <= last + 1 && StartOf(m, nearest) <= offset
    requires nearest == itemCount - 1 || StartOf(m, nearest) == offset ||
             (nearest + 1 <= last + 1 && StartOf(m, nearest + 1) > offset)
    ensures PositiveSizes(m, last) ==> UniqueNearest(m, last, itemCount, offset, nearest)
  {
    if PositiveSizes(m, last) {
      forall j: nat | j < itemCount && j <= last + 1
        ensures StartOf(m, j) <= offset <==> j <= nearest
      {
        NearestIsUnique(m, last, itemCount, offset, nearest, j);
      }
    }
  }

  /**
   * The exponential search started at `index` is about to probe `i`: `below` is the last
   * index known to start before `offset` (a probe, or `index` itself before any probe
   * moved on), it lies between the bracket's lower end i / 2 and `i`, and it is below
   * `itemCount` whenever `index` is.
   */
  ghost predicate Probing(m: MetadataMap, last: int, index: nat, itemCount: nat,
                          i: nat, below: nat, offset: int)
  {
    Chained(m, last) &&
    index <= i && below <= i && i / 2 <= below && below <= last + 1 &&
    StartOf(m, below) < offset &&
    (i > index ==> below <= last) &&
    (index < itemCount ==> below < itemCount)
  }

  /** Probing `i` keeps what is known; if `i` starts before `offset` the next probe is at
      i + interval and `i` becomes the last index known to start before `offset`. */
  lemma ProbeStep(itemSize: nat -> nat,
                  m0: MetadataMap, last0: int, log0: seq<nat>,
                  m1: MetadataMap, last1: int, log1: seq<nat>,
                  index: nat, itemCount: nat, i: nat, below: nat, interval: nat, offset: int)
    requires Probing(m0, last0, index, itemCount, i, below, offset)
    requires Forward(itemSize, m0, last0, log0, m1, last1, log1) && Chained(m1, last1)
    requires i <= last1 && i < itemCount && i + 1 == index + interval
    ensures Probing(m1, last1, index, itemCount, i, below, offset)
    ensures StartOf(m1, i) < offset ==> Probing(m1, last1, index, itemCount, i + interval, i, offset)
  {
    ForwardKeepsStart(itemSize, m0, last0, log0, m1, last1, log1, below);
  }

  /**
   * The exponential search started from (m0, last0, log0) at `index` is about to probe
   * `i`, one past `index` by interval - 1: the probes so far are a forward measurement
   * below `itemCount`, and when `index` was known to start before `offset` the probing
   * facts hold.
   */
  ghost predicate Exploring(itemSize: nat -> nat,
                            m0: MetadataMap, last0: int, log0: seq<nat>,
                            m: MetadataMap, last: int, log: seq<nat>,
                            index: nat, itemCount: nat, i: nat, interval: nat, below: nat,
                            offset: int, known: bool)
  {
    index <= i && i + 1 == index + interval &&
    Forward(itemSize, m0, last0, log0, m, last, log) && Chained(m, last) &&
    last <= Max(last0, itemCount - 1) &&
    (known ==> Probing(m, last, index, itemCount, i, below, offset))
  }

  /** Probing `i` below `itemCount` keeps the search exploring: with the same state when
      `i` starts at or after `offset` (the search stops there), and with the next probe at
      i + interval, the doubled interval and `i` as the last index known to start before
      `offset` when `i` starts before `offset`. */
  lemma ExploringProbe(itemSize: nat -> nat,
                       m0: MetadataMap, last0: int, log0: seq<nat>,
                       m1: MetadataMap, last1: int, log1: seq<nat>,
                       m2: MetadataMap, last2: int, log2: seq<nat>,
                       index: nat, itemCount: nat, i: nat, interval: nat, below: nat,
                       offset: int, known: bool, i': nat, interval': nat, below': nat)
    requires Exploring(itemSize, m0, last0, log0, m1, last1, log1, index, itemCount, i, interval, below, offset, known)
    requires i < itemCount
    requires Forward(itemSize, m1, last1, log1, m2, last2, log2) && Chained(m2, last2)
    requires last2 == Max(last1, i)
    requires StartOf(m2, i) < offset ==> i' == i + interval && interval' == interval * 2 && below' == i
    requires StartOf(m2, i) >= offset ==> i' == i && interval' == interval && below' == below
    ensures Exploring(itemSize, m0, last0, log0, m2, last2, log2, index, itemCount, i', interval', below', offset, known)
  {
    ForwardTrans(itemSize, m0, last0, log0, m1, last1, log1, m2, last2, log2);
    if known {
      ProbeStep(itemSize, m1, last1, log1, m2, last2, log2, index, itemCount, i, below, interval, offset);
    }
  }

  /**
   * After the exponential phase stopped at `i` (a probe at or after `offset`, or the end
   * of the list), the binary search over [i / 2, min(i, itemCount - 1)] completes a
   * forward measurement below `itemCount` and, when `index` was known to start before
   * `offset`, yields an index that starts at or before `offset`; when also
   * `index < itemCount` it is below `itemCount` and is the last item, starts exactly at
   * `offset`, or is followed by an item that starts after `offset`.
   */
  lemma ExponentialFinish(itemSize: nat -> nat,
                          m0: MetadataMap, last0: int, log0: seq<nat>,
                          m1: MetadataMap, last1: int, log1: seq<nat>,
                          m2: MetadataMap, last2: int, log2: seq<nat>,
                          index: nat, itemCount: nat, i: nat, interval: nat, below: nat,
                          offset: int, known: bool, nearest: nat)
    requires Exploring(itemSize, m0, last0, log0, m1, last1, log1, index, itemCount, i, interval, below, offset, known)
    requires i < itemCount ==> i <= last1 && StartOf(m1, i) >= offset
    requires Forward(itemSize, m1, last1, log1, m2, last2, log2) && Chained(m2, last2)
    requires last2 <= Max(last1, Min(i, itemCount - 1))
    requires BinaryOutcome(m2, last2, i / 2, Min(i, itemCount - 1), offset, nearest)
    ensures Forward(itemSize, m0, last0, log0, m2, last2, log2)
    ensures last2 <= Max(last0, itemCount - 1)
    ensures known ==> nearest <= last2 + 1 && StartOf(m2, nearest) <= offset
    ensures known && index < itemCount ==>
              nearest < itemCount && nearest <= last2 &&
              (nearest == itemCount - 1 || StartOf(m2, nearest) == offset ||
               StartOf(m2, nearest + 1) > offset)
  {
    ForwardTrans(itemSize, m0, last0, log0, m1, last1, log1, m2, last2, log2);
    if known {
      ForwardKeepsStart(itemSize, m1, last1, log1, m2, last2, log2, below);
      if i < itemCount {
        ForwardKeepsStart(itemSize, m1, last1, log1, m2, last2, log2, i);
      }
      if nearest <= below {
        StartMonotone(m2, last2, nearest, below);
      }
    }
  }

  /**
   * The stop-index loop started from (m0, last0, log0) and has extended the range from
   * `startIndex` to `stopIndex`: the range stays below `itemCount` when it starts there,
   * everything up to `stopIndex` is measured and nothing beyond it, `offset` is where
   * item `stopIndex` ends, and if the range grew, it is below `itemCount` and the item
   * before `stopIndex` ends before `maxOffset`.
   */
  ghost predicate Extending(itemSize: nat -> nat,
                            m0: MetadataMap, last0: int, log0: seq<nat>,
                            m: MetadataMap, last: int, log: seq<nat>,
                            itemCount: nat, startIndex: nat, stopIndex: nat, offset: int, maxOffset: int)
  {
    startIndex <= stopIndex && (startIndex < itemCount ==> stopIndex < itemCount) &&
    Forward(itemSize, m0, last0, log0, m, last, log) && Chained(m, last) &&
    last == Max(last0, stopIndex) &&
    offset == EndOf(m, stopIndex) &&
    (stopIndex > startIndex ==> EndOf(m, stopIndex - 1) < maxOffset && stopIndex < itemCount)
  }

  /** Measuring the item after `stopIndex`, while the range ends before `maxOffset` and
      is not at the last item, extends the range by that item. */
  lemma ExtendingStep(itemSize: nat -> nat,
                      m0: MetadataMap, last0: int, log0: seq<nat>,
                      m1: MetadataMap, last1: int, log1: seq<nat>,
                      m2: MetadataMap, last2: int, log2: seq<nat>,
                      itemCount: nat, startIndex: nat, stopIndex: nat, offset: int, maxOffset: int,
                      meta: ItemMetadata)
    requires Extending(itemSize, m0, last0, log0, m1, last1, log1, itemCount, startIndex, stopIndex, offset, maxOffset)
    requires stopIndex < itemCount - 1 && offset < maxOffset
    requires Forward(itemSize, m1, last1, log1, m2, last2, log2) && Chained(m2, last2)
    requires last2 == Max(last1, stopIndex + 1) && meta == m2[stopIndex + 1]
    ensures Extending(itemSize, m0, last0, log0, m2, last2, log2, itemCount, startIndex, stopIndex + 1,
                      offset + meta.size, maxOffset)
  {
    ForwardTrans(itemSize, m0, last0, log0, m1, last1, log1, m2, last2, log2);
    ForwardKeepsStart(itemSize, m1, last1, log1, m2, last2, log2, stopIndex + 1);
    assert m2[stopIndex + 1].offset == StartOf(m2, stopIndex + 1);
  }
}
