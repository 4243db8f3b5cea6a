/** Item metadata, the prefix-sum chain the measurement cache keeps, and the
    relation between a cache and the cache it becomes by measuring forward. */
module Metadata {

  function Max(a: int, b: int): (r: int) { if a >= b then a else b }

  function Min(a: int, b: int): (r: int) { if a <= b then a else b }

  /** Position of one item along the scroll axis: where it starts and how long it is. */
  datatype ItemMetadata = ItemMetadata(offset: nat, size: nat)

  /** The cache, keyed by item index. Entries above the high-water mark may be stale. */
  type MetadataMap = map<nat, ItemMetadata>

  /** Every index in [0, last] has an entry. */
  ghost predicate MeasuredUpTo(m: MetadataMap, last: int)
  {
    forall i: nat :: i <= last ==> i in m
  }

  /** Where item j ends (offset + size); the sentinel j == -1 ends at 0. */
  function EndOf(m: MetadataMap, j: int): (end: nat)
    requires -1 <= j
    requires j >= 0 ==> j in m
  {
    if j < 0 then 0 else m[j].offset + m[j].size
  }

  /** Where item i starts according to the entry before it: the first item starts at 0. */
  function StartOf(m: MetadataMap, i: nat): (start: nat)
    requires i > 0 ==> i - 1 in m
  {
    EndOf(m, i - 1)
  }

  /** The cache invariant: entries 0..last exist and each one begins where its predecessor ends. */
  ghost predicate Chained(m: MetadataMap, last: int)
  {
    -1 <= last &&
    MeasuredUpTo(m, last) &&
    forall i: nat {:trigger StartOf(m, i)} :: i <= last ==> m[i].offset == StartOf(m, i)
  }

  /** Appending an entry that starts where the last one ends keeps the chain. */
  lemma ChainedExtend(m: MetadataMap, last: int, meta: ItemMetadata)
    requires Chained(m, last) && meta.offset == EndOf(m, last)
    ensures Chained(m[last + 1 := meta], last + 1)
  {
    var m' := m[last + 1 := meta];
    forall i: nat | i <= last + 1
      ensures i in m' && m'[i].offset == StartOf(m', i)
    {
      if i <= last {
        assert m[i].offset == StartOf(m, i);
      }
    }
  }

  /** Every entry in [0, last] has a positive size. */
  ghost predicate PositiveSizes(m: MetadataMap, last: int)
  {
    forall i: nat :: i <= last && i in m ==> m[i].size > 0
  }

  /** The total size of items 0..n-1 as recorded in the cache. */
  function SumSizes(m: MetadataMap, n: nat): (total: nat)
    requires MeasuredUpTo(m, n - 1)
  {
    if n == 0 then 0 else SumSizes(m, n - 1) + m[n - 1].size
  }

  /** The indices lo, lo+1, ..., hi-1 in ascending order. */
  function Range(lo: nat, hi: int): (r: seq<nat>)
    ensures |r| == if lo <= hi then hi - lo else 0
    decreases hi - lo
  {
    if hi <= lo then [] else [lo] + Range(lo + 1, hi)
  }

  /** Position k of Range(lo, hi) holds lo + k: each index once, in ascending order. */
  lemma {:induction false} RangeElements(lo: nat, hi: int, k: nat)
    requires k < |Range(lo, hi)|
    ensures Range(lo, hi)[k] == lo + k
    decreases hi - lo
  {
    if k > 0 {
      RangeElements(lo + 1, hi, k - 1);
    }
  }

  lemma {:induction false} RangeAppend(a: nat, b: nat, c: nat)
    requires a <= b <= c
    ensures Range(a, b) + Range(b, c) == Range(a, c)
    decreases b - a
  {
    if a < b {
      RangeAppend(a + 1, b, c);
      assert Range(a, b) + Range(b, c) == [a] + (Range(a + 1, b) + Range(b, c));
    }
  }

  lemma RangeSnoc(a: nat, b: nat)
    requires a <= b
    ensures Range(a, b + 1) == Range(a, b) + [b]
  {
    RangeAppend(a, b, b + 1);
  }

  /**
   * The cache after measuring items last0+1..last1 with `itemSize`, in ascending order:
   * each new entry gets the size `itemSize` gives and starts where the entry before it
   * ends; every other entry is left as it was.
   */
  function Fill(itemSize: nat -> nat, m0: MetadataMap, last0: int, last1: int): (m: MetadataMap)
    requires -1 <= last0 && (last0 >= 0 ==> last0 in m0)
    ensures last0 >= 0 ==> last0 in m
    ensures last1 > last0 ==> last1 in m
    decreases last1 - last0
  {
    if last1 <= last0 then m0
    else
      var m := Fill(itemSize, m0, last0, last1 - 1);
      m[last1 := ItemMetadata(EndOf(m, last1 - 1), itemSize(last1))]
  }

  /** While filling forward from (m0, last0, log0): the cache is the fill up to j, `offset`
      is where item j ends, and the log holds last0+1..j. */
  ghost predicate Filled(itemSize: nat -> nat, m0: MetadataMap, last0: int, log0: seq<nat>,
                         m: MetadataMap, j: int, log: seq<nat>, offset: nat)
  {
    -1 <= last0 <= j && (last0 >= 0 ==> last0 in m0) &&
    m == Fill(itemSize, m0, last0, j) && offset == EndOf(m, j) &&
    log == log0 + Range(last0 + 1, j + 1)
  }

  /** Measuring item j + 1 at `offset` and logging it continues the fill. */
  lemma FilledStep(itemSize: nat -> nat, m0: MetadataMap, last0: int, log0: seq<nat>,
                   m: MetadataMap, j: int, log: seq<nat>, offset: nat)
    requires Filled(itemSize, m0, last0, log0, m, j, log, offset)
    ensures Filled(itemSize, m0, last0, log0, m[j + 1 := ItemMetadata(offset, itemSize(j + 1))], j + 1,
                   log + [j + 1], offset + itemSize(j + 1))
  {
    LogSnoc(log0, log, last0 + 1, j + 1);
  }

  /** What filling does to one key: it adds exactly the keys last0+1..last1, gives them the
      sizes `itemSize` gives, and keeps every entry outside that range. */
  lemma {:induction false} FillEntry(itemSize: nat -> nat, m0: MetadataMap, last0: int, last1: int, k: nat)
    requires -1 <= last0 && (last0 >= 0 ==> last0 in m0)
    ensures k in Fill(itemSize, m0, last0, last1) <==> k in m0 || last0 < k <= last1
    ensures last0 < k <= last1 ==> Fill(itemSize, m0, last0, last1)[k].size == itemSize(k)
    ensures k in m0 && !(last0 < k <= last1) ==> Fill(itemSize, m0, last0, last1)[k] == m0[k]
    decreases last1 - last0
  {
    if last1 > last0 {
      FillEntry(itemSize, m0, last0, last1 - 1, k);
    }
  }

  /** Filling from a chained cache yields a chained cache. */
  lemma {:induction false} FillChained(itemSize: nat -> nat, m0: MetadataMap, last0: int, last1: int)
    requires Chained(m0, last0) && last0 <= last1
    ensures Chained(Fill(itemSize, m0, last0, last1), last1)
    decreases last1 - last0
  {
    if last1 > last0 {
      FillChained(itemSize, m0, last0, last1 - 1);
      var m := Fill(itemSize, m0, last0, last1 - 1);
      ChainedExtend(m, last1 - 1, ItemMetadata(EndOf(m, last1 - 1), itemSize(last1)));
    }
  }

  /** Filling in two steps is filling in one. */
  lemma {:induction false} FillTrans(itemSize: nat -> nat, m0: MetadataMap, last0: int, last1: int, last2: int)
    requires -1 <= last0 <= last1 <= last2 && (last0 >= 0 ==> last0 in m0)
    ensures Fill(itemSize, Fill(itemSize, m0, last0, last1), last1, last2) == Fill(itemSize, m0, last0, last2)
    decreases last2 - last1
  {
    if last2 > last1 {
      FillTrans(itemSize, m0, last0, last1, last2 - 1);
    }
  }

  /** Filling keeps the start of every item up to one past the old mark. */
  lemma FillKeepsStart(itemSize: nat -> nat, m0: MetadataMap, last0: int, last1: int, i: nat)
    requires -1 <= last0 && MeasuredUpTo(m0, last0) && i <= last0 + 1
    ensures i > 0 ==> i - 1 in Fill(itemSize, m0, last0, last1)
    ensures StartOf(Fill(itemSize, m0, last0, last1), i) == StartOf(m0, i)
  {
    if i > 0 {
      FillEntry(itemSize, m0, last0, last1, i - 1);
    }
  }

  /** The total of `itemSize` over the indices 0..n-1. */
  function SizeSum(itemSize: nat -> nat, n: nat): (total: nat)
  {
    if n == 0 then 0 else SizeSum(itemSize, n - 1) + itemSize(n - 1)
  }

  /** Measured from an empty cache, item j ends at the sum of the sizes of items 0..j. */
  lemma {:induction false} FillFromEmpty(itemSize: nat -> nat, last: int, j: nat)
    requires -1 <= last && j <= last
    ensures j in Fill(itemSize, map[], -1, last)
    ensures EndOf(Fill(itemSize, map[], -1, last), j) == SizeSum(itemSize, j + 1)
    decreases last
  {
    if j < last {
      FillFromEmpty(itemSize, last - 1, j);
    } else if j > 0 {
      FillFromEmpty(itemSize, last - 1, j - 1);
    }
  }

  /**
   * State (m1, last1, log1) is what measuring forward from (m0, last0, log0) with
   * `itemSize` yields: the mark only grows, the cache is the fill of last0+1..last1, and
   * the size callback was invoked exactly on last0+1..last1, once each, in ascending order.
   */
  ghost predicate Forward(itemSize: nat -> nat,
                          m0: MetadataMap, last0: int, log0: seq<nat>,
                          m1: MetadataMap, last1: int, log1: seq<nat>)
  {
    -1 <= last0 <= last1 && (last0 >= 0 ==> last0 in m0) &&
    m1 == Fill(itemSize, m0, last0, last1) &&
    log1 == log0 + Range(last0 + 1, last1 + 1)
  }

  /** Logging one more index continues a logged range. */
  lemma LogSnoc(log0: seq<nat>, log: seq<nat>, a: nat, i: nat)
    requires a <= i && log == log0 + Range(a, i)
    ensures log + [i] == log0 + Range(a, i + 1)
  {
    RangeSnoc(a, i);
    assert log + [i] == log0 + (Range(a, i) + [i]);
  }

  /** Logging two consecutive ranges logs their union. */
  lemma LogTrans(log0: seq<nat>, log1: seq<nat>, log2: seq<nat>, a: nat, b: nat, c: nat)
    requires a <= b <= c
    requires log1 == log0 + Range(a, b) && log2 == log1 + Range(b, c)
    ensures log2 == log0 + Range(a, c)
  {
    RangeAppend(a, b, c);
    assert log2 == log0 + (Range(a, b) + Range(b, c));
  }

  /** Resolving an index at or below the mark is a forward measurement that measures nothing. */
  lemma ForwardNone(itemSize: nat -> nat, m: MetadataMap, last: int, log: seq<nat>)
    requires -1 <= last && (last >= 0 ==> last in m)
    ensures Forward(itemSize, m, last, log, m, last, log)
  {
    assert log + Range(last + 1, last + 1) == log;
  }

  /** A finished measuring loop is a forward measurement up to the index it reached. */
  lemma FilledForward(itemSize: nat -> nat, m0: MetadataMap, last0: int, log0: seq<nat>,
                      m: MetadataMap, j: int, log: seq<nat>, offset: nat)
    requires Filled(itemSize, m0, last0, log0, m, j, log, offset)
    ensures Forward(itemSize, m0, last0, log0, m, j, log)
  {
  }

  /** Measuring forward twice is measuring forward once. */
  lemma ForwardTrans(itemSize: nat -> nat,
                     m0: MetadataMap, last0: int, log0: seq<nat>,
                     m1: MetadataMap, last1: int, log1: seq<nat>,
                     m2: MetadataMap, last2: int, log2: seq<nat>)
    requires Forward(itemSize, m0, last0, log0, m1, last1, log1)
    requires Forward(itemSize, m1, last1, log1, m2, last2, log2)
    ensures Forward(itemSize, m0, last0, log0, m2, last2, log2)
  {
    FillTrans(itemSize, m0, last0, last1, last2);
    LogTrans(log0, log1, log2, last0 + 1, last1 + 1, last2 + 1);
  }

  /** Measuring forward without moving the mark changes nothing. */
  lemma ForwardStill(itemSize: nat -> nat,
                     m0: MetadataMap, last0: int, log0: seq<nat>,
                     m1: MetadataMap, last1: int, log1: seq<nat>)
    requires Forward(itemSize, m0, last0, log0, m1, last1, log1)
    requires last1 == last0
    ensures m1 == m0 && log1 == log0
  {
    assert Range(last0 + 1, last1 + 1) == [];
  }

  /** Measuring forward keeps the start of every item up to one past the old mark. */
  lemma ForwardKeepsStart(itemSize: nat -> nat,
                          m0: MetadataMap, last0: int, log0: seq<nat>,
                          m1: MetadataMap, last1: int, log1: seq<nat>, i: nat)
    requires Forward(itemSize, m0, last0, log0, m1, last1, log1)
    requires MeasuredUpTo(m0, last0) && i <= last0 + 1
    ensures i > 0 ==> i - 1 in m1
    ensures StartOf(m1, i) == StartOf(m0, i)
  {
    FillKeepsStart(itemSize, m0, last0, last1, i);
  }

  /** The start of item i is the sum of the sizes before it. */
  lemma {:induction false} StartIsSumOfSizes(m: MetadataMap, last: int, i: nat)
    requires Chained(m, last) && i <= last + 1
    ensures StartOf(m, i) == SumSizes(m, i)
  {
    if i > 0 {
      StartIsSumOfSizes(m, last, i - 1);
    }
  }

  /** Starts never decrease along the measured range. */
  lemma {:induction false} StartMonotone(m: MetadataMap, last: int, i: nat, k: nat)
    requires Chained(m, last) && i <= k <= last + 1
    ensures StartOf(m, i) <= StartOf(m, k)
  {
    if i < k {
      StartMonotone(m, last, i, k - 1);
      assert m[k - 1].offset == StartOf(m, k - 1);
    }
  }

  /** With positive sizes, starts strictly increase along the measured range. */
  lemma StartStrictlyMonotone(m: MetadataMap, last: int, i: nat, k: nat)
    requires Chained(m, last) && PositiveSizes(m, last) && i < k <= last + 1
    ensures StartOf(m, i) < StartOf(m, k)
  {
    assert m[i].offset == StartOf(m, i) && m[i].size > 0;
    StartMonotone(m, last, i + 1, k);
  }

  /** An index that starts at or before `target` and whose successor starts after it is
      exactly the largest index that starts at or before `target`. */
  lemma LocatedIsLargest(m: MetadataMap, last: int, r: nat, target: int, j: nat)
    requires Chained(m, last) && r <= last
    requires StartOf(m, r) <= target < StartOf(m, r + 1)
    requires j <= last + 1
    ensures StartOf(m, j) <= target <==> j <= r
  {
    if j <= r {
      StartMonotone(m, last, j, r);
    } else {
      StartMonotone(m, last, r + 1, j);
    }
  }

  /** With positive sizes, an index that starts exactly at `target` is the largest index
      that starts at or before `target`. */
  lemma ExactHitIsLargest(m: MetadataMap, last: int, r: nat, target: int, j: nat)
    requires Chained(m, last) && PositiveSizes(m, last) && r <= last + 1
    requires StartOf(m, r) == target
    requires j <= last + 1
    ensures StartOf(m, j) <= target <==> j <= r
  {
    if j <= r {
      StartMonotone(m, last, j, r);
    } else {
      StartStrictlyMonotone(m, last, r, j);
    }
  }
}
