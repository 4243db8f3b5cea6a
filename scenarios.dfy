/** Concrete runs of the cache on small lists, each proved from the contracts of the
    operations it calls: constant 50px items, a repeating size pattern, a shrunk item
    count, a reset followed by lookups, and a 'smart' alignment. */
module Scenarios {
  import opened Metadata
  import opened Alignment
  import opened VariableSizeList

  /** When every item has size c, the first n items total c * n. */
  lemma {:induction false} ConstantSizeSum(itemSize: nat -> nat, c: nat, n: nat)
    requires forall i: nat :: itemSize(i) == c
    ensures SizeSum(itemSize, n) == c * n
  {
    if n > 0 {
      ConstantSizeSum(itemSize, c, n - 1);
      assert c * n == c * (n - 1) + c;
    }
  }

  /** When every item has size c, item k measured from an empty cache starts at c * k. */
  lemma ConstantStart(itemSize: nat -> nat, c: nat, last: int, k: nat)
    requires forall i: nat :: itemSize(i) == c
    requires -1 <= last && k <= last + 1
    ensures k > 0 ==> k - 1 in Fill(itemSize, map[], -1, last)
    ensures StartOf(Fill(itemSize, map[], -1, last), k) == c * k
  {
    if k > 0 {
      FillFromEmpty(itemSize, last, k - 1);
    }
    ConstantSizeSum(itemSize, c, k);
  }

  /**
   * 1000 items of 50px, a 300px viewport at offset 0: the locator answers item 0 without
   * measuring anything, and the stop index is 5, because items 0..5 end exactly at 300.
   */
  method ScenarioConstantSizes() returns (startIndex: nat, stopIndex: nat)
    ensures startIndex == 0 && stopIndex == 5
  {
    var itemSize: nat -> nat := (i: nat) => 50;
    var props := new InstanceProps(Some(50));
    startIndex := props.FindNearestItem(itemSize, 1000, 0);
    ghost var m1, last1, log1 := props.itemMetadataMap, props.lastMeasuredIndex, props.measureLog;
    ConstantStart(itemSize, 50, last1, startIndex);
    stopIndex := props.GetStopIndexForStartIndex(itemSize, 1000, startIndex, 0, 300);
    ForwardTrans(itemSize, map[], -1, [], m1, last1, log1,
                 props.itemMetadataMap, props.lastMeasuredIndex, props.measureLog);
    ConstantStart(itemSize, 50, props.lastMeasuredIndex, stopIndex + 1);
    ConstantStart(itemSize, 50, props.lastMeasuredIndex, stopIndex);
  }

  /**
   * 10 items with a stale start index 20 (a locator answer from before the item count
   * shrank): the loop guard fails at once and the stop index is the start index.
   */
  method ScenarioStaleStart() returns (stopIndex: nat)
    ensures stopIndex == 20
  {
    var itemSize: nat -> nat := (i: nat) => 50;
    var props := new InstanceProps(Some(50));
    stopIndex := props.GetStopIndexForStartIndex(itemSize, 10, 20, 0, 300);
  }

  /** Sizes 20, 30, 40, 50, 60 repeating. */
  function Pattern(i: nat): (size: nat)
  {
    20 + (i % 5) * 10
  }

  /** The first five pattern sizes total 200 and the first four total 140. */
  lemma PatternSums()
    ensures SizeSum(Pattern, 4) == 140 && SizeSum(Pattern, 5) == 200
  {
    assert SizeSum(Pattern, 1) == 20;
    assert SizeSum(Pattern, 2) == 50;
    assert SizeSum(Pattern, 3) == 90;
  }

  /**
   * Measuring items 0..4 of the pattern with the default estimate: item 4 starts at 140
   * and the estimated total size of 1000 items is the measured 200 plus 995 estimates
   * of 50, i.e. 49950.
   */
  method ScenarioEstimate() returns (offset4: nat, estimate: int)
    ensures offset4 == 140 && estimate == 49950
  {
    var props := new InstanceProps(None);
    var meta := props.GetItemMetadata(Pattern, 4);
    offset4 := meta.offset;
    estimate := EstimatedTotalSize(1000, props.itemMetadataMap, props.estimatedItemSize,
                                   props.lastMeasuredIndex);
    FillFromEmpty(Pattern, 4, 3);
    FillFromEmpty(Pattern, 4, 4);
    StartIsSumOfSizes(props.itemMetadataMap, 4, 5);
    PatternSums();
  }

  /**
   * 51 items of 50px measured, then the item count shrinks to 30: the estimate is the
   * exact extent 1500 of the 30 remaining items, and the mark is still 50.
   */
  method ScenarioShrunkCount() returns (estimate: int, mark: int)
    ensures estimate == 1500 && mark == 50
  {
    var itemSize: nat -> nat := (i: nat) => 50;
    var props := new InstanceProps(Some(50));
    var meta := props.GetItemMetadata(itemSize, 50);
    estimate := EstimatedTotalSize(30, props.itemMetadataMap, props.estimatedItemSize,
                                   props.lastMeasuredIndex);
    mark := props.lastMeasuredIndex;
    StartIsSumOfSizes(props.itemMetadataMap, 50, 30);
    ConstantStart(itemSize, 50, 50, 30);
  }

  /**
   * Measure up to item 40, reset after index 10: the mark drops to 9, resolving item 9
   * calls the size callback on nothing, and resolving item 10 calls it on exactly 10 and
   * stores the size it returns.
   */
  method ScenarioResetThenResolve() returns (markAfterReset: int, size10: nat,
                                             ghost callsFor9: seq<nat>, ghost callsFor10: seq<nat>)
    ensures markAfterReset == 9 && size10 == 20
    ensures callsFor9 == [] && callsFor10 == [10]
  {
    var props := new InstanceProps(None);
    var meta40 := props.GetItemMetadata(Pattern, 40);
    props.ResetAfterIndex(10);
    markAfterReset := props.lastMeasuredIndex;
    ghost var log0 := props.measureLog;
    var meta9 := props.GetItemMetadata(Pattern, 9);
    ghost var m1, log1 := props.itemMetadataMap, props.measureLog;
    var meta10 := props.GetItemMetadata(Pattern, 10);
    size10 := meta10.size;
    FillEntry(Pattern, m1, 9, 10, 10);
    callsFor9 := log1[|log0|..];
    callsFor10 := props.measureLog[|log1|..];
    assert log1 == log0 + Range(10, 10);
    assert props.measureLog == log1 + Range(10, 11);
  }

  /**
   * An item at [1000, 1050], a 300px viewport scrolled to 900: 'smart' is within one
   * viewport of the band [750, 1000], so it acts as 'auto', and 900 is inside the band,
   * so the scroll offset stays at 900.
   */
  lemma ScenarioSmartKeepsVisibleItem()
    ensures MinOffset(300, ItemMetadata(1000, 50)) == 750
    ensures MaxOffset(50000, 300, ItemMetadata(1000, 50)) == 1000
    ensures OffsetForAlignment("smart", 900, 300, ItemMetadata(1000, 50), 50000) == 900
  {
  }
}
