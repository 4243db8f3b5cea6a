/** The scroll-to-item arithmetic: given an item's metadata, the estimated total size,
    the viewport size and the current scroll offset, the offset an alignment asks for. */
module Alignment {
  import opened Metadata

  /** The offset that puts the item at the viewport's start, clamped into [0, total - size]. */
  function MaxOffset(estimatedTotalSize: int, size: int, item: ItemMetadata): (maxOffset: int)
  {
    Max(0, Min(estimatedTotalSize - size, item.offset))
  }

  /** The offset that puts the item at the viewport's end, floored at 0. */
  function MinOffset(size: int, item: ItemMetadata): (minOffset: int)
  {
    Max(0, item.offset - size + item.size)
  }

  /** 'smart' acts as 'auto' while the scroll offset is within one viewport of the band
      [minOffset, maxOffset], and as 'center' further away; other values are kept. */
  function ResolvedAlign(align: string, scrollOffset: int, size: int, minOffset: int, maxOffset: int): (mode: string)
    ensures align != "smart" ==> mode == align
    ensures align == "smart" ==> mode == "auto" || mode == "center"
    ensures align == "smart" ==>
              (mode == "auto" <==> minOffset - size <= scrollOffset <= maxOffset + size)
  {
    if align == "smart" then
      if scrollOffset >= minOffset - size && scrollOffset <= maxOffset + size then "auto" else "center"
    else
      align
  }

  /** Plain distance between two offsets. */
  function Dist(a: int, b: int): (d: nat)
  {
    if a <= b then b - a else a - b
  }

  /**
   * The scroll offset that brings `item` into view as `align` asks. Every result is
   * non-negative. 'start' puts the item's leading edge at the viewport's start unless
   * that would scroll past the end, where it stops at the last scrollable offset; 'end'
   * puts its trailing edge at the viewport's end unless that would need a negative
   * offset, where it gives 0; 'center' is the midpoint of the band, rounded half up as
   * Math.round does; 'auto' (and any unrecognised value) keeps a scroll offset that is
   * already in the band, and otherwise moves to minOffset from below and to maxOffset
   * from above, also when the band is empty because the item is taller than the viewport.
   */
  function OffsetForAlignment(align: string, scrollOffset: int, size: int, item: ItemMetadata,
                              estimatedTotalSize: int): (r: int)
    ensures r >= 0
    ensures var lo, hi := MinOffset(size, item), MaxOffset(estimatedTotalSize, size, item);
            var mode := ResolvedAlign(align, scrollOffset, size, lo, hi);
            (mode == "start" ==>
               r <= item.offset && (r == 0 || r <= estimatedTotalSize - size) &&
               (item.offset <= estimatedTotalSize - size ==> r == item.offset) &&
               (item.offset > estimatedTotalSize - size ==> r == Max(0, estimatedTotalSize - size))) &&
            (mode == "end" ==>
               item.offset + item.size <= r + size &&
               (size <= item.offset + item.size ==> r + size == item.offset + item.size) &&
               (item.offset + item.size < size ==> r == 0)) &&
            (mode == "center" ==>
               0 <= 2 * r - (lo + hi) <= 1 && (lo <= hi ==> lo <= r <= hi)) &&
            (mode != "start" && mode != "end" && mode != "center" ==>
               (lo <= scrollOffset <= hi ==> r == scrollOffset) &&
               (scrollOffset < lo ==> r == lo) &&
               (lo <= scrollOffset && hi < scrollOffset ==> r == hi) &&
               (lo <= hi ==> lo <= r <= hi))
  {
    var maxOffset := MaxOffset(estimatedTotalSize, size, item);
    var minOffset := MinOffset(size, item);
    var mode := ResolvedAlign(align, scrollOffset, size, minOffset, maxOffset);
    if mode == "start" then
      maxOffset
    else if mode == "end" then
      minOffset
    else if mode == "center" then
      // Math.round(min + (max - min) / 2) == floor((min + max + 1) / 2)
      (minOffset + maxOffset + 1) / 2
    else if scrollOffset >= minOffset && scrollOffset <= maxOffset then
      scrollOffset
    else if scrollOffset < minOffset then
      minOffset
    else
      maxOffset
  }

  /** Within the scrollable range, the band [minOffset, maxOffset] is exactly the set of
      scroll offsets at which the whole item lies inside the viewport. */
  lemma BandIsFullyVisible(estimatedTotalSize: int, size: int, item: ItemMetadata, x: int)
    requires 0 <= x <= estimatedTotalSize - size
    ensures MinOffset(size, item) <= x <= MaxOffset(estimatedTotalSize, size, item)
            <==> x <= item.offset && item.offset + item.size <= x + size
  {
  }

  /** The band is not empty when the item fits in the viewport and inside the total size. */
  lemma BandNonEmpty(estimatedTotalSize: int, size: int, item: ItemMetadata)
    requires item.size <= size
    requires item.offset + item.size <= estimatedTotalSize
    ensures MinOffset(size, item) <= MaxOffset(estimatedTotalSize, size, item)
  {
  }

  /** 'auto' scrolls as little as possible: no offset in a non-empty band is closer to
      the current scroll offset than the one it returns. */
  lemma AutoMovesLeast(align: string, scrollOffset: int, size: int, item: ItemMetadata,
                       estimatedTotalSize: int, x: int)
    requires var lo, hi := MinOffset(size, item), MaxOffset(estimatedTotalSize, size, item);
             var mode := ResolvedAlign(align, scrollOffset, size, lo, hi);
             mode != "start" && mode != "end" && mode != "center" && lo <= x <= hi
    ensures Dist(OffsetForAlignment(align, scrollOffset, size, item, estimatedTotalSize), scrollOffset)
            <= Dist(x, scrollOffset)
  {
  }
}
