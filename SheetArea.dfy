/** Area accounting of the bottom-left-fill driver. When the bleed, the left
    and bottom margins, the working size and the job sides are non-negative,
    every inflated box the driver records is an integer rectangle inside the
    working area and no two of them overlap, so the unit cells they cover are
    distinct cells of the working area. Counting those cells shows that the
    reported unused area is then not negative. The working size is not an
    input: margins wider than the sheet make it negative. */
module SheetArea {
  import opened LayoutTypes
  import opened LayoutOptimizer

  /** The unit cells (i, j) covered by a box: [x, x + width) x [y, y + height). */
  ghost function Cells(b: Box): set<(int, int)>
  {
    set i, j | b.x <= i < b.x + b.width && b.y <= j < b.y + b.height :: (i, j)
  }

  ghost function RowCells(x: int, width: int, j: int): set<(int, int)>
  {
    set i | x <= i < x + width :: (i, j)
  }

  lemma {:induction false} RowCellsCount(x: int, width: nat, j: int)
    ensures |RowCells(x, width, j)| == width
  {
    if width == 0 {
      assert RowCells(x, width, j) == {};
    } else {
      assert RowCells(x, width, j) == RowCells(x, width - 1, j) + {(x + width - 1, j)};
      RowCellsCount(x, width - 1, j);
    }
  }

  /** A box of positive height is its box one row lower plus its top row. */
  lemma CellsTopRow(b: Box)
    requires b.height > 0
    ensures Cells(b) == Cells(b.(height := b.height - 1)) + RowCells(b.x, b.width, b.y + b.height - 1)
    ensures Cells(b.(height := b.height - 1)) * RowCells(b.x, b.width, b.y + b.height - 1) == {}
  {
    var lower := b.(height := b.height - 1);
    var top := RowCells(b.x, b.width, b.y + b.height - 1);
    forall c | c in Cells(b) ensures c in Cells(lower) + top {
      if c.1 < b.y + b.height - 1 {
        assert c in Cells(lower);
      } else {
        assert c in top;
      }
    }
  }

  /** A box with non-negative sides covers exactly width * height cells. */
  lemma {:induction false} CellsCount(b: Box)
    requires b.width >= 0 && b.height >= 0
    ensures |Cells(b)| == b.width * b.height
    decreases b.height
  {
    if b.height == 0 {
      assert Cells(b) == {};
    } else {
      var lower := b.(height := b.height - 1);
      CellsTopRow(b);
      CellsCount(lower);
      RowCellsCount(b.x, b.width, b.y + b.height - 1);
      MultiplyByPredecessor(b.width, b.height);
    }
  }

  lemma MultiplyByPredecessor(w: int, h: int)
    ensures w * (h - 1) + w == w * h
  {
  }

  /** Boxes that do not intersect share no cell. */
  lemma CellsDisjoint(a: Box, b: Box)
    requires !Intersects(a, b)
    ensures Cells(a) * Cells(b) == {}
  {
    if c :| c in Cells(a) && c in Cells(b) {
      assert Intersects(a, b);
    }
  }

  lemma CellsWithin(b: Box, region: Box)
    requires region.x <= b.x && b.x + b.width <= region.x + region.width
    requires region.y <= b.y && b.y + b.height <= region.y + region.height
    ensures Cells(b) <= Cells(region)
  {
  }

  ghost function AllCells(boxes: seq<Box>): set<(int, int)>
  {
    if boxes == [] then {}
    else AllCells(boxes[..|boxes| - 1]) + Cells(boxes[|boxes| - 1])
  }

  function AreaSum(boxes: seq<Box>): int
  {
    if boxes == [] then 0
    else AreaSum(boxes[..|boxes| - 1]) + boxes[|boxes| - 1].width * boxes[|boxes| - 1].height
  }

  /** Pairwise disjoint boxes cover as many cells as the sum of their areas. */
  lemma {:induction false} AllCellsCount(boxes: seq<Box>)
    requires forall k :: 0 <= k < |boxes| ==> boxes[k].width >= 0 && boxes[k].height >= 0
    requires PairwiseDisjoint(boxes)
    ensures |AllCells(boxes)| == AreaSum(boxes)
  {
    if boxes != [] {
      var n := |boxes| - 1;
      var prefix := boxes[..n];
      assert PairwiseDisjoint(prefix) by {
        forall i, j | 0 <= i < |prefix| && 0 <= j < |prefix| && i != j
          ensures !Intersects(prefix[i], prefix[j])
        {
          assert prefix[i] == boxes[i] && prefix[j] == boxes[j];
        }
      }
      AllCellsCount(prefix);
      CellsCount(boxes[n]);
      forall k | 0 <= k < |prefix| ensures !Intersects(prefix[k], boxes[n]) {
        assert prefix[k] == boxes[k];
      }
      AllCellsDisjointFrom(prefix, boxes[n]);
    }
  }

  lemma {:induction false} AllCellsDisjointFrom(boxes: seq<Box>, b: Box)
    requires forall k :: 0 <= k < |boxes| ==> !Intersects(boxes[k], b)
    ensures AllCells(boxes) * Cells(b) == {}
  {
    if boxes != [] {
      var n := |boxes| - 1;
      AllCellsDisjointFrom(boxes[..n], b);
      CellsDisjoint(boxes[n], b);
    }
  }

  lemma {:induction false} AllCellsWithin(boxes: seq<Box>, region: Box)
    requires forall k :: 0 <= k < |boxes| ==>
      && region.x <= boxes[k].x && boxes[k].x + boxes[k].width <= region.x + region.width
      && region.y <= boxes[k].y && boxes[k].y + boxes[k].height <= region.y + region.height
    ensures AllCells(boxes) <= Cells(region)
  {
    if boxes != [] {
      var n := |boxes| - 1;
      AllCellsWithin(boxes[..n], region);
      CellsWithin(boxes[n], region);
    }
  }

  lemma SubsetCount<T>(a: set<T>, b: set<T>)
    requires a <= b
    ensures |a| <= |b|
  {
    assert b == a + (b - a);
  }

  lemma ProductMonotone(a: int, b: int, c: int, d: int)
    requires 0 <= a <= c && 0 <= b <= d
    ensures a * b <= c * d
  {
    assert a * b <= c * b;
    assert c * b <= c * d;
  }

  /** The nominal footprints never take more room than their inflated boxes. */
  lemma {:induction false} UsedAreaAtMostInflated(placed: seq<PlacedItem>, bleed: int)
    requires bleed >= 0
    requires forall k :: 0 <= k < |placed| ==> placed[k].actualWidth >= 0 && placed[k].actualHeight >= 0
    ensures UsedArea(placed) <= AreaSum(InflateAll(placed, bleed))
  {
    if placed != [] {
      var n := |placed| - 1;
      var p := placed[n];
      UsedAreaAtMostInflated(placed[..n], bleed);
      InflateAllAppend(placed[..n], p, bleed);
      assert placed[..n] + [p] == placed;
      var boxes := InflateAll(placed, bleed);
      assert boxes[..n] == InflateAll(placed[..n], bleed);
      assert boxes[n] == Inflate(p, bleed);
      ProductMonotone(p.actualWidth, p.actualHeight, p.actualWidth + bleed * 2, p.actualHeight + bleed * 2);
    }
  }

  /** The unused area the driver reports is never negative: with
      non-negative bleed, left and bottom margins, working size and item
      sides, the nominal areas of the placements add up to at most the
      working area. */
  lemma UnusedAreaNonNegative(items: seq<LayoutItem>, workingWidth: int, workingHeight: int,
                              bleed: int, margins: Margins)
    requires bleed >= 0 && margins.left >= 0 && margins.bottom >= 0
    requires workingWidth >= 0 && workingHeight >= 0
    requires forall k :: 0 <= k < |items| ==> items[k].width >= 0 && items[k].height >= 0
    ensures var placed := BottomLeftFill(items, workingWidth, workingHeight, bleed, margins);
      0 <= UsedArea(placed) <= workingWidth * workingHeight
  {
    var placed := BottomLeftFill(items, workingWidth, workingHeight, bleed, margins);
    BottomLeftFillPlacements(items, workingWidth, workingHeight, bleed, margins);
    BottomLeftFillDisjoint(items, workingWidth, workingHeight, bleed, margins);
    var boxes := InflateAll(placed, bleed);
    var region := Box(0, 0, workingWidth, workingHeight);
    forall k | 0 <= k < |placed|
      ensures placed[k].actualWidth >= 0 && placed[k].actualHeight >= 0
      ensures WithinScan(placed[k], workingWidth, workingHeight, bleed, margins)
    {
      assert ValidPlacement(placed[k], items, workingWidth, workingHeight, bleed, margins);
      var i :| 0 <= i < |items| && items[i] == placed[k].item;
    }
    UsedAreaNonNegativeTerms(placed);
    UsedAreaAtMostInflated(placed, bleed);
    AllCellsCount(boxes);
    AllCellsWithin(boxes, region);
    SubsetCount(AllCells(boxes), Cells(region));
    CellsCount(region);
  }

  lemma {:induction false} UsedAreaNonNegativeTerms(placed: seq<PlacedItem>)
    requires forall k :: 0 <= k < |placed| ==> placed[k].actualWidth >= 0 && placed[k].actualHeight >= 0
    ensures UsedArea(placed) >= 0
  {
    if placed != [] {
      var n := |placed| - 1;
      UsedAreaNonNegativeTerms(placed[..n]);
      ProductMonotone(0, 0, placed[n].actualWidth, placed[n].actualHeight);
    }
  }
}
