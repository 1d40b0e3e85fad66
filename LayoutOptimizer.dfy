/** The single-sheet bottom-left-fill packer of the `LayoutOptimizer` class:
    quantity expansion, the overlap test, the first-fit anchor search and
    the driver that places the units one by one. The class holds no state
    of its own, so its operations are module-level members here. */
module LayoutOptimizer {
  import opened LayoutTypes
  import opened AreaSort

  // ---------------------------------------------------------------------
  // Item expansion
  // ---------------------------------------------------------------------

  /** The number of copies the expansion loop makes of one demand line. */
  function CopyCount(item: LayoutItem): nat
  {
    if item.quantity > 0 then item.quantity else 0
  }

  /** The unit copies of one demand line, in the order they are pushed. */
  function Copies(item: LayoutItem): seq<LayoutItem>
  {
    seq(CopyCount(item), _ => UnitCopy(item))
  }

  /** Expansion of a whole demand list: the copies of each line, line after line. */
  function Expand(items: seq<LayoutItem>): seq<LayoutItem>
  {
    if items == [] then []
    else Expand(items[..|items| - 1]) + Copies(items[|items| - 1])
  }

  /** The sum of the non-negative quantities. */
  function TotalQuantity(items: seq<LayoutItem>): nat
  {
    if items == [] then 0
    else TotalQuantity(items[..|items| - 1]) + CopyCount(items[|items| - 1])
  }

  /** `expandItemsByQuantity`: push `quantity` unit copies of every line. */
  method ExpandItemsByQuantity(items: seq<LayoutItem>) returns (expanded: seq<LayoutItem>)
    ensures expanded == Expand(items)
    ensures |expanded| == TotalQuantity(items)
    ensures forall i :: 0 <= i < |expanded| ==> expanded[i].quantity == 1
  {
    expanded := [];
    for k := 0 to |items|
      invariant expanded == Expand(items[..k])
    {
      var item := items[k];
      var i := 0;
      while i < item.quantity
        invariant 0 <= i <= CopyCount(item)
        invariant expanded == Expand(items[..k]) + seq(i, _ => UnitCopy(item))
      {
        expanded := expanded + [UnitCopy(item)];
        i := i + 1;
      }
      assert items[..k + 1][..k] == items[..k];
    }
    assert items[..|items|] == items;
    ExpandLength(items);
    ExpandUnits(items);
    forall i | 0 <= i < |expanded| ensures expanded[i].quantity == 1 {
      assert expanded[i] in Expand(items);
    }
  }

  lemma {:induction false} ExpandLength(items: seq<LayoutItem>)
    ensures |Expand(items)| == TotalQuantity(items)
  {
    if items != [] {
      ExpandLength(items[..|items| - 1]);
    }
  }

  /** Every expanded unit is the quantity-1 copy of a line with positive
      quantity, and every such copy occurs. */
  lemma {:induction false} ExpandUnits(items: seq<LayoutItem>)
    ensures forall u :: u in Expand(items) <==>
      exists k :: 0 <= k < |items| && items[k].quantity > 0 && u == UnitCopy(items[k])
  {
    if items != [] {
      var n := |items| - 1;
      ExpandUnits(items[..n]);
      forall u
        ensures u in Expand(items) <==>
          exists k :: 0 <= k < |items| && items[k].quantity > 0 && u == UnitCopy(items[k])
      {
        if u in Expand(items) {
          if u in Copies(items[n]) {
            assert items[n].quantity > 0 && u == UnitCopy(items[n]);
          } else {
            var k :| 0 <= k < n && items[..n][k].quantity > 0 && u == UnitCopy(items[..n][k]);
            assert items[k] == items[..n][k];
          }
        }
        if exists k :: 0 <= k < |items| && items[k].quantity > 0 && u == UnitCopy(items[k]) {
          var k :| 0 <= k < |items| && items[k].quantity > 0 && u == UnitCopy(items[k]);
          if k == n {
            assert Copies(items[n])[0] == u;
          } else {
            assert items[..n][k] == items[k];
            assert u in Expand(items[..n]);
          }
        }
      }
    }
  }

  /** Expansion respects concatenation: the copies of the lines of `a` come
      before those of the lines of `b`. */
  lemma {:induction false} ExpandAppend(a: seq<LayoutItem>, b: seq<LayoutItem>)
    ensures Expand(a + b) == Expand(a) + Expand(b)
  {
    if b != [] {
      var n := |b| - 1;
      assert (a + b)[..|a + b| - 1] == a + b[..n];
      ExpandAppend(a, b[..n]);
    } else {
      assert a + b == a;
    }
  }

  // ---------------------------------------------------------------------
  // Overlap test
  // ---------------------------------------------------------------------

  /** The four strict comparisons of `hasOverlap` between a candidate box and
      one occupied space. */
  predicate Intersects(candidate: Box, space: Box)
  {
    && candidate.x < space.x + space.width
    && candidate.x + candidate.width > space.x
    && candidate.y < space.y + space.height
    && candidate.y + candidate.height > space.y
  }

  /** `hasOverlap`: `occupiedSpaces.some(...)` over the comparisons above. */
  function HasOverlap(x: int, y: int, width: int, height: int, occupiedSpaces: seq<Box>): (r: bool)
    ensures r <==> exists i :: 0 <= i < |occupiedSpaces| &&
                              Intersects(Box(x, y, width, height), occupiedSpaces[i])
  {
    if occupiedSpaces == [] then false
    else Intersects(Box(x, y, width, height), occupiedSpaces[0])
         || HasOverlap(x, y, width, height, occupiedSpaces[1..])
  }

  /** Intersection does not depend on which box is the candidate, and boxes
      that only share an edge do not intersect. */
  lemma IntersectsSymmetric(a: Box, b: Box)
    ensures Intersects(a, b) <==> Intersects(b, a)
    ensures a.x + a.width == b.x ==> !Intersects(a, b)
    ensures a.y + a.height == b.y ==> !Intersects(a, b)
  {
  }

  // ---------------------------------------------------------------------
  // Placement search
  // ---------------------------------------------------------------------

  datatype Orientation = Orientation(width: int, height: int, rotation: int)

  /** The orientations tried, unrotated first. */
  function Orientations(item: LayoutItem): seq<Orientation>
  {
    if item.canRotate then
      [Orientation(item.width, item.height, 0), Orientation(item.height, item.width, 90)]
    else
      [Orientation(item.width, item.height, 0)]
  }

  /** The bleed-inflated footprint fits the working area (the negation of the
      `continue` test). */
  predicate Fits(o: Orientation, bleed: int, maxWidth: int, maxHeight: int)
  {
    o.width + bleed * 2 <= maxWidth && o.height + bleed * 2 <= maxHeight
  }

  /** (ax, ay) is one of the anchors the two scan loops visit. */
  predicate InScan(ax: int, ay: int, o: Orientation, bleed: int,
                   maxWidth: int, maxHeight: int, margins: Margins)
  {
    && margins.left <= ax <= maxWidth - (o.width + bleed * 2)
    && margins.bottom <= ay <= maxHeight - (o.height + bleed * 2)
  }

  /** The inflated footprint anchored at (ax, ay) overlaps an occupied space. */
  predicate Blocked(ax: int, ay: int, o: Orientation, bleed: int, occupiedSpaces: seq<Box>)
  {
    HasOverlap(ax, ay, o.width + bleed * 2, o.height + bleed * 2, occupiedSpaces)
  }

  /** Orientation `o` offers no free anchor: it is skipped, or every anchor
      of its scan is blocked. */
  ghost predicate Exhausted(o: Orientation, bleed: int, maxWidth: int, maxHeight: int,
                            margins: Margins, occupiedSpaces: seq<Box>)
  {
    Fits(o, bleed, maxWidth, maxHeight) ==>
      forall ax, ay :: InScan(ax, ay, o, bleed, maxWidth, maxHeight, margins) ==>
        Blocked(ax, ay, o, bleed, occupiedSpaces)
  }

  /** (ax, ay) is the first free anchor of `o` in row-major order: `y` before
      `x`, both ascending. */
  ghost predicate FirstFreeAnchor(ax: int, ay: int, o: Orientation, bleed: int,
                                  maxWidth: int, maxHeight: int,
                                  margins: Margins, occupiedSpaces: seq<Box>)
  {
    && Fits(o, bleed, maxWidth, maxHeight)
    && InScan(ax, ay, o, bleed, maxWidth, maxHeight, margins)
    && !Blocked(ax, ay, o, bleed, occupiedSpaces)
    && forall px, py ::
         (InScan(px, py, o, bleed, maxWidth, maxHeight, margins) &&
          (py < ay || (py == ay && px < ax))) ==> Blocked(px, py, o, bleed, occupiedSpaces)
  }

  /** The placement returned for anchor (ax, ay): the nominal footprint sits
      one bleed inside the inflated box. */
  function Place(item: LayoutItem, o: Orientation, ax: int, ay: int, bleed: int): PlacedItem
  {
    PlacedItem(item, ax + bleed, ay + bleed, o.rotation, o.width, o.height)
  }

  /** The answer of `findBestPlacement`: the first free anchor of the first
      orientation that has one, or `null` when no orientation has one. */
  ghost predicate IsFirstFit(item: LayoutItem, maxWidth: int, maxHeight: int,
                             occupiedSpaces: seq<Box>, bleed: int, margins: Margins,
                             r: Option<PlacedItem>)
  {
    var os := Orientations(item);
    match r
    case None =>
      forall k :: 0 <= k < |os| ==>
        Exhausted(os[k], bleed, maxWidth, maxHeight, margins, occupiedSpaces)
    case Some(p) =>
      var ax, ay := p.x - bleed, p.y - bleed;
      || (FirstFreeAnchor(ax, ay, os[0], bleed, maxWidth, maxHeight, margins, occupiedSpaces)
          && p == Place(item, os[0], ax, ay, bleed))
      || (&& |os| == 2
          && Exhausted(os[0], bleed, maxWidth, maxHeight, margins, occupiedSpaces)
          && FirstFreeAnchor(ax, ay, os[1], bleed, maxWidth, maxHeight, margins, occupiedSpaces)
          && p == Place(item, os[1], ax, ay, bleed))
  }

  /** The bleed-inflated box of a placement, as pushed to `occupiedSpaces`. */
  function Inflate(p: PlacedItem, bleed: int): Box
  {
    Box(p.x - bleed, p.y - bleed, p.actualWidth + bleed * 2, p.actualHeight + bleed * 2)
  }

  /** `findBestPlacement`. */
  method FindBestPlacement(item: LayoutItem, maxWidth: int, maxHeight: int,
                           occupiedSpaces: seq<Box>, bleedSize: int, margins: Margins)
    returns (r: Option<PlacedItem>)
    ensures IsFirstFit(item, maxWidth, maxHeight, occupiedSpaces, bleedSize, margins, r)
    ensures r.Some? ==> r.value.item == item && OrientationRule(r.value)
    ensures r.Some? ==> WithinScan(r.value, maxWidth, maxHeight, bleedSize, margins)
    ensures r.Some? ==>
      var b := Inflate(r.value, bleedSize);
      !HasOverlap(b.x, b.y, b.width, b.height, occupiedSpaces)
    ensures r.None? ==>
      forall o, ax, ay ::
        (o in Orientations(item) &&
         Fits(o, bleedSize, maxWidth, maxHeight) &&
         InScan(ax, ay, o, bleedSize, maxWidth, maxHeight, margins)) ==>
        Blocked(ax, ay, o, bleedSize, occupiedSpaces)
  {
    var orientations := Orientations(item);
    var k := 0;
    while k < |orientations|
      invariant 0 <= k <= |orientations|
      invariant forall j :: 0 <= j < k ==>
        Exhausted(orientations[j], bleedSize, maxWidth, maxHeight, margins, occupiedSpaces)
    {
      var o := orientations[k];
      var w, h := o.width + bleedSize * 2, o.height + bleedSize * 2;
      if w > maxWidth || h > maxHeight {
        k := k + 1;
        continue;
      }
      var y := margins.bottom;
      while y <= maxHeight - h
        invariant forall px, py ::
          (InScan(px, py, o, bleedSize, maxWidth, maxHeight, margins) && py < y) ==>
          Blocked(px, py, o, bleedSize, occupiedSpaces)
      {
        var x := margins.left;
        while x <= maxWidth - w
          invariant forall px :: margins.left <= px < x ==> Blocked(px, y, o, bleedSize, occupiedSpaces)
        {
          if !HasOverlap(x, y, w, h, occupiedSpaces) {
            r := Some(Place(item, o, x, y, bleedSize));
            assert FirstFreeAnchor(x, y, o, bleedSize, maxWidth, maxHeight, margins, occupiedSpaces);
            return;
          }
          x := x + 1;
        }
        y := y + 1;
      }
      k := k + 1;
    }
    r := None;
  }

  /** The orientation rules of a placement: rotation 0 keeps the item's
      width and height; rotation 90 swaps them and needs `canRotate`. */
  predicate OrientationRule(p: PlacedItem)
  {
    || (p.rotation == 0 && p.actualWidth == p.item.width && p.actualHeight == p.item.height)
    || (p.item.canRotate && p.rotation == 90 &&
        p.actualWidth == p.item.height && p.actualHeight == p.item.width)
  }

  /** The inflated box of a placement is anchored inside the scan range, so
      it also lies inside the working area. */
  predicate WithinScan(p: PlacedItem, maxWidth: int, maxHeight: int, bleed: int, margins: Margins)
  {
    InScan(p.x - bleed, p.y - bleed, Orientation(p.actualWidth, p.actualHeight, p.rotation),
           bleed, maxWidth, maxHeight, margins)
  }

  /** What every answer of the search satisfies: the placement keeps the
      item, uses the unrotated footprint or (only when rotation is allowed)
      the swapped one, lies inside the scan range, and its inflated box
      overlaps no occupied space. */
  lemma FirstFitPlacement(item: LayoutItem, maxWidth: int, maxHeight: int,
                          occupiedSpaces: seq<Box>, bleed: int, margins: Margins, p: PlacedItem)
    requires IsFirstFit(item, maxWidth, maxHeight, occupiedSpaces, bleed, margins, Some(p))
    ensures p.item == item && OrientationRule(p)
    ensures WithinScan(p, maxWidth, maxHeight, bleed, margins)
    ensures var b := Inflate(p, bleed);
      !HasOverlap(b.x, b.y, b.width, b.height, occupiedSpaces)
  {
  }

  lemma FirstFreeAnchorUnique(ax1: int, ay1: int, ax2: int, ay2: int, o: Orientation, bleed: int,
                              maxWidth: int, maxHeight: int, margins: Margins, occupiedSpaces: seq<Box>)
    requires FirstFreeAnchor(ax1, ay1, o, bleed, maxWidth, maxHeight, margins, occupiedSpaces)
    requires FirstFreeAnchor(ax2, ay2, o, bleed, maxWidth, maxHeight, margins, occupiedSpaces)
    ensures ax1 == ax2 && ay1 == ay2
  {
  }

  /** Determinism of the search: its specification admits one answer only. */
  lemma FirstFitUnique(item: LayoutItem, maxWidth: int, maxHeight: int,
                       occupiedSpaces: seq<Box>, bleed: int, margins: Margins,
                       r1: Option<PlacedItem>, r2: Option<PlacedItem>)
    requires IsFirstFit(item, maxWidth, maxHeight, occupiedSpaces, bleed, margins, r1)
    requires IsFirstFit(item, maxWidth, maxHeight, occupiedSpaces, bleed, margins, r2)
    ensures r1 == r2
  {
    var os := Orientations(item);
    if r1.Some? && r2.Some? {
      var p1, p2 := r1.value, r2.value;
      var unrotated1 := FirstFreeAnchor(p1.x - bleed, p1.y - bleed, os[0], bleed, maxWidth, maxHeight, margins, occupiedSpaces)
                        && p1 == Place(item, os[0], p1.x - bleed, p1.y - bleed, bleed);
      var unrotated2 := FirstFreeAnchor(p2.x - bleed, p2.y - bleed, os[0], bleed, maxWidth, maxHeight, margins, occupiedSpaces)
                        && p2 == Place(item, os[0], p2.x - bleed, p2.y - bleed, bleed);
      if unrotated1 && unrotated2 {
        FirstFreeAnchorUnique(p1.x - bleed, p1.y - bleed, p2.x - bleed, p2.y - bleed, os[0],
                              bleed, maxWidth, maxHeight, margins, occupiedSpaces);
      } else if !unrotated1 && !unrotated2 {
        FirstFreeAnchorUnique(p1.x - bleed, p1.y - bleed, p2.x - bleed, p2.y - bleed, os[1],
                              bleed, maxWidth, maxHeight, margins, occupiedSpaces);
      }
    }
  }

  /** The scan of one fitting orientation, resumed at anchor (x, y) after
      every earlier anchor in row-major order was found blocked, ends with a
      first free anchor or with the orientation exhausted. */
  lemma {:induction false} ScanFrom(x: int, y: int, o: Orientation, bleed: int,
                                    maxWidth: int, maxHeight: int,
                                    margins: Margins, occupiedSpaces: seq<Box>)
    requires Fits(o, bleed, maxWidth, maxHeight)
    requires margins.left <= x && margins.bottom <= y
    requires forall px, py ::
      (InScan(px, py, o, bleed, maxWidth, maxHeight, margins) &&
       (py < y || (py == y && px < x))) ==> Blocked(px, py, o, bleed, occupiedSpaces)
    ensures || Exhausted(o, bleed, maxWidth, maxHeight, margins, occupiedSpaces)
            || exists ax, ay ::
                 FirstFreeAnchor(ax, ay, o, bleed, maxWidth, maxHeight, margins, occupiedSpaces)
    decreases maxHeight - (o.height + bleed * 2) - y + 1, maxWidth - (o.width + bleed * 2) - x + 1
  {
    var w, h := o.width + bleed * 2, o.height + bleed * 2;
    if y > maxHeight - h {
      // every anchor of the scan lies on an earlier row
    } else if x > maxWidth - w {
      ScanFrom(margins.left, y + 1, o, bleed, maxWidth, maxHeight, margins, occupiedSpaces);
    } else if !Blocked(x, y, o, bleed, occupiedSpaces) {
      assert FirstFreeAnchor(x, y, o, bleed, maxWidth, maxHeight, margins, occupiedSpaces);
    } else {
      ScanFrom(x + 1, y, o, bleed, maxWidth, maxHeight, margins, occupiedSpaces);
    }
  }

  /** Each orientation is either exhausted or has a first free anchor. */
  lemma OrientationScan(o: Orientation, bleed: int, maxWidth: int, maxHeight: int,
                        margins: Margins, occupiedSpaces: seq<Box>)
    ensures || Exhausted(o, bleed, maxWidth, maxHeight, margins, occupiedSpaces)
            || exists ax, ay ::
                 FirstFreeAnchor(ax, ay, o, bleed, maxWidth, maxHeight, margins, occupiedSpaces)
  {
    if Fits(o, bleed, maxWidth, maxHeight) {
      ScanFrom(margins.left, margins.bottom, o, bleed, maxWidth, maxHeight, margins, occupiedSpaces);
    }
  }

  /** The answer of the search as a function of its inputs: the one result
      its specification admits (`FirstFitExists` shows there always is one,
      so the `None` fallback below only ever agrees with `IsFirstFit`). */
  ghost function FirstFit(item: LayoutItem, maxWidth: int, maxHeight: int,
                          occupiedSpaces: seq<Box>, bleed: int, margins: Margins): Option<PlacedItem>
  {
    if exists r :: IsFirstFit(item, maxWidth, maxHeight, occupiedSpaces, bleed, margins, r) then
      var r :| IsFirstFit(item, maxWidth, maxHeight, occupiedSpaces, bleed, margins, r); r
    else None
  }

  /** Whatever satisfies the specification of the search is `FirstFit`. */
  lemma FirstFitIsTheAnswer(item: LayoutItem, maxWidth: int, maxHeight: int,
                            occupiedSpaces: seq<Box>, bleed: int, margins: Margins, r: Option<PlacedItem>)
    requires IsFirstFit(item, maxWidth, maxHeight, occupiedSpaces, bleed, margins, r)
    ensures FirstFit(item, maxWidth, maxHeight, occupiedSpaces, bleed, margins) == r
  {
    var f := FirstFit(item, maxWidth, maxHeight, occupiedSpaces, bleed, margins);
    FirstFitUnique(item, maxWidth, maxHeight, occupiedSpaces, bleed, margins, f, r);
  }

  /** The search always has an answer: `FirstFit` satisfies its
      specification, so `None` means every orientation is exhausted. */
  lemma FirstFitExists(item: LayoutItem, maxWidth: int, maxHeight: int,
                       occupiedSpaces: seq<Box>, bleed: int, margins: Margins)
    ensures IsFirstFit(item, maxWidth, maxHeight, occupiedSpaces, bleed, margins,
                       FirstFit(item, maxWidth, maxHeight, occupiedSpaces, bleed, margins))
  {
    var os := Orientations(item);
    OrientationScan(os[0], bleed, maxWidth, maxHeight, margins, occupiedSpaces);
    if ax, ay :| FirstFreeAnchor(ax, ay, os[0], bleed, maxWidth, maxHeight, margins, occupiedSpaces) {
      var r := Some(Place(item, os[0], ax, ay, bleed));
      assert IsFirstFit(item, maxWidth, maxHeight, occupiedSpaces, bleed, margins, r);
    } else if |os| == 2 {
      OrientationScan(os[1], bleed, maxWidth, maxHeight, margins, occupiedSpaces);
      if ax, ay :| FirstFreeAnchor(ax, ay, os[1], bleed, maxWidth, maxHeight, margins, occupiedSpaces) {
        var r := Some(Place(item, os[1], ax, ay, bleed));
        assert IsFirstFit(item, maxWidth, maxHeight, occupiedSpaces, bleed, margins, r);
      } else {
        assert IsFirstFit(item, maxWidth, maxHeight, occupiedSpaces, bleed, margins, None);
      }
    } else {
      assert IsFirstFit(item, maxWidth, maxHeight, occupiedSpaces, bleed, margins, None);
    }
  }

  // ---------------------------------------------------------------------
  // Driver
  // ---------------------------------------------------------------------

  /** The default of the `bleedSize` parameter, used when the caller passes none. */
  const DefaultBleedSize := 3

  /** What the driver returns: the echoed sheet size, the placements and the
      unused working area. */
  datatype LayoutResult = LayoutResult(
    sheetWidth: int,
    sheetHeight: int,
    placedItems: seq<PlacedItem>,
    unusedArea: int)

  /** The occupied spaces recorded for a list of placements, one per placement. */
  function InflateAll(placed: seq<PlacedItem>, bleed: int): (boxes: seq<Box>)
    ensures |boxes| == |placed|
    ensures forall i :: 0 <= i < |placed| ==> boxes[i] == Inflate(placed[i], bleed)
  {
    if placed == [] then []
    else InflateAll(placed[..|placed| - 1], bleed) + [Inflate(placed[|placed| - 1], bleed)]
  }

  lemma InflateAllAppend(placed: seq<PlacedItem>, p: PlacedItem, bleed: int)
    ensures InflateAll(placed + [p], bleed) == InflateAll(placed, bleed) + [Inflate(p, bleed)]
  {
    assert (placed + [p])[..|placed|] == placed;
  }

  ghost predicate PairwiseDisjoint(boxes: seq<Box>)
  {
    forall i, j :: 0 <= i < |boxes| && 0 <= j < |boxes| && i != j ==> !Intersects(boxes[i], boxes[j])
  }

  /** The reduce over the placements: the sum of the nominal (unbled) areas. */
  function UsedArea(placed: seq<PlacedItem>): int
  {
    if placed == [] then 0
    else UsedArea(placed[..|placed| - 1]) +
         placed[|placed| - 1].actualWidth * placed[|placed| - 1].actualHeight
  }

  /** The placements that the placement loop produces from the sorted units
      `items`: each unit in turn gets the answer of the search against the
      spaces occupied so far; it is appended when that answer is a placement
      and dropped when it is `null`. */
  ghost function BottomLeftFill(items: seq<LayoutItem>, maxWidth: int, maxHeight: int,
                                bleed: int, margins: Margins): seq<PlacedItem>
  {
    if items == [] then []
    else
      var before := BottomLeftFill(items[..|items| - 1], maxWidth, maxHeight, bleed, margins);
      match FirstFit(items[|items| - 1], maxWidth, maxHeight, InflateAll(before, bleed), bleed, margins)
      case Some(p) => before + [p]
      case None => before
  }

  /** The bleed used by the driver: the caller's, or the default. */
  function BleedOrDefault(bleedSize: Option<int>): int
  {
    if bleedSize.Some? then bleedSize.value else DefaultBleedSize
  }

  /** The working region: the sheet less its four margins. */
  function WorkingWidth(sheetWidth: int, margins: Margins): int
  {
    sheetWidth - margins.left - margins.right
  }

  function WorkingHeight(sheetHeight: int, margins: Margins): int
  {
    sheetHeight - margins.top - margins.bottom
  }

  function WorkingArea(sheetWidth: int, sheetHeight: int, margins: Margins): int
  {
    WorkingWidth(sheetWidth, margins) * WorkingHeight(sheetHeight, margins)
  }

  /** `optimizeLayoutWithBottomLeftFillAlgorithm`. */
  method OptimizeLayoutWithBottomLeftFillAlgorithm(
    items: seq<LayoutItem>, sheetWidth: int, sheetHeight: int,
    bleedSize: Option<int>, margins: Margins)
    returns (result: LayoutResult)
    ensures result.sheetWidth == sheetWidth && result.sheetHeight == sheetHeight
    ensures result.placedItems ==
      BottomLeftFill(SortByAreaDescending(Expand(items)),
                     WorkingWidth(sheetWidth, margins), WorkingHeight(sheetHeight, margins),
                     BleedOrDefault(bleedSize), margins)
    ensures PairwiseDisjoint(InflateAll(result.placedItems, BleedOrDefault(bleedSize)))
    ensures |result.placedItems| <= TotalQuantity(items)
    ensures result.unusedArea == WorkingArea(sheetWidth, sheetHeight, margins) - UsedArea(result.placedItems)
  {
    var bleed := BleedOrDefault(bleedSize);
    var workingWidth := WorkingWidth(sheetWidth, margins);
    var workingHeight := WorkingHeight(sheetHeight, margins);
    var expandedItems := ExpandItemsByQuantity(items);
    expandedItems := SortByAreaDescending(expandedItems);
    ExpandLength(items);
    assert |expandedItems| == TotalQuantity(items) by {
      assert |multiset(expandedItems)| == |multiset(Expand(items))|;
    }

    var placedItems := PlaceInOrder(expandedItems, workingWidth, workingHeight, bleed, margins);
    BottomLeftFillDisjoint(expandedItems, workingWidth, workingHeight, bleed, margins);
    BottomLeftFillLength(expandedItems, workingWidth, workingHeight, bleed, margins);
    var totalUsedArea := UsedArea(placedItems);
    result := LayoutResult(sheetWidth, sheetHeight, placedItems,
                           workingWidth * workingHeight - totalUsedArea);
  }

  /** The placement loop of the driver: each unit in turn, in the given
      order, is searched for against the spaces occupied so far; a placement
      is recorded with its inflated box, a `null` answer drops the unit. */
  method PlaceInOrder(expandedItems: seq<LayoutItem>, workingWidth: int, workingHeight: int,
                      bleed: int, margins: Margins)
    returns (placedItems: seq<PlacedItem>)
    ensures placedItems == BottomLeftFill(expandedItems, workingWidth, workingHeight, bleed, margins)
  {
    placedItems := [];
    var occupiedSpaces: seq<Box> := [];
    for i := 0 to |expandedItems|
      invariant placedItems == BottomLeftFill(expandedItems[..i], workingWidth, workingHeight, bleed, margins)
      invariant occupiedSpaces == InflateAll(placedItems, bleed)
    {
      var placement := FindBestPlacement(expandedItems[i], workingWidth, workingHeight,
                                         occupiedSpaces, bleed, margins);
      FirstFitIsTheAnswer(expandedItems[i], workingWidth, workingHeight, occupiedSpaces,
                          bleed, margins, placement);
      assert expandedItems[..i + 1][..i] == expandedItems[..i];
      if placement.Some? {
        var p := placement.value;
        InflateAllAppend(placedItems, p, bleed);
        placedItems := placedItems + [p];
        occupiedSpaces := occupiedSpaces + [Inflate(p, bleed)];
      }
    }
    assert expandedItems[..|expandedItems|] == expandedItems;
  }

  /** The occupied spaces of a run never overlap one another. */
  lemma {:induction false} BottomLeftFillDisjoint(items: seq<LayoutItem>, maxWidth: int, maxHeight: int,
                                                  bleed: int, margins: Margins)
    ensures PairwiseDisjoint(InflateAll(BottomLeftFill(items, maxWidth, maxHeight, bleed, margins), bleed))
  {
    if items != [] {
      var n := |items| - 1;
      var before := BottomLeftFill(items[..n], maxWidth, maxHeight, bleed, margins);
      var occupied := InflateAll(before, bleed);
      BottomLeftFillDisjoint(items[..n], maxWidth, maxHeight, bleed, margins);
      var r := FirstFit(items[n], maxWidth, maxHeight, occupied, bleed, margins);
      if r.Some? {
        var p := r.value;
        var m := |occupied|;
        FirstFitPlacement(items[n], maxWidth, maxHeight, occupied, bleed, margins, p);
        InflateAllAppend(before, p, bleed);
        var boxes := occupied + [Inflate(p, bleed)];
        forall i, j | 0 <= i < |boxes| && 0 <= j < |boxes| && i != j
          ensures !Intersects(boxes[i], boxes[j])
        {
          if i == m {
            assert !Intersects(boxes[m], occupied[j]);
          } else if j == m {
            assert !Intersects(boxes[m], occupied[i]);
            IntersectsSymmetric(boxes[i], boxes[m]);
          } else {
            assert boxes[i] == occupied[i] && boxes[j] == occupied[j];
          }
        }
      }
    }
  }

  /** A placement made from one of `items`, obeying the orientation rules and
      lying inside the scan range. */
  ghost predicate ValidPlacement(p: PlacedItem, items: seq<LayoutItem>,
                                 maxWidth: int, maxHeight: int, bleed: int, margins: Margins)
  {
    && p.item in items
    && OrientationRule(p)
    && WithinScan(p, maxWidth, maxHeight, bleed, margins)
  }

  /** Every placement of a run comes from one of the units, obeys the
      orientation rules and lies inside the scan range. */
  lemma {:induction false} BottomLeftFillPlacements(items: seq<LayoutItem>, maxWidth: int, maxHeight: int,
                                                    bleed: int, margins: Margins)
    ensures forall p :: p in BottomLeftFill(items, maxWidth, maxHeight, bleed, margins) ==>
      ValidPlacement(p, items, maxWidth, maxHeight, bleed, margins)
  {
    if items != [] {
      var n := |items| - 1;
      var before := BottomLeftFill(items[..n], maxWidth, maxHeight, bleed, margins);
      var occupied := InflateAll(before, bleed);
      BottomLeftFillPlacements(items[..n], maxWidth, maxHeight, bleed, margins);
      var r := FirstFit(items[n], maxWidth, maxHeight, occupied, bleed, margins);
      var placed := BottomLeftFill(items, maxWidth, maxHeight, bleed, margins);
      if r.Some? {
        FirstFitPlacement(items[n], maxWidth, maxHeight, occupied, bleed, margins, r.value);
        assert placed == before + [r.value];
      } else {
        assert placed == before;
      }
      forall p | p in placed
        ensures ValidPlacement(p, items, maxWidth, maxHeight, bleed, margins)
      {
        if p in before {
          assert ValidPlacement(p, items[..n], maxWidth, maxHeight, bleed, margins);
          assert p.item in items[..n];
        }
      }
    }
  }

  /** A run drops units but never creates any: at most one placement per unit. */
  lemma {:induction false} BottomLeftFillLength(items: seq<LayoutItem>, maxWidth: int, maxHeight: int,
                                                bleed: int, margins: Margins)
    ensures |BottomLeftFill(items, maxWidth, maxHeight, bleed, margins)| <= |items|
  {
    if items != [] {
      BottomLeftFillLength(items[..|items| - 1], maxWidth, maxHeight, bleed, margins);
    }
  }

  /** One step of the placement loop in terms of the search's specification:
      the last unit adds one placement, the search's answer against the boxes
      placed before it, or it is dropped, and it is dropped exactly when
      every one of its orientations is exhausted. */
  lemma BottomLeftFillStep(items: seq<LayoutItem>, maxWidth: int, maxHeight: int,
                           bleed: int, margins: Margins)
    requires items != []
    ensures var unit := items[|items| - 1];
      var before := BottomLeftFill(items[..|items| - 1], maxWidth, maxHeight, bleed, margins);
      var after := BottomLeftFill(items, maxWidth, maxHeight, bleed, margins);
      var occupied := InflateAll(before, bleed);
      && |before| <= |after| <= |before| + 1
      && after[..|before|] == before
      && (|after| == |before| <==>
            forall k :: 0 <= k < |Orientations(unit)| ==>
              Exhausted(Orientations(unit)[k], bleed, maxWidth, maxHeight, margins, occupied))
      && (|after| == |before| + 1 ==>
            IsFirstFit(unit, maxWidth, maxHeight, occupied, bleed, margins, Some(after[|before|])))
  {
    var unit := items[|items| - 1];
    var before := BottomLeftFill(items[..|items| - 1], maxWidth, maxHeight, bleed, margins);
    var occupied := InflateAll(before, bleed);
    var after := BottomLeftFill(items, maxWidth, maxHeight, bleed, margins);
    var os := Orientations(unit);
    var f := FirstFit(unit, maxWidth, maxHeight, occupied, bleed, margins);
    FirstFitExists(unit, maxWidth, maxHeight, occupied, bleed, margins);
    if f.Some? {
      assert after == before + [f.value];
      assert after[..|before|] == before;
      var ax, ay := f.value.x - bleed, f.value.y - bleed;
      if FirstFreeAnchor(ax, ay, os[0], bleed, maxWidth, maxHeight, margins, occupied) {
        assert !Exhausted(os[0], bleed, maxWidth, maxHeight, margins, occupied);
      } else {
        assert !Exhausted(os[1], bleed, maxWidth, maxHeight, margins, occupied);
      }
    } else {
      assert after == before;
    }
  }
}
