# Bottom-left-fill sheet packer

This project models the single-sheet rectangle packer of the print-shop backend's
`LayoutOptimizer` service and proves properties of that model. The packer takes print jobs
(`LayoutItem`: an order id, a width, a height, a quantity and a rotation flag) and places
them on one sheet:

1. it expands every job into `quantity` unit copies;
2. it sorts the units by non-increasing nominal area (a stable sort);
3. for each unit, in that order, it searches for a position. It tries the unrotated
   footprint, then the 90° one when rotation is allowed. The footprint is inflated by the
   bleed on every side. Integer anchors are scanned row by row (`y` ascending from the
   bottom margin, then `x` ascending from the left margin). The first anchor whose inflated
   box overlaps no occupied box wins. A unit with no such anchor is dropped;
4. it reports the placements and the unused area: the working area minus the nominal
   (unbled) areas of the placed units.

Modules:

- `LayoutTypes` (LayoutTypes.dfy): the job, placement, margin and box values.
- `AreaSort` (AreaSort.dfy): the built-in stable sort used by the driver, as a stable
  insertion sort on values.
- `LayoutOptimizer` (LayoutOptimizer.dfy): the expansion (an imperative method proved
  against the function `Expand`); the overlap test (a function); the placement search (an
  imperative method with the source's nested scan loops and early return, proved against the
  predicate `IsFirstFit`); and the driver (a method proved against the function
  `BottomLeftFill`). `IsFirstFit` admits exactly one answer (`FirstFitExists` and
  `FirstFitUnique`), which the function `FirstFit` names; `BottomLeftFill` places the sorted units one by one with `FirstFit`, each against the
  inflated boxes of the units placed before it. The driver's placement loop is the method
  `PlaceInOrder`.
- `SheetArea` (SheetArea.dfy): a lattice-cell counting argument. When the bleed, the left and
  bottom margins, the working size and the job sides are non-negative, it shows the placed
  nominal areas never exceed the working area, so the reported unused area is not negative.
- `Scenarios` (Scenarios.dfy): two concrete layouts checked against the specification.

Dimensions, bleed, margins and quantities are `int`. The class holds no state, so its
private methods are module-level members. The `null` result of the search is `Option.None`.
The bleed parameter defaults to 3 when the caller passes none, so it is `Option<int>`.

Three facts about the code that the model keeps as they are:

- The code applies the left and bottom margins twice. The working size already excludes
  them, yet the scan also starts at `margins.left` / `margins.bottom` and ends at
  `workingWidth - w` / `workingHeight - h`.
- The code does not reject jobs with non-positive width or height. Only a quantity of zero
  or less yields no copies.
- Bottom-left fill is the only packing algorithm the class defines.

## Model

| member | source | states |
|---|---|---|
| `LayoutOptimizer.ExpandItemsByQuantity` | src/services/automation/LayoutOptimizer.ts:7-15 | the loop yields exactly `Expand(items)`: each line's copies, line after line; its length is the sum of the non-negative quantities and every unit has quantity 1 |
| `LayoutOptimizer.ExpandLength` | src/services/automation/LayoutOptimizer.ts:7-15 | the expansion has as many units as the sum of `max(0, quantity)` over the lines |
| `LayoutOptimizer.ExpandUnits` | src/services/automation/LayoutOptimizer.ts:9-12 | a unit occurs in the expansion iff it is the quantity-1 copy (all other fields kept) of a line with positive quantity |
| `LayoutOptimizer.ExpandAppend` | src/services/automation/LayoutOptimizer.ts:9-13 | expansion keeps input order: expanding `a + b` gives the expansion of `a` followed by that of `b` |
| `AreaSort.SortByAreaDescending` | src/services/automation/LayoutOptimizer.ts:91 | the sorted units are a permutation (same multiset) of the expanded units |
| `AreaSort.SortByAreaDescendingSorted` | src/services/automation/LayoutOptimizer.ts:91 | units are tried in non-increasing `width * height` order |
| `AreaSort.SortByAreaDescendingIsStable` | src/services/automation/LayoutOptimizer.ts:91 | the sort is stable: for every area value, the units of that area keep their input order |
| `LayoutOptimizer.HasOverlap` | src/services/automation/LayoutOptimizer.ts:16-29 | true iff some occupied space strictly intersects the candidate on both axes; an empty list gives false |
| `LayoutOptimizer.IntersectsSymmetric` | src/services/automation/LayoutOptimizer.ts:23-28 | the strict intersection test is symmetric, and boxes that only share an edge do not intersect |
| `LayoutOptimizer.FindBestPlacement` | src/services/automation/LayoutOptimizer.ts:31-66 | the result is the first free anchor of the first orientation that has one (unrotated before rotated, row-major scan), or none when every anchor of every fitting orientation is blocked; a placement keeps the item, obeys the orientation rules, lies in the scan range and its inflated box overlaps nothing |
| `LayoutOptimizer.FirstFitPlacement` | src/services/automation/LayoutOptimizer.ts:37-59 | any answer of the search keeps the item, is rotation 0 with `(width, height)` or (only with `canRotate`) rotation 90 with `(height, width)`, has its inflated box between the margins and the working size, and overlaps no occupied space |
| `LayoutOptimizer.FirstFreeAnchorUnique` | src/services/automation/LayoutOptimizer.ts:50-61 | one orientation has at most one first free anchor in row-major order |
| `LayoutOptimizer.FirstFitUnique` | src/services/automation/LayoutOptimizer.ts:42-65 | the search is deterministic: its specification admits at most one answer |
| `LayoutOptimizer.OrientationScan` | src/services/automation/LayoutOptimizer.ts:44-61 | the row-major scan of one orientation ends: the orientation is skipped or fully blocked, or it has a first free anchor |
| `LayoutOptimizer.FirstFitExists` | src/services/automation/LayoutOptimizer.ts:42-65 | the search's specification always has an answer, namely `FirstFit`; so `FirstFit` is `None` only when every orientation is exhausted |
| `LayoutOptimizer.InflateAll` | src/services/automation/LayoutOptimizer.ts:100-105 | one occupied space per placement, equal to that placement's bleed-inflated box |
| `LayoutOptimizer.FirstFitIsTheAnswer` | src/services/automation/LayoutOptimizer.ts:42-65 | whatever satisfies the search's specification is the unique answer `FirstFit` used by the driver's specification |
| `LayoutOptimizer.PlaceInOrder` | src/services/automation/LayoutOptimizer.ts:93-109 | the placement loop produces exactly `BottomLeftFill` of the units in order: each unit's placement is the search's answer against the inflated boxes placed so far, a `null` answer adds nothing |
| `LayoutOptimizer.OptimizeLayoutWithBottomLeftFillAlgorithm` | src/services/automation/LayoutOptimizer.ts:75-124 | the placements are `BottomLeftFill` of the expanded units sorted by area (bleed defaulting to 3); the inflated boxes are pairwise disjoint; at most one placement per unit; the unused area is the working area minus the sum of `actualWidth * actualHeight`; the sheet size is echoed |
| `LayoutOptimizer.BottomLeftFillDisjoint` | src/services/automation/LayoutOptimizer.ts:96-105 | no two occupied spaces the loop records overlap under the `hasOverlap` test |
| `LayoutOptimizer.BottomLeftFillPlacements` | src/services/automation/LayoutOptimizer.ts:96-105 | every placement comes from one of the units, obeys the orientation rules and lies in the scan range |
| `LayoutOptimizer.BottomLeftFillLength` | src/services/automation/LayoutOptimizer.ts:96-108 | at most one placement per unit, because dropped units add nothing |
| `LayoutOptimizer.BottomLeftFillStep` | src/services/automation/LayoutOptimizer.ts:96-108 | each unit keeps the earlier placements and adds at most one; the unit is dropped exactly when every orientation is exhausted against the boxes placed before it, and an added placement is the search's answer |
| `SheetArea.CellsCount` | src/services/automation/LayoutOptimizer.ts:110-112 | a box with non-negative sides covers exactly `width * height` unit cells, the measure behind the area sum |
| `SheetArea.AllCellsCount` | src/services/automation/LayoutOptimizer.ts:110-112 | pairwise disjoint boxes cover as many cells as the sum of their areas |
| `SheetArea.UsedAreaAtMostInflated` | src/services/automation/LayoutOptimizer.ts:110-112 | with non-negative bleed, the nominal area sum is at most the inflated area sum |
| `SheetArea.UnusedAreaNonNegative` | src/services/automation/LayoutOptimizer.ts:110-122 | with non-negative bleed, left and bottom margins, working size and job sides, the used area lies between 0 and the working area, so `unusedArea >= 0` |
| `Scenarios.SingleJobAtOrigin` | src/services/automation/LayoutOptimizer.ts:75-124 | one unrotatable 100 x 100 job on a 200 x 200 sheet without margins or bleed is placed at (0, 0), unrotated, leaving 30000 units unused |
| `Scenarios.SecondJobDropped` | src/services/automation/LayoutOptimizer.ts:96-108 | of two 60 x 60 units on a 100 x 100 sheet, the first goes to (0, 0) and the second is dropped in both orientations |

## Left out

- `efficiency` (LayoutOptimizer.ts:113) is a floating-point division. It divides by zero
  when the working area is zero. It is not modelled; the used and unused areas are.
- `getInstance` (LayoutOptimizer.ts:68-73) is a singleton accessor with no logic.
  `console.warn` (line 107) is logging. Neither is modelled.
- The sort runs in place on `expandedItems`. The model sorts a value sequence with a stable
  insertion sort, because the source calls the JavaScript built-in, whose code is not part of
  this model.
- The placement loop of the driver is a separate method, `PlaceInOrder`. Its behaviour is
  unchanged.
- JavaScript numbers are doubles; the model uses unbounded integers. It does not cover
  fractional sizes, bleeds, margins or quantities. In particular, a fractional quantity `q`
  makes the source push `ceil(q)` copies. Rounding above 2^53 is also not covered.
- Shelf, max-rects and gang packing are called by the controller
  (src/controllers/automation.ts:62, 71, 80) but are not defined in the class.
- The HTTP controllers, routes, middlewares, database access, schemas, request validation, the
  image proxy, and the S3, JWT, image and password clients are I/O glue and not modelled.
  Margins are validated non-negative by the request schema.
- `SheetArea.UnusedAreaNonNegative` assumes a non-negative bleed, working size and job
  sides, and the source guarantees none of these. The request schema leaves the bleed
  unbounded (src/validations/AutomationValidation.ts:6). With a negative bleed the inflated
  boxes are smaller than the footprints, so footprints overlap and `unusedArea` can be
  negative: a bleed of -10 and 100 units of 30 x 30 on a 100 x 100 sheet give
  10000 - 90000. Margins that pass the schema can also be wider than the sheet, which makes
  the working size negative: no jobs on a 10 x 10 sheet with a left margin of 20 give an
  unused area of -100.
