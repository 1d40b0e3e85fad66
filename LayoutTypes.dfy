/** Value types shared by the bottom-left-fill packer: the demand line
    (`LayoutItem`), the placed unit (`PlacedItem`), sheet margins and the
    bleed-inflated boxes the packer tests for overlap. Every dimension and
    coordinate is an integer in sheet units. */
module LayoutTypes {

  /** The source's `null` result of a placement search. */
  datatype Option<+T> = None | Some(value: T)

  /** One demand line: `quantity` copies of a `width` x `height` job. */
  datatype LayoutItem = LayoutItem(
    orderId: string,
    width: int,
    height: int,
    quantity: int,
    canRotate: bool)

  /** A placed unit: the item it came from (with `quantity` 1), the position of
      its nominal footprint inside the sheet, the rotation in degrees (0 or 90)
      and the footprint after rotation. */
  datatype PlacedItem = PlacedItem(
    item: LayoutItem,
    x: int,
    y: int,
    rotation: int,
    actualWidth: int,
    actualHeight: int)

  datatype Margins = Margins(top: int, bottom: int, left: int, right: int)

  /** An axis-aligned box with its lower-left corner at (x, y). */
  datatype Box = Box(x: int, y: int, width: int, height: int)

  /** The sort key of the driver: nominal area before rotation. */
  function Area(item: LayoutItem): int
  {
    item.width * item.height
  }

  /** The unit copy pushed by the expansion: every field kept, quantity 1. */
  function UnitCopy(item: LayoutItem): (u: LayoutItem)
    ensures u.quantity == 1
    ensures u.orderId == item.orderId && u.width == item.width && u.height == item.height
    ensures u.canRotate == item.canRotate
  {
    item.(quantity := 1)
  }
}
