/** Geometric values the tooltip placement works on.

    All coordinates are CSS pixels in the viewport's frame: the origin is the
    top-left corner and y grows downward. JavaScript numbers are doubles; the
    placement only adds, subtracts and compares them, so they are modelled as
    `real`.
 */
module Geometry {

  /** A measured bounding box, as `getBoundingClientRect` reports it. */
  datatype Rect = Rect(x: real, y: real, width: real, height: real) {

    function Right(): real {
      x + width
    }

    function Bottom(): real {
      y + height
    }
  }

  /** The browser window's visible area (`window.innerWidth`, `window.innerHeight`). */
  datatype Window = Window(innerWidth: real, innerHeight: real)

  /** The three named constants of the placement. */
  datatype Config = Config(
    screenPadding: real,  // clearance kept from the viewport's edges
    columnWidth: real,    // width of the anchor column the content is flipped across
    contentRadius: real   // rounded-corner clearance kept below the pointer
  )

  /** The values the handler is written with. */
  const Default: Config := Config(16.0, 250.0, 15.0)
}
