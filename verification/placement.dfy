/** The placement computation of the `fixTooltipPlacement` handler.

    A tooltip is laid out to the right of its anchor, as a content box with a
    small pointer (arrow) beside it. Given the measured boxes and the window
    size, the placement decides two things independently:
    - horizontally, whether the content overflows the right edge and must be
      flipped to the anchor's left side, mirroring the pointer;
    - vertically, whether the content overflows the bottom edge and must slide
      up, without leaving the pointer hanging below it.
    The results are offsets to apply to the boxes already laid out, not
    absolute coordinates.
 */
module Placement {
  import opened Geometry

  /** The horizontal outputs: how far the content moves left, where the
      pointer moves, and the pointer's horizontal scale (1 or -1, mirrored). */
  datatype HorizontalPlacement = HorizontalPlacement(contentOffsetX: real, pointerOffsetX: real, pointerScaleX: real)

  /** All four outputs of one placement. */
  datatype PlacementResult = PlacementResult(
    contentOffsetX: real,  // leftward shift of the content
    contentOffsetY: real,  // downward shift of the content (negative moves it up)
    pointerOffsetX: real,  // rightward shift of the pointer
    pointerScaleX: real    // 1, or -1 when the pointer is mirrored
  )

  const Unflipped: HorizontalPlacement := HorizontalPlacement(0.0, 0.0, 1.0)

  const Unmoved: PlacementResult := PlacementResult(0.0, 0.0, 0.0, 1.0)

  /** The content's right edge, plus the padding, lies past the window's right edge. */
  predicate OverflowsRight(left: real, width: real, innerWidth: real, cfg: Config) {
    left + width + cfg.screenPadding > innerWidth
  }

  /** How far the content's bottom edge, plus the padding, lies below the
      window's bottom edge (positive when it overflows). */
  function OverflowY(contentBottom: real, innerHeight: real, cfg: Config): real {
    contentBottom + cfg.screenPadding - innerHeight
  }

  /** The lowest the content's bottom edge may sit while keeping the padding. */
  function BottomLimit(innerHeight: real, cfg: Config): real {
    innerHeight - cfg.screenPadding
  }

  /** The horizontal decision: flip to the left of the anchor when the content
      overflows the right edge. The content then moves left by its own width
      plus the anchor column, unless the content does not start that far from
      the window's left edge, in which case it moves only far enough to start
      at the padding. */
  function PlaceHorizontal(left: real, width: real, pointerWidth: real, innerWidth: real, cfg: Config): (h: HorizontalPlacement)
    // nothing moves exactly when the content fits
    ensures !OverflowsRight(left, width, innerWidth, cfg) <==> h == Unflipped
    // the pointer is mirrored exactly when the content is flipped
    ensures h.pointerScaleX == -1.0 <==> OverflowsRight(left, width, innerWidth, cfg)
    ensures h.pointerScaleX == 1.0 || h.pointerScaleX == -1.0
    // a flip crosses the content's width and the anchor column when there is room for it ...
    ensures OverflowsRight(left, width, innerWidth, cfg) && left >= width + cfg.columnWidth ==>
              h.contentOffsetX == width + cfg.columnWidth
    // ... and otherwise puts the flipped left edge exactly at the padding
    ensures OverflowsRight(left, width, innerWidth, cfg) && left < width + cfg.columnWidth ==>
              left - h.contentOffsetX == cfg.screenPadding
    // the flipped content never starts left of the window
    ensures OverflowsRight(left, width, innerWidth, cfg) && cfg.screenPadding >= 0.0 ==>
              left - h.contentOffsetX >= 0.0
    // and never moves further than across the anchor column
    ensures OverflowsRight(left, width, innerWidth, cfg) && cfg.screenPadding >= 0.0 ==>
              h.contentOffsetX <= width + cfg.columnWidth
    // the pointer travels with the content, plus the content's and its own width
    ensures OverflowsRight(left, width, innerWidth, cfg) ==>
              h.pointerOffsetX + h.contentOffsetX == width + pointerWidth
  {
    if OverflowsRight(left, width, innerWidth, cfg) then
      var shift := if left < width + cfg.columnWidth then left - cfg.screenPadding else width + cfg.columnWidth;
      HorizontalPlacement(shift, width - shift + pointerWidth, -1.0)
    else
      Unflipped
  }

  /** The vertical decision: when the content overflows the bottom edge it
      slides up until its bottom sits at the padding. If the pointer, which the
      slide does not move, would then hang below the content, the content is
      moved back down so that its bottom lies `contentRadius` below the
      pointer's bottom, wherever that puts it. */
  function PlaceVertical(contentBottom: real, pointerBottom: real, innerHeight: real, cfg: Config): (offsetY: real)
    ensures OverflowY(contentBottom, innerHeight, cfg) <= 0.0 ==> offsetY == 0.0
    // sliding up lands the bottom edge exactly on the padding ...
    ensures OverflowY(contentBottom, innerHeight, cfg) > 0.0 && pointerBottom <= BottomLimit(innerHeight, cfg) ==>
              contentBottom + offsetY == BottomLimit(innerHeight, cfg)
    // ... unless the pointer sticks out below that, in which case the bottom edge ends up under the pointer
    ensures OverflowY(contentBottom, innerHeight, cfg) > 0.0 && pointerBottom > BottomLimit(innerHeight, cfg) ==>
              contentBottom + offsetY == pointerBottom + cfg.contentRadius
    // the compensation moves the content down, never further up than the overflow
    ensures OverflowY(contentBottom, innerHeight, cfg) > 0.0 && cfg.contentRadius >= 0.0 ==>
              offsetY >= -OverflowY(contentBottom, innerHeight, cfg)
    ensures OverflowY(contentBottom, innerHeight, cfg) > 0.0 && pointerBottom > BottomLimit(innerHeight, cfg) && cfg.contentRadius >= 0.0 ==>
              offsetY > -OverflowY(contentBottom, innerHeight, cfg)
    // after a slide the pointer never hangs below the content
    ensures OverflowY(contentBottom, innerHeight, cfg) > 0.0 && cfg.contentRadius >= 0.0 ==>
              pointerBottom <= contentBottom + offsetY
  {
    var overflowY := OverflowY(contentBottom, innerHeight, cfg);
    if overflowY > 0.0 then
      var slid := -overflowY;
      var pointerPositionWRTContent := pointerBottom - (contentBottom + slid);
      if pointerPositionWRTContent > 0.0 then slid + pointerPositionWRTContent + cfg.contentRadius else slid
    else
      0.0
  }

  /** One placement: the two axes computed independently and put together. */
  function Place(content: Rect, pointer: Rect, innerWidth: real, innerHeight: real, cfg: Config): (r: PlacementResult)
    // no overflow on either axis: nothing moves and nothing is mirrored
    ensures !OverflowsRight(content.x, content.width, innerWidth, cfg) && OverflowY(content.Bottom(), innerHeight, cfg) <= 0.0 ==>
              r == Unmoved
    // a right overflow mirrors the pointer whatever happens vertically
    ensures r.pointerScaleX == -1.0 <==> OverflowsRight(content.x, content.width, innerWidth, cfg)
    ensures !OverflowsRight(content.x, content.width, innerWidth, cfg) ==>
              r.contentOffsetX == 0.0 && r.pointerOffsetX == 0.0 && r.pointerScaleX == 1.0
    ensures OverflowY(content.Bottom(), innerHeight, cfg) <= 0.0 ==> r.contentOffsetY == 0.0
  {
    var h := PlaceHorizontal(content.x, content.width, pointer.width, innerWidth, cfg);
    var offsetY := PlaceVertical(content.Bottom(), pointer.Bottom(), innerHeight, cfg);
    PlacementResult(h.contentOffsetX, offsetY, h.pointerOffsetX, h.pointerScaleX)
  }

  /** The horizontal outputs depend only on the content's left edge and width,
      the pointer's width, the window's width and the constants; the vertical
      output only on the two bottom edges, the window's height and the constants. */
  lemma AxisIndependence(c1: Rect, p1: Rect, w1: real, h1: real, c2: Rect, p2: Rect, w2: real, h2: real, cfg: Config)
    ensures c1.x == c2.x && c1.width == c2.width && p1.width == p2.width && w1 == w2 ==>
              var r1, r2 := Place(c1, p1, w1, h1, cfg), Place(c2, p2, w2, h2, cfg);
              r1.contentOffsetX == r2.contentOffsetX && r1.pointerOffsetX == r2.pointerOffsetX && r1.pointerScaleX == r2.pointerScaleX
    ensures c1.Bottom() == c2.Bottom() && p1.Bottom() == p2.Bottom() && h1 == h2 ==>
              Place(c1, p1, w1, h1, cfg).contentOffsetY == Place(c2, p2, w2, h2, cfg).contentOffsetY
  {
  }

  /** With an overflow and a pointer below the padding limit, the compensated
      content ends below that limit, and past the window's bottom edge exactly
      when the pointer's bottom lies within `contentRadius` of it or beyond. The
      content moves down rather than up exactly when the pointer's bottom plus
      `contentRadius` lies below the content's measured bottom. */
  lemma CompensationCanLeaveWindow(contentBottom: real, pointerBottom: real, innerHeight: real, cfg: Config)
    requires OverflowY(contentBottom, innerHeight, cfg) > 0.0
    requires pointerBottom > BottomLimit(innerHeight, cfg)
    ensures cfg.contentRadius >= 0.0 ==>
              contentBottom + PlaceVertical(contentBottom, pointerBottom, innerHeight, cfg) > BottomLimit(innerHeight, cfg)
    ensures contentBottom + PlaceVertical(contentBottom, pointerBottom, innerHeight, cfg) > innerHeight
            <==> pointerBottom > innerHeight - cfg.contentRadius
    ensures PlaceVertical(contentBottom, pointerBottom, innerHeight, cfg) > 0.0
            <==> pointerBottom + cfg.contentRadius > contentBottom
  {
  }

  /** Worked placements with the handler's constants, in a 1280 x 800 window
      unless stated otherwise. */
  lemma Scenarios()
    // fits on both axes
    ensures Place(Rect(100.0, 100.0, 200.0, 80.0), Rect(180.0, 180.0, 20.0, 10.0), 1280.0, 800.0, Default) == Unmoved
    // overflows the right edge with room for the full flip
    ensures Place(Rect(1150.0, 100.0, 200.0, 80.0), Rect(1130.0, 150.0, 20.0, 10.0), 1280.0, 800.0, Default)
            == PlacementResult(450.0, 0.0, -230.0, -1.0)
    // overflows the right edge too close to the left edge: clamped to the padding
    ensures Place(Rect(300.0, 100.0, 1000.0, 80.0), Rect(280.0, 150.0, 20.0, 10.0), 1280.0, 800.0, Default)
            == PlacementResult(284.0, 0.0, 736.0, -1.0)
    // overflows the bottom edge by 46 with the pointer well inside
    ensures Place(Rect(100.0, 750.0, 200.0, 80.0), Rect(180.0, 180.0, 20.0, 10.0), 1280.0, 800.0, Default)
            == PlacementResult(0.0, -46.0, 0.0, 1.0)
    // overflows the bottom edge with the pointer below the limit: bottom ends 15 under the pointer
    ensures Place(Rect(100.0, 750.0, 200.0, 80.0), Rect(80.0, 780.0, 20.0, 10.0), 1280.0, 800.0, Default)
            == PlacementResult(0.0, -25.0, 0.0, 1.0)
    // 600 x 800 window: a full flip leaves the left edge at 5, closer to the window's edge than the padding
    ensures Place(Rect(455.0, 100.0, 200.0, 80.0), Rect(435.0, 150.0, 20.0, 10.0), 600.0, 800.0, Default)
            == PlacementResult(450.0, 0.0, -230.0, -1.0)
    // pointer bottom at the window's edge: the compensated bottom ends at 815, past the 800 px window
    ensures Place(Rect(100.0, 750.0, 200.0, 80.0), Rect(80.0, 790.0, 20.0, 10.0), 1280.0, 800.0, Default)
            == PlacementResult(0.0, -15.0, 0.0, 1.0)
    // pointer bottom past the window's edge: the content moves down, not up
    ensures Place(Rect(100.0, 750.0, 200.0, 80.0), Rect(80.0, 820.0, 20.0, 10.0), 1280.0, 800.0, Default)
            == PlacementResult(0.0, 15.0, 0.0, 1.0)
    // pointer bottom past the window's edge but well above the content's bottom: the content still moves up
    ensures Place(Rect(100.0, 920.0, 200.0, 80.0), Rect(80.0, 800.0, 20.0, 10.0), 1280.0, 800.0, Default)
            == PlacementResult(0.0, -175.0, 0.0, 1.0)
  {
  }
}
