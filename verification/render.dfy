/** The transforms the handler writes, and the boxes they produce on screen.

    The content element gets `translate(-contentOffsetX px, contentOffsetY px)`
    and the pointer element gets `translate(pointerOffsetX px, 16px)
    scaleX(pointerScaleX)`. A horizontal scale of 1 or -1 about the element's
    centre (the default transform origin) keeps the element's extent and only
    mirrors its drawing. For an element carrying no transform when measured,
    the rendered box is therefore the measured box translated. The lemmas here
    are the placement's meaning stated on those rendered boxes.
 */
module Render {
  import opened Geometry
  import opened Placement

  /** A 2-D translation followed by a horizontal scale. */
  datatype Transform = Transform(translateX: real, translateY: real, scaleX: real)

  /** What is written to the content's and the pointer's `style.transform`. */
  datatype Transforms = Transforms(content: Transform, pointer: Transform)

  /** The fixed downward translation written for the pointer. */
  const PointerDrop: real := 16.0

  /** The two transforms written for a placement: the content moves left by
      its horizontal offset and down by its vertical one, unmirrored; the
      pointer moves right by its offset and down by the fixed drop, with the
      placement's mirror scale. */
  function ToTransforms(r: PlacementResult): (t: Transforms)
    ensures t.content.translateX == -r.contentOffsetX && t.content.translateY == r.contentOffsetY
    ensures t.content.scaleX == 1.0
    ensures t.pointer.translateX == r.pointerOffsetX && t.pointer.translateY == PointerDrop
    ensures t.pointer.scaleX == r.pointerScaleX
  {
    Transforms(
      Transform(-r.contentOffsetX, r.contentOffsetY, 1.0),
      Transform(r.pointerOffsetX, PointerDrop, r.pointerScaleX))
  }

  /** The on-screen box of an element with the given transform. */
  function Apply(box: Rect, t: Transform): Rect
    requires t.scaleX == 1.0 || t.scaleX == -1.0
  {
    Rect(box.x + t.translateX, box.y + t.translateY, box.width, box.height)
  }

  /** The rendered content box of a placement. */
  function RenderedContent(content: Rect, pointer: Rect, win: Window, cfg: Config): Rect {
    Apply(content, ToTransforms(Place(content, pointer, win.innerWidth, win.innerHeight, cfg)).content)
  }

  /** The rendered pointer box of a placement. */
  function RenderedPointer(content: Rect, pointer: Rect, win: Window, cfg: Config): Rect {
    Apply(pointer, ToTransforms(Place(content, pointer, win.innerWidth, win.innerHeight, cfg)).pointer)
  }

  /** The content overflows the right edge. */
  predicate Flipped(content: Rect, win: Window, cfg: Config) {
    OverflowsRight(content.x, content.width, win.innerWidth, cfg)
  }

  /** The content overflows the bottom edge. */
  predicate Slid(content: Rect, win: Window, cfg: Config) {
    OverflowY(content.Bottom(), win.innerHeight, cfg) > 0.0
  }

  /** Content is only ever translated; the pointer is mirrored exactly when the content is flipped. */
  lemma TransformShapes(content: Rect, pointer: Rect, win: Window, cfg: Config)
    ensures var t := ToTransforms(Place(content, pointer, win.innerWidth, win.innerHeight, cfg));
            && t.content.scaleX == 1.0
            && t.pointer.translateY == PointerDrop
            && (t.pointer.scaleX == -1.0 <==> Flipped(content, win, cfg))
            && (t.pointer.scaleX == 1.0 <==> !Flipped(content, win, cfg))
  {
  }

  /** When the content fits, it stays where it was laid out and the pointer
      only gets its fixed drop, unmirrored. */
  lemma FitLeavesLayout(content: Rect, pointer: Rect, win: Window, cfg: Config)
    requires !Flipped(content, win, cfg) && !Slid(content, win, cfg)
    ensures var rc := RenderedContent(content, pointer, win, cfg);
            rc.x == content.x && rc.y == content.y
    ensures var rp := RenderedPointer(content, pointer, win, cfg);
            rp.x == pointer.x && rp.y == pointer.y + PointerDrop
    ensures ToTransforms(Place(content, pointer, win.innerWidth, win.innerHeight, cfg)).pointer.scaleX == 1.0
  {
  }

  /** The pointer keeps its horizontal position relative to the content,
      except that a flip moves it across the content's width and its own. */
  lemma PointerFollowsContent(content: Rect, pointer: Rect, win: Window, cfg: Config)
    ensures var rc, rp := RenderedContent(content, pointer, win, cfg), RenderedPointer(content, pointer, win, cfg);
            rp.x - rc.x == pointer.x - content.x + (if Flipped(content, win, cfg) then content.width + pointer.width else 0.0)
  {
  }

  /** A pointer drawn against the content's left edge, pointing left to the
      anchor, is drawn after a flip against the content's right edge,
      mirrored so that it points right to the anchor. */
  lemma FlipMovesPointerToRightEdge(content: Rect, pointer: Rect, win: Window, cfg: Config)
    requires Flipped(content, win, cfg)
    requires pointer.Right() == content.x
    ensures RenderedPointer(content, pointer, win, cfg).x == RenderedContent(content, pointer, win, cfg).Right()
  {
  }

  /** A flipped content box either ends exactly one anchor column left of
      where it started, or starts exactly at the padding; either way it stays
      inside the window's left edge. */
  lemma FlipLandsLeftOfColumn(content: Rect, pointer: Rect, win: Window, cfg: Config)
    requires Flipped(content, win, cfg)
    requires cfg.screenPadding >= 0.0
    ensures var rc := RenderedContent(content, pointer, win, cfg);
            && rc.x >= 0.0
            && (content.x >= content.width + cfg.columnWidth ==> rc.Right() == content.x - cfg.columnWidth)
            && (content.x < content.width + cfg.columnWidth ==> rc.x == cfg.screenPadding)
  {
  }

  /** Where the content's bottom edge ends up after a vertical slide. */
  lemma SlideBottom(content: Rect, pointer: Rect, win: Window, cfg: Config)
    ensures !Slid(content, win, cfg) ==> RenderedContent(content, pointer, win, cfg).y == content.y
    ensures Slid(content, win, cfg) ==>
              RenderedContent(content, pointer, win, cfg).Bottom() ==
                (if pointer.Bottom() > BottomLimit(win.innerHeight, cfg) then pointer.Bottom() + cfg.contentRadius
                 else BottomLimit(win.innerHeight, cfg))
  {
  }

  /** After a slide the measured pointer lies no lower than the drawn
      content, with `contentRadius` to spare when the compensation was needed.
      The drawn pointer carries the fixed drop, so it ends up to `PointerDrop`
      below the drawn content, and exactly `PointerDrop - contentRadius` below
      it when the compensation was needed. */
  lemma SlideKeepsPointerAlongside(content: Rect, pointer: Rect, win: Window, cfg: Config)
    requires Slid(content, win, cfg)
    requires cfg.contentRadius >= 0.0
    ensures pointer.Bottom() <= RenderedContent(content, pointer, win, cfg).Bottom()
    ensures pointer.Bottom() > BottomLimit(win.innerHeight, cfg) ==>
              pointer.Bottom() + cfg.contentRadius == RenderedContent(content, pointer, win, cfg).Bottom()
    ensures RenderedPointer(content, pointer, win, cfg).Bottom() <= RenderedContent(content, pointer, win, cfg).Bottom() + PointerDrop
    ensures pointer.Bottom() > BottomLimit(win.innerHeight, cfg) ==>
              RenderedPointer(content, pointer, win, cfg).Bottom() - RenderedContent(content, pointer, win, cfg).Bottom()
              == PointerDrop - cfg.contentRadius
  {
  }

  /** Measuring a flipped content box again, with its transform applied, finds
      it no longer overflowing: a second placement undoes the flip. */
  lemma RemeasureUndoesFlip()
    ensures var content, pointer, win := Rect(1150.0, 100.0, 200.0, 80.0), Rect(1130.0, 150.0, 20.0, 10.0), Window(1280.0, 800.0);
            var first := RenderedContent(content, pointer, win, Default);
            && Place(content, pointer, win.innerWidth, win.innerHeight, Default).contentOffsetX == 450.0
            && first.x == 700.0
            && Place(first, pointer, win.innerWidth, win.innerHeight, Default).contentOffsetX == 0.0
  {
  }
}
