# Tooltip placement of the Hearthstone deck viewer

The deck viewer shows card tooltips next to an anchor column. A tooltip has a
content box and a small pointer (arrow) box drawn beside it, pointing left
at the anchor. When the Elm application sends a tooltip id through the
`fixTooltipPlacement` port, a JavaScript handler measures the two elements
`<id>-content` and `<id>-pointer`. It then moves them to keep the content
inside the window, as far as the pointer allows:

- **Horizontally**, if the content's right edge plus the 16 px screen padding
  passes the window's right edge, the content is flipped to the other side of
  the anchor. It moves left by its own width plus the 250 px column width. If
  it does not start that far from the left edge, it moves only far enough to
  start at the padding. The pointer is mirrored (`scaleX(-1)`) and moved along,
  so a pointer that was on the content's left edge ends up on its right edge,
  pointing back at the anchor.
- **Vertically**, independently, if the content's bottom plus the padding
  passes the window's bottom, the content slides up until its bottom sits at
  the padding. The slide does not move the pointer, which always gets the
  same fixed 16 px downward translation. If the measured pointer would then
  hang below the content, the content is moved back down so that its bottom
  lies 15 px (the corner radius) below the measured pointer's bottom; the
  pointer as drawn, 16 px lower, then ends 1 px below the drawn content.
  This compensation leaves the content's bottom below the padding limit, and
  past the window's bottom edge when the pointer's bottom lies lower than the
  window height minus the radius. The content ends up moving down rather
  than up exactly when the pointer's bottom plus the radius lies below the
  content's measured bottom
  (`Placement.CompensationCanLeaveWindow`, `Placement.Scenarios`).

The handler writes `translate(-contentOffsetX, contentOffsetY)` to the content
and `translate(pointerOffsetX, 16px) scaleX(pointerScaleX)` to the pointer. If
either element is missing, it does nothing.

The project has four modules:

- `Geometry` (geometry.dfy): rectangles, the window, the constants.
- `Placement` (placement.dfy): the two per-axis decisions and the combined
  placement, each with a contract stating the decision's geometric meaning.
- `Render` (render.dfy): the transforms written and the boxes they produce on
  screen. The placement's meaning is stated again on those rendered boxes: the
  content stays put when it fits, the pointer switches edges on a flip, and so on.
- `Port` (port.dfy): the handler as the port sees it. It covers element ids
  built from the tooltip id, the element lookup as an `Option`, the early
  return when an element is missing, the styles written, and a stream of
  messages. Tooltips with different ids never touch each other's elements, so
  against a page whose measured boxes stay fixed the order of messages does
  not matter. A repeated message for one tooltip is a different matter in the
  browser: it re-measures the box the first message moved
  (`Render.RemeasureUndoesFlip`).

JavaScript numbers are doubles. The placement only adds, subtracts and
compares them, so they are modelled as `real`.

index.js:79-81 adds `pointerPositionWRTContent + contentRadius` to the
vertical offset. Since y grows downward, this moves the content back down.
`Placement.PlaceVertical` proves, for a non-negative radius, `contentOffsetY >= -overflowY`, and
strictly greater when the compensation applies.

The model also shows that a full flip (across the content width and the
column) can leave the flipped content starting closer to the window's left
edge than the padding, but never left of it: in a 600 px window a 200 px box
at x = 455 flips to x = 5 (`Placement.Scenarios`). Only the clamped flip
is guaranteed to start exactly at the padding. The code's own comment promises only that the content does not overflow to the left, and
`PlaceHorizontal` proves that (for a non-negative padding).

## Model

| member | source | states |
|---|---|---|
| Placement.PlaceHorizontal | index.js:57-70 | Nothing moves exactly when the content fits horizontally. The pointer is mirrored (scale -1) exactly when the content is flipped. A flip moves the content by its width plus the column width when the content's left edge is at least that far from the window's left; otherwise it puts the flipped left edge exactly at the padding. With a non-negative padding, the flipped content never starts left of the window and never moves further than the width plus the column. The pointer's offset plus the content's offset is the content width plus the pointer width. |
| Placement.PlaceVertical | index.js:72-83 | No vertical offset without a bottom overflow. With an overflow, the content's new bottom is exactly the padding limit when the pointer's bottom is not below that limit. When the pointer's bottom is below it, the new bottom is the pointer's bottom plus the corner radius. With a non-negative radius, the offset is never more upward than the overflow (strictly less upward when compensating), and the pointer never hangs below the slid content. |
| Placement.Place | index.js:41-83 | No overflow on either axis gives offsets 0/0/0 and scale 1. The pointer scale is -1 exactly when the content overflows the right edge, whatever happens vertically. Without a right overflow the horizontal outputs are 0/0/1. Without a bottom overflow the vertical offset is 0. |
| Placement.AxisIndependence | index.js:57-83 | The horizontal outputs depend only on the content's left edge and width, the pointer's width, the window width and the constants. The vertical offset depends only on the two bottom edges, the window height and the constants. |
| Placement.CompensationCanLeaveWindow | index.js:72-83 | When the content overflows the bottom and the pointer's bottom is below the padding limit, a non-negative radius leaves the content's bottom below that limit. The content's bottom ends past the window's bottom edge exactly when the pointer's bottom is lower than the window height minus the radius. The content moves down rather than up exactly when the pointer's bottom plus the radius is lower than the content's measured bottom. |
| Placement.Scenarios | index.js:52-83 | Concrete placements with the handler's constants, in a 1280 x 800 window unless stated: one that fits, a full flip (450 px), a clamped flip (left edge at 16), a plain slide (-46) and a compensated slide (-25). In a 600 px wide window a full flip leaves the left edge at 5, inside the padding. A pointer bottom at the window's edge leaves the content's bottom at 815, past the 800 px window. A pointer bottom at 830 moves the content 15 px down. A pointer bottom at 810, past the window but well above a content bottom at 1000, still moves the content 175 px up. |
| Render.ToTransforms | index.js:85-91 | The content's transform translates by minus the horizontal offset and by the vertical offset, with scale 1. The pointer's transform translates by the pointer offset and the fixed 16 px drop, with the placement's mirror scale. |
| Render.TransformShapes | index.js:85-91 | The content is only translated (scale 1). The pointer always gets the fixed 16 px downward translation. The pointer is mirrored exactly when the content is flipped. |
| Render.FitLeavesLayout | index.js:52-91 | When the content fits on both axes, it is drawn exactly where it was laid out. The pointer is drawn at its own place, 16 px lower, not mirrored. |
| Render.PointerFollowsContent | index.js:63-69 | The pointer keeps its horizontal distance to the drawn content. A flip adds the content's width plus the pointer's width to that distance. |
| Render.FlipMovesPointerToRightEdge | index.js:63-69 | A pointer that touches the content's left edge is drawn, after a flip, touching the drawn content's right edge. |
| Render.FlipLandsLeftOfColumn | index.js:62-66 | With a non-negative padding, flipped content starts inside the window. Its right edge lands exactly one column width left of where its left edge was when there is room. Otherwise its left edge lands exactly at the padding. |
| Render.SlideBottom | index.js:73-83 | Without a bottom overflow the content keeps its top. With one, the drawn content's bottom is the pointer's bottom plus the radius if the pointer's bottom is below the padding limit, and the padding limit otherwise. |
| Render.SlideKeepsPointerAlongside | index.js:77-91 | After a slide with a non-negative radius, the measured pointer's bottom is never below the drawn content's bottom, and when the compensation applied it lies exactly the corner radius above it. The drawn pointer, 16 px lower, ends at most 16 px below the drawn content's bottom, and exactly 16 px minus the radius (1 px with the handler's constants) below it when the compensation applied. |
| Render.RemeasureUndoesFlip | index.js:41-91 | A content box at x = 1150, 200 wide, in a 1280-wide window is flipped by 450 px; measured again with that transform applied (x = 700) it no longer overflows, so a second message writes a zero horizontal offset and the flip is gone. |
| Port.ContentIdInjective | index.js:36 | Different tooltip ids name different content elements. |
| Port.PointerIdInjective | index.js:37 | Different tooltip ids name different pointer elements. |
| Port.ContentIsNotPointer | index.js:36-37 | No tooltip's content element id equals any tooltip's pointer element id. |
| Port.ElementIdsDistinct | index.js:36-37 | The three facts above, for all ids at once. |
| Port.Measure | index.js:36-47 | An element is measured exactly when its id is on the page, and then its box is the page's box for that id. |
| Port.Fix | index.js:36-91 | No transforms unless both elements were found. Otherwise the content's transform is the negated horizontal offset with the vertical offset, and the pointer's is the pointer offset with the 16 px drop and the mirror scale. |
| Port.HandleMessage | index.js:31-93 | A message for a tooltip missing either element leaves every style as it was. Otherwise exactly the tooltip's two elements gain their placement transforms, and every other element keeps its style. |
| Port.HandleAll | index.js:31-32 | A stream of port messages, each handled in order against the same page. No style written earlier is ever removed. What the stream writes is stated by `Port.HandleAllFrame`, `Port.HandleAllStyles` and `Port.MessageOrderIrrelevant`. |
| Port.HandleAllFrame | index.js:31-93 | After a stream of messages, an element has a style exactly if it had one before or belongs to a ready tooltip of the stream. Every element not belonging to one keeps its old style. |
| Port.HandleAllStyles | index.js:31-93 | Against a page whose measured boxes stay fixed, every ready tooltip of a stream ends with its own placement transforms, whatever messages come after it. |
| Port.HandleAllElement | index.js:31-93 | Against a page whose measured boxes stay fixed, an element already carrying its tooltip's transforms keeps them through any later stream. |
| Port.SameStyle | index.js:31-93 | Against a page whose measured boxes stay fixed, two streams with the same set of tooltip ids give each element the same style. |
| Port.MessageOrderIrrelevant | index.js:31-93 | Against a page whose measured boxes stay fixed, handling the same set of tooltip ids in any order, and with repetitions, leaves the same styles. |

## Left out

- Elm application start-up (index.js:1-6): wiring of the UI shell, no logic of its own.
- Deck decoding (index.js:8-11): a call into the `deckstrings` library, which is not part of this model.
- Clipboard copy (index.js:13-29): DOM and platform I/O. Its only logic is a try/catch that logs a failure.
- `requestAnimationFrame` (index.js:32): frame scheduling belongs to the caller. The model computes what the deferred callback computes.
- Element lookup and measurement (index.js:36-51): modelled as a snapshot of the page, a map from element id to measured box. The browser's `getBoundingClientRect` includes any transform already applied to the element, so re-measuring a tooltip the handler has already moved can give different boxes. The page is therefore fixed for a whole message stream, and `Port.HandleAllStyles` and `Port.MessageOrderIrrelevant` are about a page whose measured boxes do not change between messages.
- Port.HandleAllElement: holds for a page whose measured boxes stay fixed. In the browser a later message for the same id re-measures the moved box and may write different transforms (`Render.RemeasureUndoesFlip`), so the handler is not idempotent.
- Port.SameStyle: holds for a page whose measured boxes stay fixed. Streams that repeat an id re-measure moved boxes in the browser, so they need not agree with the stream that does not repeat it.
- Port.MessageOrderIrrelevant: holds for a page whose measured boxes stay fixed. Order between different tooltips does not matter, but in the browser a repeated message re-measures its own earlier transform, so repetitions can change the result (`Render.RemeasureUndoesFlip`).
- Render.FitLeavesLayout: holds only for an element carrying no transform when measured. A box measured with an earlier transform applied is drawn relative to its untransformed layout, not to the measured box.
- Render.PointerFollowsContent: holds only for elements carrying no transform when measured.
- Render.FlipMovesPointerToRightEdge: holds only for elements carrying no transform when measured.
- Render.FlipLandsLeftOfColumn: holds only for a content element carrying no transform when measured.
- Render.SlideBottom: holds only for a content element carrying no transform when measured.
- Render.SlideKeepsPointerAlongside: the drawn pointer assumes the measured pointer carried no earlier transform. If it already carried the 16 px drop, the measured bottom is the drawn one.
- Port.HandleAllStyles: holds for a page whose measured boxes, and a window whose size, stay fixed for the whole stream. A resize or a re-measured moved box between messages is not modelled.
- CSS transform strings and the `style.transform` writes (index.js:85-91): modelled as the numbers written, not the text. A scale of 1 or -1 about the element's centre keeps its box, so for an element carrying no transform when measured, a drawn box is the measured box translated.
- Floating point: doubles are modelled as `real`, so rounding in the additions is not modelled.
