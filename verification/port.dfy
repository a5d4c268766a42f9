/** The `fixTooltipPlacement` port handler.

    Each message names a tooltip id. The handler looks up the elements
    `<id>-content` and `<id>-pointer`; when either is missing it does nothing,
    otherwise it measures both, computes the placement with the handler's
    constants and writes the two transforms. The page is modelled as a snapshot
    of the elements present with their measured boxes, and the written styles
    as a map from element id to transform.
 */
module Port {
  import opened Geometry
  import opened Placement
  import opened Render

  /** The element an id may or may not name. */
  datatype Option<T> = None | Some(value: T)

  /** Element ids of the elements present, with their measured boxes. */
  type Page = map<string, Rect>

  /** The transform written to each element so far. */
  type Styles = map<string, Transform>

  function ContentId(id: string): string {
    id + "-content"
  }

  function PointerId(id: string): string {
    id + "-pointer"
  }

  /** Two tooltips with different ids never share their content element. */
  lemma ContentIdInjective(a: string, b: string)
    ensures ContentId(a) == ContentId(b) ==> a == b
  {
    if ContentId(a) == ContentId(b) {
      assert |a| == |b|;
      assert a == ContentId(a)[..|a|];
    }
  }

  /** Two tooltips with different ids never share their pointer element. */
  lemma PointerIdInjective(a: string, b: string)
    ensures PointerId(a) == PointerId(b) ==> a == b
  {
    if PointerId(a) == PointerId(b) {
      assert |a| == |b|;
      assert a == PointerId(a)[..|a|];
    }
  }

  /** No tooltip's content element is any tooltip's pointer element: the two
      names end in different letters. */
  lemma ContentIsNotPointer(a: string, b: string)
    ensures ContentId(a) != PointerId(b)
  {
    if |a| == |b| {
      assert ContentId(a)[|a| + 7] == 't';
      assert PointerId(b)[|b| + 7] == 'r';
    } else {
      assert |ContentId(a)| != |PointerId(b)|;
    }
  }

  /** The element ids of different tooltips, and of one tooltip's two
      elements, never coincide. */
  lemma ElementIdsDistinct()
    ensures forall a, b :: ContentId(a) == ContentId(b) ==> a == b
    ensures forall a, b :: PointerId(a) == PointerId(b) ==> a == b
    ensures forall a, b :: ContentId(a) != PointerId(b)
  {
    forall a, b ensures ContentId(a) == ContentId(b) ==> a == b {
      ContentIdInjective(a, b);
    }
    forall a, b ensures PointerId(a) == PointerId(b) ==> a == b {
      PointerIdInjective(a, b);
    }
    forall a, b ensures ContentId(a) != PointerId(b) {
      ContentIsNotPointer(a, b);
    }
  }

  /** `getElementById` followed by `getBoundingClientRect`. */
  function Measure(page: Page, elementId: string): (m: Option<Rect>)
    ensures m.Some? <==> elementId in page
    ensures m.Some? ==> m.value == page[elementId]
  {
    if elementId in page then Some(page[elementId]) else None
  }

  /** The handler body on the two lookups: nothing is computed unless both
      elements exist; otherwise the transforms of the placement. */
  function Fix(content: Option<Rect>, pointer: Option<Rect>, win: Window, cfg: Config): (t: Option<Transforms>)
    ensures t.None? <==> content.None? || pointer.None?
    ensures t.Some? ==>
              var r := Place(content.value, pointer.value, win.innerWidth, win.innerHeight, cfg);
              && t.value.content == Transform(-r.contentOffsetX, r.contentOffsetY, 1.0)
              && t.value.pointer == Transform(r.pointerOffsetX, PointerDrop, r.pointerScaleX)
  {
    if content.None? || pointer.None? then None
    else Some(ToTransforms(Place(content.value, pointer.value, win.innerWidth, win.innerHeight, cfg)))
  }

  /** Both of a tooltip's elements are on the page. */
  predicate Ready(page: Page, id: string) {
    ContentId(id) in page && PointerId(id) in page
  }

  /** The transforms a ready tooltip receives. */
  function Expected(page: Page, id: string, win: Window): Transforms
    requires Ready(page, id)
  {
    ToTransforms(Place(page[ContentId(id)], page[PointerId(id)], win.innerWidth, win.innerHeight, Default))
  }

  /** One message: the styles after handling tooltip `id`. */
  function HandleMessage(page: Page, styles: Styles, id: string, win: Window): (styles': Styles)
    ensures !Ready(page, id) ==> styles' == styles
    ensures Ready(page, id) ==> styles'.Keys == styles.Keys + {ContentId(id), PointerId(id)}
    ensures Ready(page, id) ==>
              && styles'[ContentId(id)] == Expected(page, id, win).content
              && styles'[PointerId(id)] == Expected(page, id, win).pointer
    // no other element's style changes
    ensures forall k :: k in styles && k != ContentId(id) && k != PointerId(id) ==> k in styles' && styles'[k] == styles[k]
  {
    ContentIsNotPointer(id, id);
    match Fix(Measure(page, ContentId(id)), Measure(page, PointerId(id)), win, Default)
    case None => styles
    case Some(t) => styles[ContentId(id) := t.content][PointerId(id) := t.pointer]
  }

  /** Element `k` belongs to one of the ready tooltips among `ids`. */
  ghost predicate Touched(page: Page, ids: seq<string>, k: string) {
    exists i :: 0 <= i < |ids| && Ready(page, ids[i]) && (k == ContentId(ids[i]) || k == PointerId(ids[i]))
  }

  /** A stream of messages handled in order against one measured page. */
  function HandleAll(page: Page, styles: Styles, ids: seq<string>, win: Window): (styles': Styles)
    // a style, once written, is never removed
    ensures styles.Keys <= styles'.Keys
    decreases |ids|
  {
    if |ids| == 0 then styles
    else HandleAll(page, HandleMessage(page, styles, ids[0], win), ids[1..], win)
  }

  /** The elements a stream touches: those of its first message and those of the rest. */
  lemma TouchedFirstOrRest(page: Page, ids: seq<string>, k: string)
    requires |ids| > 0
    ensures Touched(page, ids, k) <==>
              (Ready(page, ids[0]) && (k == ContentId(ids[0]) || k == PointerId(ids[0]))) || Touched(page, ids[1..], k)
  {
  }

  /** Only the elements of ready tooltips gain a style, and every other
      element keeps the style it had. */
  lemma {:induction false} HandleAllFrame(page: Page, styles: Styles, ids: seq<string>, win: Window, k: string)
    ensures k in HandleAll(page, styles, ids, win) <==> k in styles || Touched(page, ids, k)
    ensures k in styles && !Touched(page, ids, k) ==> HandleAll(page, styles, ids, win)[k] == styles[k]
    decreases |ids|
  {
    if |ids| > 0 {
      TouchedFirstOrRest(page, ids, k);
      HandleAllFrame(page, HandleMessage(page, styles, ids[0], win), ids[1..], win, k);
    }
  }

  /** Every ready tooltip in a stream ends up with its own transforms,
      whatever messages come after it. */
  lemma {:induction false} HandleAllStyles(page: Page, styles: Styles, ids: seq<string>, win: Window, i: int)
    requires 0 <= i < |ids| && Ready(page, ids[i])
    ensures ContentId(ids[i]) in HandleAll(page, styles, ids, win)
    ensures HandleAll(page, styles, ids, win)[ContentId(ids[i])] == Expected(page, ids[i], win).content
    ensures PointerId(ids[i]) in HandleAll(page, styles, ids, win)
    ensures HandleAll(page, styles, ids, win)[PointerId(ids[i])] == Expected(page, ids[i], win).pointer
    decreases |ids|, 0
  {
    var first := HandleMessage(page, styles, ids[0], win);
    var rest := ids[1..];
    assert HandleAll(page, styles, ids, win) == HandleAll(page, first, rest, win);
    if i > 0 {
      assert rest[i - 1] == ids[i];
      HandleAllStyles(page, first, rest, win, i - 1);
    } else {
      HandleAllElement(page, first, rest, win, ids[0], ContentId(ids[0]));
      HandleAllElement(page, first, rest, win, ids[0], PointerId(ids[0]));
    }
  }

  /** An element of tooltip `id`, styled for `id` before a stream, is styled
      for `id` after it: a later message either leaves it alone or rewrites
      the same transform. */
  lemma {:induction false} HandleAllElement(page: Page, styles: Styles, ids: seq<string>, win: Window, id: string, k: string)
    requires Ready(page, id)
    requires k == ContentId(id) || k == PointerId(id)
    requires k in styles && styles[k] == (if k == ContentId(id) then Expected(page, id, win).content else Expected(page, id, win).pointer)
    ensures k in HandleAll(page, styles, ids, win) && HandleAll(page, styles, ids, win)[k] == styles[k]
    decreases |ids|, 1
  {
    HandleAllFrame(page, styles, ids, win, k);
    if Touched(page, ids, k) {
      var j :| 0 <= j < |ids| && Ready(page, ids[j]) && (k == ContentId(ids[j]) || k == PointerId(ids[j]));
      ElementIdsDistinct();
      assert ids[j] == id;
      HandleAllStyles(page, styles, ids, win, j);
    }
  }

  /** Tooltips do not interfere: handling the same set of ids, in any order
      and with any repetitions, leaves the same styles. */
  lemma MessageOrderIrrelevant(page: Page, styles: Styles, ids1: seq<string>, ids2: seq<string>, win: Window)
    requires forall id :: id in ids1 <==> id in ids2
    ensures HandleAll(page, styles, ids1, win) == HandleAll(page, styles, ids2, win)
  {
    var s1, s2 := HandleAll(page, styles, ids1, win), HandleAll(page, styles, ids2, win);
    forall k ensures k in s1 <==> k in s2 {
      SameStyle(page, styles, ids1, ids2, win, k);
    }
    forall k | k in s1 ensures s1[k] == s2[k] {
      SameStyle(page, styles, ids1, ids2, win, k);
    }
    assert s1.Keys == s2.Keys;
  }

  /** One element's style after two streams with the same ids. */
  lemma SameStyle(page: Page, styles: Styles, ids1: seq<string>, ids2: seq<string>, win: Window, k: string)
    requires forall id :: id in ids1 <==> id in ids2
    ensures k in HandleAll(page, styles, ids1, win) <==> k in HandleAll(page, styles, ids2, win)
    ensures k in HandleAll(page, styles, ids1, win) ==>
              HandleAll(page, styles, ids1, win)[k] == HandleAll(page, styles, ids2, win)[k]
  {
    HandleAllFrame(page, styles, ids1, win, k);
    HandleAllFrame(page, styles, ids2, win, k);
    TouchedSameIds(page, ids1, ids2, k);
    TouchedSameIds(page, ids2, ids1, k);
    if Touched(page, ids1, k) {
      var i :| 0 <= i < |ids1| && Ready(page, ids1[i]) && (k == ContentId(ids1[i]) || k == PointerId(ids1[i]));
      assert ids1[i] in ids2;
      var j :| 0 <= j < |ids2| && ids2[j] == ids1[i];
      HandleAllStyles(page, styles, ids1, win, i);
      HandleAllStyles(page, styles, ids2, win, j);
    }
  }

  /** An element touched by one stream is touched by any stream holding all of its ids. */
  lemma TouchedSameIds(page: Page, ids1: seq<string>, ids2: seq<string>, k: string)
    requires forall id :: id in ids1 ==> id in ids2
    ensures Touched(page, ids1, k) ==> Touched(page, ids2, k)
  {
    if Touched(page, ids1, k) {
      var i :| 0 <= i < |ids1| && Ready(page, ids1[i]) && (k == ContentId(ids1[i]) || k == PointerId(ids1[i]));
      assert ids1[i] in ids2;
      var j :| 0 <= j < |ids2| && ids2[j] == ids1[i];
    }
  }
}
