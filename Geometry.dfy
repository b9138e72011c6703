/**
 * Viewport geometry and element lookup (packages/react-railway/src/Railway.utils.ts).
 *
 * Rectangles are only ever compared, never computed, so their coordinates are
 * integers. The DOM is an abstract document: a sequence of elements, each
 * possibly tagged with a station id, in document order.
 */
module Geometry {
  import opened Wrappers

  /** A bounding client rectangle, in viewport coordinates (y grows downwards). */
  datatype Rect = Rect(top: int, left: int, bottom: int, right: int)

  /** A rectangle whose edges are in order. */
  predicate WellFormed(r: Rect) {
    r.left <= r.right && r.top <= r.bottom
  }

  /**
   * What the browser reports about the viewport: the window's inner size and
   * the document element's client size. A window that reports 0 is replaced by
   * the client size, as JavaScript's `||` does.
   */
  datatype Viewport = Viewport(innerWidth: nat, innerHeight: nat, clientWidth: nat, clientHeight: nat)

  function ViewWidth(vp: Viewport): (w: nat)
    ensures w == vp.innerWidth || w == vp.clientWidth
    ensures vp.innerWidth != 0 ==> w == vp.innerWidth
    ensures w == 0 <==> vp.innerWidth == 0 && vp.clientWidth == 0
  {
    if vp.innerWidth != 0 then vp.innerWidth else vp.clientWidth
  }

  function ViewHeight(vp: Viewport): (h: nat)
    ensures h == vp.innerHeight || h == vp.clientHeight
    ensures vp.innerHeight != 0 ==> h == vp.innerHeight
    ensures h == 0 <==> vp.innerHeight == 0 && vp.clientHeight == 0
  {
    if vp.innerHeight != 0 then vp.innerHeight else vp.clientHeight
  }

  /**
   * `isFullyInView(rect, pad = 0)`: every edge at least `pad` inside the
   * viewport; a well-formed rectangle that passes fits, in both directions, in
   * the viewport shrunk by `pad` on every side.
   */
  function IsFullyInView(r: Rect, vp: Viewport, pad: int := 0): (b: bool)
    ensures b && WellFormed(r) ==>
      && r.bottom - r.top <= ViewHeight(vp) - 2 * pad
      && r.right - r.left <= ViewWidth(vp) - 2 * pad
  {
    && r.top >= pad
    && r.left >= pad
    && r.bottom <= ViewHeight(vp) - pad
    && r.right <= ViewWidth(vp) - pad
  }

  /** The point (x, y) lies in the closed box with corners (x0, y0) and (x1, y1). */
  predicate InBox(x: int, y: int, x0: int, y0: int, x1: int, y1: int) {
    x0 <= x <= x1 && y0 <= y <= y1
  }

  /** Every point of `r` lies in the closed box with corners (x0, y0) and (x1, y1). */
  ghost predicate ContainedIn(r: Rect, x0: int, y0: int, x1: int, y1: int) {
    forall x, y :: InBox(x, y, r.left, r.top, r.right, r.bottom) ==> InBox(x, y, x0, y0, x1, y1)
  }

  /**
   * The four edge comparisons say exactly that the rectangle, as a set of
   * points, lies inside the viewport shrunk by `pad` on every side.
   */
  lemma FullyInViewIffContained(r: Rect, vp: Viewport, pad: int)
    requires WellFormed(r)
    ensures IsFullyInView(r, vp, pad)
        <==> ContainedIn(r, pad, pad, ViewWidth(vp) - pad, ViewHeight(vp) - pad)
  {
    if ContainedIn(r, pad, pad, ViewWidth(vp) - pad, ViewHeight(vp) - pad) {
      assert InBox(r.left, r.top, r.left, r.top, r.right, r.bottom);
      assert InBox(r.right, r.bottom, r.left, r.top, r.right, r.bottom);
    }
  }

  /** Omitting the padding asks for containment in the whole viewport. */
  lemma DefaultPaddingIsWholeViewport(r: Rect, vp: Viewport)
    requires WellFormed(r)
    ensures IsFullyInView(r, vp) <==> ContainedIn(r, 0, 0, ViewWidth(vp), ViewHeight(vp))
  {
    FullyInViewIffContained(r, vp, 0);
  }

  /** Each edge comparison is monotone in the padding: less padding never hurts. */
  lemma FullyInViewAntitoneInPadding(r: Rect, vp: Viewport, pad: int, smaller: int)
    requires smaller <= pad
    requires IsFullyInView(r, vp, pad)
    ensures IsFullyInView(r, vp, smaller)
  {
  }

  /** An element of the document, with the value of its `data-railway-station` attribute, if any. */
  datatype Element = Element(station: Option<string>, rect: Rect)

  /** The live document, elements in document order. */
  type Document = seq<Element>

  /** The element matches the selector `[data-railway-station="<id>"]`. */
  predicate Carries(e: Element, id: string) {
    e.station == Some(id)
  }

  /** `k` is the first position in document order whose element carries `id`. */
  ghost predicate FirstCarrier(doc: Document, id: string, k: int) {
    0 <= k < |doc| && Carries(doc[k], id) && forall j :: 0 <= j < k ==> !Carries(doc[j], id)
  }

  /** `document.querySelector`: the position of the first matching element, or none. */
  function QuerySelector(doc: Document, id: string): (r: Option<nat>)
    ensures r.None? <==> forall k :: 0 <= k < |doc| ==> !Carries(doc[k], id)
    ensures r.Some? ==> FirstCarrier(doc, id, r.value)
  {
    if |doc| == 0 then None
    else if Carries(doc[0], id) then Some(0)
    else match QuerySelector(doc[1..], id)
      case None => None
      case Some(k) => Some(k + 1)
  }

  /**
   * `measureOnce(stationId)`: none when no element carries the id, otherwise the
   * bounding rectangle of the first element that does. The wait for the next
   * animation frame is not modelled: `doc` is the layout at that frame.
   */
  function MeasureOnce(doc: Document, stationId: string): (r: Option<Rect>)
    ensures r.None? <==> forall k :: 0 <= k < |doc| ==> !Carries(doc[k], stationId)
    ensures r.Some? ==> exists k :: FirstCarrier(doc, stationId, k) && r.value == doc[k].rect
  {
    match QuerySelector(doc, stationId)
    case None => None
    case Some(k) => Some(doc[k].rect)
  }
}
