/** Where a watched target lies in document coordinates, and the four
    visibility flags derived from that and the viewport window. */
module Geometry {
  import opened Wrappers

  /** A live object the caller passes as a target (an element, or a plain
      object with `top` and `bottom` fields) is named by an id; what can be
      read from it at a given moment is supplied by a `Layout`. */
  type ObjectId = nat

  /** The viewport-relative bounding rectangle of an element (its
      `getBoundingClientRect`), vertical extent only. */
  datatype Rect = Rect(top: int, bottom: int)

  /** What every target object reports at the moment of measurement: an
      element's bounding client rectangle, or a region object's current
      `top` and `bottom` fields (document coordinates). */
  type Layout = ObjectId -> Rect

  /** What a watcher watches: a live element; a number (a positive one is a
      distance from the document top, a non-positive one is anchored to the
      document height); or a caller-managed object whose `top` and `bottom`
      fields are read afresh at every relocation. */
  datatype Target = Element(id: ObjectId) | Number(n: int) | Region(id: ObjectId)

  /** Padding taken off the top and added to the bottom of a target. */
  datatype Offsets = Offsets(top: int, bottom: int)

  /** The offsets argument as a caller may give it: nothing (or any falsy
      value), one number for both edges, or an object whose fields may be
      missing or falsy. */
  datatype OffsetsArg = Unspecified | Uniform(n: int) | PerEdge(top: Option<int>, bottom: Option<int>)

  /** The constructor's normalisation of the offsets argument. */
  function NormaliseOffsets(arg: OffsetsArg): (o: Offsets)
    ensures arg.Unspecified? ==> o == Offsets(0, 0)
    ensures arg.Uniform? ==> o == Offsets(arg.n, arg.n)
    ensures arg.PerEdge? ==> o == Offsets(arg.top.GetOr(0), arg.bottom.GetOr(0))
  {
    match arg
    case Unspecified => Offsets(0, 0)
    case Uniform(n) =>
      // 0 is falsy and takes the default branch, which is {0, 0} as well
      if n == 0 then Offsets(0, 0) else Offsets(n, n)
    case PerEdge(t, b) =>
      // a field that is 0 is falsy and replaced by the default 0
      Offsets(if t.Some? && t.value != 0 then t.value else 0,
              if b.Some? && b.value != 0 then b.value else 0)
  }

  /** Document-coordinate bounds of a watcher, offsets applied. */
  datatype Location = Location(top: int, bottom: int, height: int)

  /** The bounds of a target before offsets: an element's rectangle moved
      into document coordinates by the scroll offset; a positive number
      as a zero-height line at that distance; a non-positive number `n` at
      `documentHeight - n`; a region object's fields as they are now. */
  function RawBounds(target: Target, viewportTop: int, documentHeight: int, layout: Layout): (r: Rect)
    ensures target.Number? ==> r.top == r.bottom
    ensures target.Number? && target.n <= 0 ==> r.top >= documentHeight
    ensures target.Element? ==> r.bottom - r.top == layout(target.id).bottom - layout(target.id).top
    ensures target.Region? ==> r == layout(target.id)
  {
    match target
    case Element(id) => Rect(layout(id).top + viewportTop, layout(id).bottom + viewportTop)
    case Number(n) =>
      if n > 0 then Rect(n, n) else Rect(documentHeight - n, documentHeight - n)
    case Region(id) => Rect(layout(id).top, layout(id).bottom)
  }

  /** The location `recalculateLocation` computes: the raw bounds widened by
      the offsets, and the height they span. */
  function Locate(target: Target, offsets: Offsets, viewportTop: int, documentHeight: int, layout: Layout): (loc: Location)
    ensures target.Element? ==>
              loc.top == layout(target.id).top + viewportTop - offsets.top &&
              loc.bottom == layout(target.id).bottom + viewportTop + offsets.bottom
    ensures target.Number? && target.n > 0 ==>
              loc.top == target.n - offsets.top && loc.bottom == target.n + offsets.bottom
    ensures target.Number? && target.n <= 0 ==>
              loc.top == documentHeight - target.n - offsets.top &&
              loc.bottom == documentHeight - target.n + offsets.bottom
    ensures target.Region? ==>
              loc.top == layout(target.id).top - offsets.top && loc.bottom == layout(target.id).bottom + offsets.bottom
    ensures loc.height == loc.bottom - loc.top
    ensures var raw := RawBounds(target, viewportTop, documentHeight, layout);
            loc.height == raw.bottom - raw.top + offsets.top + offsets.bottom
  {
    var raw := RawBounds(target, viewportTop, documentHeight, layout);
    var top := raw.top - offsets.top;
    var bottom := raw.bottom + offsets.bottom;
    Location(top, bottom, bottom - top)
  }

  /** An element's document location does not depend on how far the
      viewport is scrolled: scrolling by `d` moves its client rectangle by
      `-d` and the viewport top by `d`. */
  lemma ElementLocationIgnoresScroll(id: ObjectId, offsets: Offsets, viewportTop: int, d: int,
                                     documentHeight: int, before: Layout, after: Layout)
    requires after(id) == Rect(before(id).top - d, before(id).bottom - d)
    ensures Locate(Element(id), offsets, viewportTop + d, documentHeight, after)
         == Locate(Element(id), offsets, viewportTop, documentHeight, before)
  {
  }

  /** A non-positive number target moves with the document height, one for
      one; a positive one does not move at all. */
  lemma NumberTargetFollowsDocumentHeight(n: int, offsets: Offsets, viewportTop: int,
                                          h1: int, h2: int, layout: Layout)
    ensures var a := Locate(Number(n), offsets, viewportTop, h1, layout);
            var b := Locate(Number(n), offsets, viewportTop, h2, layout);
            if n > 0 then a == b
            else b.top - a.top == h2 - h1 && b.bottom - a.bottom == h2 - h1
  {
  }

  /** A region is wherever its object's fields say at the moment of
      relocation: neither the scroll offset nor the document height plays
      a part. */
  lemma RegionFollowsItsFields(id: ObjectId, offsets: Offsets, viewportTop1: int, viewportTop2: int,
                               h1: int, h2: int, layout: Layout)
    ensures Locate(Region(id), offsets, viewportTop1, h1, layout)
         == Locate(Region(id), offsets, viewportTop2, h2, layout)
  {
  }

  /** A number target is a line: its height is the two offsets together. */
  lemma NumberTargetHeight(n: int, offsets: Offsets, viewportTop: int, documentHeight: int, layout: Layout)
    ensures Locate(Number(n), offsets, viewportTop, documentHeight, layout).height == offsets.top + offsets.bottom
  {
  }

  /** The four booleans `update` derives. */
  datatype Flags = Flags(inViewport: bool, fullyInViewport: bool, aboveViewport: bool, belowViewport: bool)

  /** The flags of a watcher spanning `[top, bottom]` against the viewport
      window `[viewportTop, viewportBottom]`. Fully-in means contained, or
      sticking out past both edges at once. */
  function ComputeFlags(top: int, bottom: int, viewportTop: int, viewportBottom: int): (f: Flags)
    ensures f.fullyInViewport && f.aboveViewport ==> f.belowViewport
    ensures top <= bottom && viewportTop <= viewportBottom ==>
              (f.fullyInViewport ==> f.inViewport) &&
              (f.aboveViewport && f.belowViewport ==> f.inViewport)
  {
    var above := top < viewportTop;
    var below := bottom > viewportBottom;
    Flags(top <= viewportBottom && bottom >= viewportTop,
          (top >= viewportTop && bottom <= viewportBottom) || (above && below),
          above, below)
  }

  /** Whether the closed interval `[lo, hi]` contains `y`. */
  predicate Covers(lo: int, hi: int, y: int) {
    lo <= y <= hi
  }

  /** In-viewport is exactly "the target and the viewport share a point". */
  lemma InViewportIsOverlap(top: int, bottom: int, viewportTop: int, viewportBottom: int)
    requires top <= bottom && viewportTop <= viewportBottom
    ensures ComputeFlags(top, bottom, viewportTop, viewportBottom).inViewport <==>
              exists y :: Covers(top, bottom, y) && Covers(viewportTop, viewportBottom, y)
  {
    if ComputeFlags(top, bottom, viewportTop, viewportBottom).inViewport {
      var y := if top < viewportTop then viewportTop else top;
      assert Covers(top, bottom, y) && Covers(viewportTop, viewportBottom, y);
    }
  }

  /** Fully-in-viewport is exactly "every point of the target is in the
      viewport, or the target covers the whole viewport and more on both
      sides". */
  lemma FullyInViewportIsContainment(top: int, bottom: int, viewportTop: int, viewportBottom: int)
    requires top <= bottom
    ensures ComputeFlags(top, bottom, viewportTop, viewportBottom).fullyInViewport <==>
              (forall y :: Covers(top, bottom, y) ==> Covers(viewportTop, viewportBottom, y)) ||
              (top < viewportTop && bottom > viewportBottom)
  {
    if forall y :: Covers(top, bottom, y) ==> Covers(viewportTop, viewportBottom, y) {
      assert Covers(top, bottom, top) && Covers(top, bottom, bottom);
    }
  }

  /** A target outside the viewport is on exactly one side of it. */
  lemma OutsideIsAboveOrBelow(top: int, bottom: int, viewportTop: int, viewportBottom: int)
    requires top <= bottom && viewportTop <= viewportBottom
    ensures var f := ComputeFlags(top, bottom, viewportTop, viewportBottom);
            !f.inViewport ==> f.aboveViewport != f.belowViewport
  {
  }
}
