/** Fitting the focused frame into the part of the viewport that the graph chrome leaves free. */
module FocusComposer {
  import opened Numbers
  import opened Options
  import opened StellarTargets

  datatype Viewport = Viewport(width: real, height: real)

  /** Screen position of a world point `w` along one axis: viewport centre + offset + `w * k`. */
  datatype Transform = Transform(x: real, y: real, k: real)

  datatype Box = Box(left: real, right: real, top: real, bottom: real)

  const FLOW_WORLD_PADDING := 34.0
  const MAX_FOCUS_ZOOM := 1.05
  const MIN_FOCUS_ZOOM := 0.12

  function BoundedContentRect(viewport: Viewport): (r: Option<Box>)
    ensures r == None <==> viewport.width <= 0.0 || viewport.height <= 0.0
    ensures r.Some? ==>
              && 0.0 <= r.value.left < r.value.right <= viewport.width
              && 0.0 <= r.value.top < r.value.bottom <= viewport.height
  {
    if viewport.width <= 0.0 || viewport.height <= 0.0 then None
    else
      var horizontalScale := Min(1.0, Max(0.0, (viewport.width - 96.0) / 180.0));
      var verticalScale := Min(1.0, Max(0.0, (viewport.height - 96.0) / 228.0));
      var left := 56.0 * horizontalScale;
      var right := viewport.width - 124.0 * horizontalScale;
      var top := 84.0 * verticalScale;
      var bottom := viewport.height - 144.0 * verticalScale;
      if right <= left || bottom <= top then None else Some(Box(left, right, top, bottom))
  }

  /** The targets the camera frames: all but the dim context. */
  predicate Framed(t: Target) { t.role != Context }

  /** The least box that holds the origin and every framed target, padded on all sides. */
  ghost predicate IsFrame(b: Box, targets: seq<Target>) {
    && b.left <= -FLOW_WORLD_PADDING && b.top <= -FLOW_WORLD_PADDING
    && b.right >= FLOW_WORLD_PADDING && b.bottom >= FLOW_WORLD_PADDING
    && (forall t | t in targets && Framed(t) ::
          && b.left + FLOW_WORLD_PADDING <= t.x <= b.right - FLOW_WORLD_PADDING
          && b.top + FLOW_WORLD_PADDING <= t.y <= b.bottom - FLOW_WORLD_PADDING)
    && (b.left == -FLOW_WORLD_PADDING || exists t :: t in targets && Framed(t) && t.x == b.left + FLOW_WORLD_PADDING)
    && (b.right == FLOW_WORLD_PADDING || exists t :: t in targets && Framed(t) && t.x == b.right - FLOW_WORLD_PADDING)
    && (b.top == -FLOW_WORLD_PADDING || exists t :: t in targets && Framed(t) && t.y == b.top + FLOW_WORLD_PADDING)
    && (b.bottom == FLOW_WORLD_PADDING || exists t :: t in targets && Framed(t) && t.y == b.bottom - FLOW_WORLD_PADDING)
  }

  /** The zoom before the lower clamp. */
  function FitZoom(frame: Box, rect: Box): real
    requires frame.left < frame.right && frame.top < frame.bottom
  {
    Min(MAX_FOCUS_ZOOM, Min((rect.right - rect.left) / (frame.right - frame.left),
                            (rect.bottom - rect.top) / (frame.bottom - frame.top)))
  }

  function ScreenX(wx: real, t: Transform, v: Viewport): real { v.width / 2.0 + t.x + wx * t.k }

  function ScreenY(wy: real, t: Transform, v: Viewport): real { v.height / 2.0 + t.y + wy * t.k }

  /** The world box lands inside the screen rectangle. */
  predicate LandsInside(b: Box, t: Transform, v: Viewport, rect: Box) {
    && rect.left <= ScreenX(b.left, t, v) && ScreenX(b.right, t, v) <= rect.right
    && rect.top <= ScreenY(b.top, t, v) && ScreenY(b.bottom, t, v) <= rect.bottom
  }

  /** The frame's centre is shown at the rectangle's centre. */
  predicate Centred(frame: Box, t: Transform, v: Viewport, rect: Box) {
    && ScreenX((frame.left + frame.right) / 2.0, t, v) == (rect.left + rect.right) / 2.0
    && ScreenY((frame.top + frame.bottom) / 2.0, t, v) == (rect.top + rect.bottom) / 2.0
  }

  /** The box of the origin and the framed targets, before padding. */
  function Extents(targets: seq<Target>): Box {
    if targets == [] then Box(0.0, 0.0, 0.0, 0.0)
    else
      var b, t := Extents(targets[..|targets| - 1]), targets[|targets| - 1];
      if Framed(t) then Box(Min(b.left, t.x), Max(b.right, t.x), Min(b.top, t.y), Max(b.bottom, t.y)) else b
  }

  function Padded(b: Box): Box {
    Box(b.left - FLOW_WORLD_PADDING, b.right + FLOW_WORLD_PADDING,
        b.top - FLOW_WORLD_PADDING, b.bottom + FLOW_WORLD_PADDING)
  }

  lemma {:induction false} ExtentsFrame(targets: seq<Target>)
    ensures IsFrame(Padded(Extents(targets)), targets)
  {
    if targets != [] {
      var before, last := targets[..|targets| - 1], targets[|targets| - 1];
      ExtentsFrame(before);
      assert targets == before + [last];
      assert last in targets && forall t | t in before :: t in targets;
    }
  }

  /** The clamped zoom, and the offset that puts the frame's centre on the rectangle's. */
  function CentredFit(frame: Box, rect: Box, viewport: Viewport): (t: Transform)
    requires frame.left < frame.right && frame.top < frame.bottom
    ensures t.k == Max(MIN_FOCUS_ZOOM, FitZoom(frame, rect))
    ensures Centred(frame, t, viewport, rect)
  {
    var k := Max(MIN_FOCUS_ZOOM, FitZoom(frame, rect));
    var worldCenterX, worldCenterY := (frame.left + frame.right) / 2.0, (frame.top + frame.bottom) / 2.0;
    var screenCenterX, screenCenterY := (rect.left + rect.right) / 2.0, (rect.top + rect.bottom) / 2.0;
    Transform(
      screenCenterX - viewport.width / 2.0 - worldCenterX * k,
      screenCenterY - viewport.height / 2.0 - worldCenterY * k,
      k)
  }

  method ComposeStellarFocusViewport(targets: seq<Target>, viewport: Viewport) returns (r: Option<Transform>)
    ensures r == None <==>
            viewport.width <= 0.0 || viewport.height <= 0.0 || forall t | t in targets :: !Framed(t)
    ensures r.Some? ==>
              var frame, rect := Padded(Extents(targets)), BoundedContentRect(viewport).value;
              && frame.left < frame.right && frame.top < frame.bottom
              && Centred(frame, r.value, viewport, rect)
              && r.value.k == Max(MIN_FOCUS_ZOOM, FitZoom(frame, rect))
  {
    var contentRect := BoundedContentRect(viewport);
    if contentRect == None {
      return None;
    }
    var rect := contentRect.value;
    var minX, minY, maxX, maxY, count := 0.0, 0.0, 0.0, 0.0, 0;
    for i := 0 to |targets|
      invariant Box(minX, maxX, minY, maxY) == Extents(targets[..i])
      invariant count >= 0 && (count == 0 <==> forall t | t in targets[..i] :: !Framed(t))
    {
      var target := targets[i];
      assert targets[..i + 1][..i] == targets[..i];
      assert targets[..i + 1] == targets[..i] + [target];
      if target.role != Context {
        minX := Min(minX, target.x);
        minY := Min(minY, target.y);
        maxX := Max(maxX, target.x);
        maxY := Max(maxY, target.y);
        count := count + 1;
      }
    }
    assert targets[..|targets|] == targets;
    if count == 0 {
      return None;
    }
    ExtentsFrame(targets);
    minX, maxX := minX - FLOW_WORLD_PADDING, maxX + FLOW_WORLD_PADDING;
    minY, maxY := minY - FLOW_WORLD_PADDING, maxY + FLOW_WORLD_PADDING;
    r := Some(CentredFit(Box(minX, maxX, minY, maxY), rect, viewport));
  }

  /**
   Along one axis a centred interval `[lo, hi]` scaled by `k` stays in `[left, right]` just when it is short
   enough.
   */
  lemma AxisFits(lo: real, hi: real, left: real, right: real, o: real, k: real)
    requires lo < hi && left < right && k > 0.0
    requires o + (lo + hi) / 2.0 * k == (left + right) / 2.0
    ensures left <= o + lo * k && o + hi * k <= right <==> k <= (right - left) / (hi - lo)
  {
    var w, a := hi - lo, right - left;
    var q := a / w;
    assert q * w == a;
    assert lo * k == (lo + hi) / 2.0 * k - w * k / 2.0 && hi * k == (lo + hi) / 2.0 * k + w * k / 2.0 by {
      var c := (lo + hi) / 2.0;
      assert lo == c - w / 2.0 && hi == c + w / 2.0;
      assert (c - w / 2.0) * k == c * k - w * k / 2.0;
      assert (c + w / 2.0) * k == c * k + w * k / 2.0;
    }
    if k <= q {
      if k < q { ScaleLess(k, q, w); }
      assert k * w <= a;
    } else {
      ScaleLess(q, k, w);
      assert k * w > a;
    }
  }

  lemma ClampedBelow(qx: real, qy: real, k: real)
    requires k == Max(MIN_FOCUS_ZOOM, Min(MAX_FOCUS_ZOOM, Min(qx, qy)))
    ensures k <= qx && k <= qy <==> Min(MAX_FOCUS_ZOOM, Min(qx, qy)) >= MIN_FOCUS_ZOOM
  {
  }

  lemma ColumnsShown(frame: Box, t: Transform, v: Viewport, rect: Box, q: real)
    requires frame.left < frame.right && rect.left < rect.right && t.k > 0.0
    requires q == (rect.right - rect.left) / (frame.right - frame.left)
    requires ScreenX((frame.left + frame.right) / 2.0, t, v) == (rect.left + rect.right) / 2.0
    ensures rect.left <= ScreenX(frame.left, t, v) && ScreenX(frame.right, t, v) <= rect.right <==> t.k <= q
  {
    AxisFits(frame.left, frame.right, rect.left, rect.right, v.width / 2.0 + t.x, t.k);
  }

  lemma RowsShown(frame: Box, t: Transform, v: Viewport, rect: Box, q: real)
    requires frame.top < frame.bottom && rect.top < rect.bottom && t.k > 0.0
    requires q == (rect.bottom - rect.top) / (frame.bottom - frame.top)
    requires ScreenY((frame.top + frame.bottom) / 2.0, t, v) == (rect.top + rect.bottom) / 2.0
    ensures rect.top <= ScreenY(frame.top, t, v) && ScreenY(frame.bottom, t, v) <= rect.bottom <==> t.k <= q
  {
    AxisFits(frame.top, frame.bottom, rect.top, rect.bottom, v.height / 2.0 + t.y, t.k);
  }

  /** The padded frame is shown in full exactly when the zoom did not have to be clamped from below. */
  lemma FrameFits(frame: Box, t: Transform, v: Viewport, rect: Box)
    requires frame.left < frame.right && frame.top < frame.bottom
    requires rect.left < rect.right && rect.top < rect.bottom
    requires Centred(frame, t, v, rect)
    requires t.k == Max(MIN_FOCUS_ZOOM, FitZoom(frame, rect))
    ensures LandsInside(frame, t, v, rect) <==> FitZoom(frame, rect) >= MIN_FOCUS_ZOOM
  {
    var qx, qy := (rect.right - rect.left) / (frame.right - frame.left),
                  (rect.bottom - rect.top) / (frame.bottom - frame.top);
    ClampedBelow(qx, qy, t.k);
    ColumnsShown(frame, t, v, rect, qx);
    RowsShown(frame, t, v, rect, qy);
  }

  /** A framed target with its padding. */
  function PaddedTarget(t: Target): Box {
    Box(t.x - FLOW_WORLD_PADDING, t.x + FLOW_WORLD_PADDING, t.y - FLOW_WORLD_PADDING, t.y + FLOW_WORLD_PADDING)
  }

  lemma ScaleLeq(x: real, y: real, k: real)
    requires x <= y && k > 0.0
    ensures x * k <= y * k
  {
    if x < y { ScaleLess(x, y, k); }
  }

  lemma OrderOnScreen(w: real, w': real, t: Transform, v: Viewport)
    requires w <= w' && t.k > 0.0
    ensures ScreenX(w, t, v) <= ScreenX(w', t, v)
    ensures ScreenY(w, t, v) <= ScreenY(w', t, v)
  {
    ScaleLeq(w, w', t.k);
  }

  lemma InsideFrame(b: Box, frame: Box, t: Transform, v: Viewport, rect: Box)
    requires LandsInside(frame, t, v, rect) && t.k > 0.0
    requires frame.left <= b.left && b.right <= frame.right && frame.top <= b.top && b.bottom <= frame.bottom
    ensures LandsInside(b, t, v, rect)
  {
    OrderOnScreen(frame.left, b.left, t, v);
    OrderOnScreen(b.right, frame.right, t, v);
    OrderOnScreen(frame.top, b.top, t, v);
    OrderOnScreen(b.bottom, frame.bottom, t, v);
  }

  /**
   What the composer is for: unless the zoom was clamped from below, every framed target is shown with its
   padding.
   */
  lemma TargetsShown(targets: seq<Target>, frame: Box, t: Transform, v: Viewport)
    requires BoundedContentRect(v).Some? && frame == Padded(Extents(targets))
    requires frame.left < frame.right && frame.top < frame.bottom
    requires Centred(frame, t, v, BoundedContentRect(v).value)
    requires t.k == Max(MIN_FOCUS_ZOOM, FitZoom(frame, BoundedContentRect(v).value))
    requires FitZoom(frame, BoundedContentRect(v).value) >= MIN_FOCUS_ZOOM
    ensures forall x | x in targets && Framed(x) :: LandsInside(PaddedTarget(x), t, v, BoundedContentRect(v).value)
  {
    var rect := BoundedContentRect(v).value;
    ExtentsFrame(targets);
    FrameFits(frame, t, v, rect);
    forall x | x in targets && Framed(x) ensures LandsInside(PaddedTarget(x), t, v, rect) {
      InsideFrame(PaddedTarget(x), frame, t, v, rect);
    }
  }

  /** A box whose four edges are those of targets shown in full is shown in full. */
  lemma EdgesLandInside(frame: Box, l: Target, r: Target, u: Target, d: Target, t: Transform, v: Viewport, rect: Box)
    requires LandsInside(PaddedTarget(l), t, v, rect) && LandsInside(PaddedTarget(r), t, v, rect)
    requires LandsInside(PaddedTarget(u), t, v, rect) && LandsInside(PaddedTarget(d), t, v, rect)
    requires l.x - FLOW_WORLD_PADDING == frame.left && r.x + FLOW_WORLD_PADDING == frame.right
    requires u.y - FLOW_WORLD_PADDING == frame.top && d.y + FLOW_WORLD_PADDING == frame.bottom
    ensures LandsInside(frame, t, v, rect)
  {
  }

  /** When it was clamped and the focus sits at the origin, one of them is not shown in full. */
  lemma ClampedHidesOne(targets: seq<Target>, frame: Box, t: Transform, v: Viewport)
    requires BoundedContentRect(v).Some? && frame == Padded(Extents(targets))
    requires frame.left < frame.right && frame.top < frame.bottom
    requires Centred(frame, t, v, BoundedContentRect(v).value)
    requires t.k == Max(MIN_FOCUS_ZOOM, FitZoom(frame, BoundedContentRect(v).value))
    requires exists f :: f in targets && f.role == Focus && f.x == 0.0 && f.y == 0.0
    requires FitZoom(frame, BoundedContentRect(v).value) < MIN_FOCUS_ZOOM
    ensures exists x :: x in targets && Framed(x) && !LandsInside(PaddedTarget(x), t, v, BoundedContentRect(v).value)
  {
    ExtentsFrame(targets);
    FrameFits(frame, t, v, BoundedContentRect(v).value);
    var f :| f in targets && f.role == Focus && f.x == 0.0 && f.y == 0.0;
    assert Framed(f);
    var l := if frame.left == -FLOW_WORLD_PADDING then f else
    var e :| e in targets && Framed(e) && e.x == frame.left + FLOW_WORLD_PADDING; e;
    var r := if frame.right == FLOW_WORLD_PADDING then f else
    var e :| e in targets && Framed(e) && e.x == frame.right - FLOW_WORLD_PADDING; e;
    var u := if frame.top == -FLOW_WORLD_PADDING then f else
    var e :| e in targets && Framed(e) && e.y == frame.top + FLOW_WORLD_PADDING; e;
    var d := if frame.bottom == FLOW_WORLD_PADDING then f else
    var e :| e in targets && Framed(e) && e.y == frame.bottom - FLOW_WORLD_PADDING; e;
    if forall x | x in targets && Framed(x) :: LandsInside(PaddedTarget(x), t, v, BoundedContentRect(v).value) {
      EdgesLandInside(frame, l, r, u, d, t, v, BoundedContentRect(v).value);
      assert false;
    }
  }
}
