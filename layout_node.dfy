/** TextNodeItem of the live variant (layout.py): its sizes, the animation
    between the collapsed and the expanded rectangle, the label it draws and
    the connector anchor on its boundary. */
module LayoutNode {
  import opened Basics

  /** Below this view scale a detail node collapses. */
  const ScaleThreshold: real := 0.5

  /** `animation_speed`: the share of the remaining gap closed per tick. */
  const AnimationSpeed: real := 0.15

  /** Closer to the target than this, the animation snaps and stops. */
  const SnapDistance: real := 0.01

  /** Labels longer than this are cut to 12 characters and an ellipsis. */
  const MaxLabelLength: nat := 15

  /** Width and height of laid-out text or of a rectangle. */
  datatype Size = Size(width: real, height: real)

  // ---------------------------------------------------------------------------
  // Sizes
  // ---------------------------------------------------------------------------

  /** `collapsed_width`, `collapsed_height`: a 2:1 rectangle inside the minimum size. */
  function CollapsedSize(width: real, height: real): (s: Size)
    ensures s.width == 2.0 * s.height
    ensures width > 0.0 && height > 0.0 ==> 0.0 < s.width <= width && 0.0 < s.height < height
    ensures s.width == 0.8 * Min(width, height)
  {
    var m := Min(width, height);
    Size(m * 0.8, m * 0.4)
  }

  /** The linear interpolation of one dimension at animation progress `p`. */
  function Interpolate(collapsed: real, expanded: real, p: real): (r: real)
    ensures p == 0.0 ==> r == collapsed
    ensures p == 1.0 ==> r == expanded
    ensures 0.0 <= p <= 1.0 ==> Min(collapsed, expanded) <= r <= Max(collapsed, expanded)
  {
    InterpolateBetween(collapsed, expanded, p);
    collapsed + (expanded - collapsed) * p
  }

  lemma InterpolateBetween(c: real, e: real, p: real)
    ensures 0.0 <= p <= 1.0 ==> Min(c, e) <= c + (e - c) * p <= Max(c, e)
  {
    if 0.0 <= p <= 1.0 {
      ScaledWithin(e - c, p);
    }
  }

  /** A fraction p in [0, 1] of k lies between 0 and k. */
  lemma ScaledWithin(k: real, p: real)
    requires 0.0 <= p <= 1.0
    ensures Min(0.0, k) <= k * p <= Max(0.0, k)
  {
    if k >= 0.0 {
      MulLe(k, 0.0, p);
      MulLe(k, p, 1.0);
    } else {
      MulLe(p, k, 0.0);
      MulLe(1.0 - p, k, 0.0);
      assert (1.0 - p) * k == k - k * p;
    }
  }

  /** The first line of a text: what a detail node shows of "filename\nresponse". */
  function FirstLine(s: string): (r: string)
    ensures |r| <= |s| && r == s[..|r|]
    ensures '\n' !in r
    ensures r == s || s[|r|] == '\n'
  {
    if s == [] then []
    else if s[0] == '\n' then []
    else [s[0]] + FirstLine(s[1..])
  }

  /** The label drawn while a node is collapsed. */
  function CollapsedLabel(s: string): (r: string)
    ensures |r| <= MaxLabelLength
    ensures |s| <= MaxLabelLength ==> r == s
    ensures |s| > MaxLabelLength ==> r == s[..12] + "..."
  {
    if |s| > MaxLabelLength then s[..12] + "..." else s
  }

  // ---------------------------------------------------------------------------
  // Text measurement: updateExpandedDimensions
  // ---------------------------------------------------------------------------

  /** The text width tried after `steps` widenings of 50 pixels. */
  function CandidateWidth(start: real, steps: nat): real
  {
    start + 50.0 * steps as real
  }

  /** How many 50-pixel widenings the loop of updateExpandedDimensions makes:
      it stops at the first width whose text height is at most `maxHeight`, or
      at the first width that has reached `maxWidth`. */
  function WidenSteps(text: string, start: real, maxWidth: real, maxHeight: real,
                      measure: (string, real) -> Size): (k: nat)
    ensures measure(text, CandidateWidth(start, k)).height <= maxHeight || CandidateWidth(start, k) >= maxWidth
    ensures forall j: nat :: j < k ==>
              measure(text, CandidateWidth(start, j)).height > maxHeight && CandidateWidth(start, j) < maxWidth
    decreases if start < maxWidth then (maxWidth - start).Floor + 1 else 0
  {
    if measure(text, start).height > maxHeight && start < maxWidth then
      var k := WidenSteps(text, start + 50.0, maxWidth, maxHeight, measure);
      assert forall j: nat :: j < k + 1 ==>
               measure(text, CandidateWidth(start, j)).height > maxHeight && CandidateWidth(start, j) < maxWidth by {
        forall j: nat | j < k + 1
          ensures measure(text, CandidateWidth(start, j)).height > maxHeight && CandidateWidth(start, j) < maxWidth
        {
          if j > 0 {
            assert CandidateWidth(start, j) == CandidateWidth(start + 50.0, j - 1);
          } else {
            assert CandidateWidth(start, j) == start;
          }
        }
      }
      assert CandidateWidth(start, k + 1) == CandidateWidth(start + 50.0, k);
      k + 1
    else
      assert CandidateWidth(start, 0) == start;
      0
  }

  /** The expanded size: the measured text at the settled width, never below the minimum size. */
  function ExpandedSize(text: string, minWidth: real, minHeight: real,
                        measure: (string, real) -> Size): (s: Size)
    ensures s.width >= minWidth && s.height >= minHeight
  {
    var settled := CandidateWidth(minWidth, WidenSteps(text, minWidth, minWidth * 3.0, minHeight * 3.0, measure));
    var content := measure(text, settled);
    Size(Max(minWidth, content.width), Max(minHeight, content.height))
  }

  // ---------------------------------------------------------------------------
  // Animation: update_animation and the target rule of paint
  // ---------------------------------------------------------------------------

  /** The target rule of paint: a detail node collapses below the scale threshold. */
  function TargetProgress(scale: real, isDetail: bool): (r: real)
    ensures r == 0.0 || r == 1.0
    ensures r == 0.0 <==> isDetail && scale < ScaleThreshold
  {
    if scale < ScaleThreshold && isDetail then 0.0 else 1.0
  }

  /** One tick of update_animation: snap when close, else close 15% of the gap. */
  function TickValue(p: real, t: real): (r: real)
    ensures Abs(p - t) < SnapDistance ==> r == t
    ensures Abs(p - t) >= SnapDistance ==> r - t == 0.85 * (p - t)
  {
    if Abs(p - t) < SnapDistance then t else p + (t - p) * AnimationSpeed
  }

  /** A tick moves progress toward the target without overshooting, so progress
      stays in [0, 1] and the gap strictly shrinks. */
  lemma TickMovesTowardTarget(p: real, t: real)
    ensures p < t ==> p < TickValue(p, t) <= t
    ensures p > t ==> t <= TickValue(p, t) < p
    ensures p == t ==> TickValue(p, t) == t
    ensures p != t ==> Abs(TickValue(p, t) - t) < Abs(p - t)
    ensures 0.0 <= p <= 1.0 && 0.0 <= t <= 1.0 ==> 0.0 <= TickValue(p, t) <= 1.0
  {
  }

  /** Progress after `k` ticks toward target `t`. */
  function Ticks(p: real, t: real, k: nat): real
  {
    if k == 0 then p else TickValue(Ticks(p, t, k - 1), t)
  }

  function Pow85(k: nat): (r: real)
    ensures 0.0 < r <= 1.0
  {
    if k == 0 then 1.0 else 0.85 * Pow85(k - 1)
  }

  /** Starting at most 1 away from the target, after `k` ticks the gap is at most 0.85^k. */
  lemma {:induction false} TicksGap(p: real, t: real, k: nat)
    requires Abs(p - t) <= 1.0
    ensures Abs(Ticks(p, t, k) - t) <= Pow85(k)
  {
    if k > 0 {
      TicksGap(p, t, k - 1);
      var q := Ticks(p, t, k - 1);
      assert Ticks(p, t, k) == TickValue(q, t);
      assert Abs(TickValue(q, t) - t) <= 0.85 * Abs(q - t);
    }
  }

  /** 0.85^k does not grow with k. */
  lemma {:induction false} Pow85Antitone(a: nat, b: nat)
    requires a <= b
    ensures Pow85(b) <= Pow85(a)
    decreases b
  {
    if a < b {
      Pow85Antitone(a, b - 1);
    }
  }

  lemma Pow85At29()
    ensures Pow85(29) < SnapDistance
  {
    var p4 := Pow85(4);
    assert p4 == 0.52200625;
    assert Pow85(8) == p4 * p4 by { Pow85Add(4, 4); }
    assert Pow85(16) == Pow85(8) * Pow85(8) by { Pow85Add(8, 8); }
    assert Pow85(24) == Pow85(16) * Pow85(8) by { Pow85Add(16, 8); }
    assert Pow85(28) == Pow85(24) * p4 by { Pow85Add(24, 4); }
    assert Pow85(8) < 0.2725;
    assert Pow85(16) < 0.0743 by { MulLt(Pow85(8), Pow85(8), 0.2725); MulLt(0.2725, Pow85(8), 0.2725); }
    assert Pow85(24) < 0.0203 by { MulLt(Pow85(8), Pow85(16), 0.0743); MulLt(0.0743, Pow85(8), 0.2725); }
    assert Pow85(28) < 0.0106;
  }

  lemma Pow85Small(n: nat)
    requires n >= 29
    ensures Pow85(n) < SnapDistance
  {
    Pow85At29();
    Pow85Antitone(29, n);
  }

  lemma {:induction false} Pow85Add(a: nat, b: nat)
    ensures Pow85(a + b) == Pow85(a) * Pow85(b)
    decreases b
  {
    if b > 0 {
      Pow85Add(a, b - 1);
      assert Pow85(a + b) == 0.85 * Pow85(a + b - 1);
      assert Pow85(b) == 0.85 * Pow85(b - 1);
    }
  }

  /** From any progress and target in [0, 1] the animation has snapped to the
      target after at most 30 ticks, and stays there. */
  lemma ConvergesWithin30Ticks(p: real, t: real, k: nat)
    requires 0.0 <= p <= 1.0 && 0.0 <= t <= 1.0
    requires k >= 30
    ensures Ticks(p, t, k) == t
  {
    CloseAfter29Ticks(p, t, k - 1);
    assert Ticks(p, t, k) == TickValue(Ticks(p, t, k - 1), t);
  }

  /** After 29 ticks or more the gap is below the snap distance. */
  lemma CloseAfter29Ticks(p: real, t: real, n: nat)
    requires 0.0 <= p <= 1.0 && 0.0 <= t <= 1.0
    requires n >= 29
    ensures Abs(Ticks(p, t, n) - t) < SnapDistance
  {
    TicksGap(p, t, n);
    Pow85Small(n);
  }

  /** Once the progress equals the target, further ticks leave it unchanged. */
  lemma {:induction false} StaysAtTarget(t: real, k: nat)
    ensures Ticks(t, t, k) == t
  {
    if k > 0 {
      StaysAtTarget(t, k - 1);
    }
  }

  // ---------------------------------------------------------------------------
  // Connector anchors: get_connection_point
  // ---------------------------------------------------------------------------

  /** `r` lies on the boundary of the w-by-h rectangle centred at `c`. */
  predicate OnBoundary(r: Point, c: Point, w: real, h: real)
  {
    BoundaryOffset(r.x - c.x, r.y - c.y, w, h)
  }

  /** The offset (ox, oy) from the centre of a w-by-h rectangle is on its boundary. */
  predicate BoundaryOffset(ox: real, oy: real, w: real, h: real)
  {
    (Abs(ox) == w / 2.0 && Abs(oy) <= h / 2.0) || (Abs(oy) == h / 2.0 && Abs(ox) <= w / 2.0)
  }

  /** `r` lies on the ray from `c` through `t`: same slope, same quadrant. */
  predicate OnRay(r: Point, c: Point, t: Point)
  {
    RayOffset(r.x - c.x, r.y - c.y, t.x - c.x, t.y - c.y)
  }

  /** The offset (ox, oy) points along (dx, dy): same slope, same quadrant. */
  predicate RayOffset(ox: real, oy: real, dx: real, dy: real)
  {
    ox * dy == oy * dx && ox * dx >= 0.0 && oy * dy >= 0.0
  }

  /** The four edge midpoints of the w-by-h rectangle centred at `c`. */
  function EdgeMidpoints(c: Point, w: real, h: real): set<Point>
  {
    {Point(c.x - w / 2.0, c.y), Point(c.x + w / 2.0, c.y), Point(c.x, c.y - h / 2.0), Point(c.x, c.y + h / 2.0)}
  }

  /** The anchor of a collapsed detail node: an edge midpoint of its current
      rectangle, on the left or right edge exactly when the target is further
      away horizontally than vertically. */
  function CollapsedAnchor(c: Point, t: Point, w: real, h: real): (r: Point)
    ensures r in EdgeMidpoints(c, w, h)
    ensures w > 0.0 && h > 0.0 ==> (r.y == c.y <==> Abs(t.x - c.x) > Abs(t.y - c.y))
  {
    if Abs(t.x - c.x) > Abs(t.y - c.y) then
      Point(if t.x < c.x then c.x - w / 2.0 else c.x + w / 2.0, c.y)
    else
      Point(c.x, if t.y < c.y then c.y - h / 2.0 else c.y + h / 2.0)
  }

  /** The collapsed anchor is on the side of the centre that faces the target. */
  lemma CollapsedAnchorFacesTarget(c: Point, t: Point, w: real, h: real)
    requires w >= 0.0 && h >= 0.0
    ensures var r := CollapsedAnchor(c, t, w, h);
      (r.x - c.x) * (t.x - c.x) >= 0.0 && (r.y - c.y) * (t.y - c.y) >= 0.0
  {
    var r := CollapsedAnchor(c, t, w, h);
    var dx, dy := t.x - c.x, t.y - c.y;
    if Abs(dx) > Abs(dy) {
      assert r.y - c.y == 0.0;
      FacingOffset(dx, w, r.x - c.x);
    } else {
      assert r.x - c.x == 0.0;
      FacingOffset(dy, h, r.y - c.y);
    }
  }

  /** Half of a non-negative extent, taken on the side of `d`, has the sign of `d`. */
  lemma FacingOffset(d: real, e: real, o: real)
    requires e >= 0.0 && o == (if d < 0.0 then -(e / 2.0) else e / 2.0)
    ensures o * d >= 0.0
  {
    if d < 0.0 { MulLe(-d, 0.0, e / 2.0); } else { MulLe(d, 0.0, e / 2.0); }
  }

  /** The anchor of any other node: where the ray from the centre toward the
      target leaves the w-by-h rectangle; a target straight above or below
      gives the top or bottom midpoint. */
  function RectAnchor(c: Point, t: Point, w: real, h: real): (r: Point)
    requires w > 0.0 && h > 0.0
    ensures OnBoundary(r, c, w, h)
    ensures t != c ==> OnRay(r, c, t)
    ensures t.x < c.x ==> r.x < c.x
    ensures t.x > c.x ==> r.x > c.x
    ensures t.x == c.x ==> r.x == c.x && (r.y == c.y - h / 2.0 || r.y == c.y + h / 2.0)
  {
    var o := RectOffset(t.x - c.x, t.y - c.y, w, h);
    Point(c.x + o.x, c.y + o.y)
  }

  /** The exit point of RectAnchor as an offset from the centre, for a target at
      offset (dx, dy): a side of the rectangle when the slope is shallower than
      its diagonal, else the top or bottom. */
  function RectOffset(dx: real, dy: real, w: real, h: real): (o: Point)
    requires w > 0.0 && h > 0.0
    ensures BoundaryOffset(o.x, o.y, w, h) && RayOffset(o.x, o.y, dx, dy)
    ensures dx < 0.0 ==> o.x < 0.0
    ensures dx > 0.0 ==> o.x > 0.0
    ensures dx == 0.0 ==> o.x == 0.0 && Abs(o.y) == h / 2.0
  {
    if dx == 0.0 then
      var oy := if dy < 0.0 then -(h / 2.0) else h / 2.0;
      FacingOffset(dy, h, oy);
      Point(0.0, oy)
    else
      var slope := dy / dx;
      if Abs(slope) < h / w then
        var ox := if dx < 0.0 then -(w / 2.0) else w / 2.0;
        var oy := slope * ox;
        SideOffset(dx, dy, w, h, ox, oy);
        Point(ox, oy)
      else
        var oy := if dy < 0.0 then -(h / 2.0) else h / 2.0;
        var ox := oy / slope;
        TopBottomOffset(dx, dy, w, h, ox, oy);
        Point(ox, oy)
  }

  /** A positive multiple (ox, oy) of (dx, dy) points the same way as (dx, dy). */
  lemma ScaledOffset(dx: real, dy: real, u: real, ox: real, oy: real)
    requires u > 0.0 && ox == u * dx && oy == u * dy
    ensures RayOffset(ox, oy, dx, dy)
    ensures dx < 0.0 ==> ox < 0.0
    ensures dx > 0.0 ==> ox > 0.0
  {
    assert ox * dx == u * (dx * dx);
    assert oy * dy == u * (dy * dy);
    MulLe(u, 0.0, dx * dx);
    MulLe(u, 0.0, dy * dy);
    if dx < 0.0 { MulLt(u, dx, 0.0); }
    if dx > 0.0 { MulLt(u, 0.0, dx); }
  }

  /** The left/right branch of RectAnchor, as an offset (ox, oy) from the centre:
      a shallow ray leaves through the side it points to. */
  lemma SideOffset(dx: real, dy: real, w: real, h: real, ox: real, oy: real)
    requires w > 0.0 && h > 0.0 && dx != 0.0
    requires Abs(dy / dx) < h / w
    requires ox == (if dx < 0.0 then -(w / 2.0) else w / 2.0)
    requires oy == dy / dx * ox
    ensures Abs(ox) == w / 2.0 && Abs(oy) < h / 2.0 && BoundaryOffset(ox, oy, w, h)
    ensures RayOffset(ox, oy, dx, dy)
    ensures dx < 0.0 ==> ox < 0.0
    ensures dx > 0.0 ==> ox > 0.0
  {
    var s := dy / dx;
    assert Abs(ox) == w / 2.0;
    assert Abs(oy) < h / 2.0 by {
      AbsMul(s, ox);
      assert Abs(oy) == Abs(s) * (w / 2.0);
      MulLt(w / 2.0, Abs(s), h / w);
      assert (w / 2.0) * (h / w) == h / 2.0;
    }
    PositiveQuotient(ox, dx);
    var u := ox / dx;
    assert s * dx == dy;
    assert oy == u * dy by {
      assert oy == s * (u * dx);
    }
    ScaledOffset(dx, dy, u, ox, oy);
  }

  /** The top/bottom branch of RectAnchor, as an offset (ox, oy) from the centre:
      a steep ray leaves through the top or bottom it points to. */
  lemma TopBottomOffset(dx: real, dy: real, w: real, h: real, ox: real, oy: real)
    requires w > 0.0 && h > 0.0 && dx != 0.0
    requires Abs(dy / dx) >= h / w
    requires oy == (if dy < 0.0 then -(h / 2.0) else h / 2.0)
    requires ox == oy / (dy / dx)
    ensures Abs(oy) == h / 2.0 && Abs(ox) <= w / 2.0 && BoundaryOffset(ox, oy, w, h)
    ensures RayOffset(ox, oy, dx, dy)
    ensures dx < 0.0 ==> ox < 0.0
    ensures dx > 0.0 ==> ox > 0.0
  {
    var s := dy / dx;
    PositiveQuotient(h, w);
    assert s != 0.0;
    assert s * dx == dy;
    assert ox * s == oy;
    TopBottomWithin(w, h, s, ox, oy);
    PositiveQuotient(oy, dy);
    var u := oy / dy;
    assert (u * dx) * s == oy by {
      assert (u * dx) * s == u * (s * dx);
    }
    MulCancel(ox, u * dx, s);
    ScaledOffset(dx, dy, u, ox, oy);
  }

  /** A steep offset with |oy| = h/2 stays within half the width. */
  lemma TopBottomWithin(w: real, h: real, s: real, ox: real, oy: real)
    requires w > 0.0 && h > 0.0 && Abs(s) >= h / w
    requires ox * s == oy && Abs(oy) == h / 2.0
    ensures Abs(ox) <= w / 2.0
  {
    PositiveQuotient(h, w);
    AbsMul(ox, s);
    assert Abs(ox) * Abs(s) == h / 2.0;
    assert (w / 2.0) * (h / w) == h / 2.0;
    ProductBound(Abs(s), Abs(ox), w / 2.0, h / w, h / 2.0);
  }

  /** If x · a and half · ratio are the same c, and ratio <= a, then x <= half. */
  lemma ProductBound(a: real, x: real, half: real, ratio: real, c: real)
    requires a > 0.0 && half >= 0.0 && ratio <= a
    requires x * a == c && half * ratio == c
    ensures x <= half
  {
    MulLe(half, ratio, a);
    MulLeCancel(a, x, half);
  }

  // ---------------------------------------------------------------------------
  // The node
  // ---------------------------------------------------------------------------

  /** TextNodeItem (layout.py): one diagram node of the live variant. */
  class TextNodeItem {
    const isDetail: bool
    const fullText: string
    const displayText: string
    const minWidth: real
    const minHeight: real
    const collapsedWidth: real
    const collapsedHeight: real
    var expandedWidth: real
    var expandedHeight: real
    /** 0 is collapsed, 1 is expanded. */
    var animationProgress: real
    var targetProgress: real
    var animationTimerActive: bool
    /** The view scale seen by the last paint. */
    var currentScale: real

    ghost predicate Valid()
      reads this
    {
      && minWidth > 0.0 && minHeight > 0.0
      && Size(collapsedWidth, collapsedHeight) == CollapsedSize(minWidth, minHeight)
      && expandedWidth >= minWidth && expandedHeight >= minHeight
      && 0.0 <= animationProgress <= 1.0
      && (targetProgress == 0.0 || targetProgress == 1.0)
    }

    /** A new node starts expanded, idle, at scale 1; detail nodes show only the first line. */
    constructor (text: string, width: real, height: real, isDetail: bool, measure: (string, real) -> Size)
      ensures this.isDetail == isDetail && fullText == text
      ensures displayText == if isDetail then FirstLine(text) else text
      ensures minWidth == width && minHeight == height
      ensures Size(collapsedWidth, collapsedHeight) == CollapsedSize(width, height)
      ensures Size(expandedWidth, expandedHeight) == ExpandedSize(text, width, height, measure)
      ensures animationProgress == 1.0 && targetProgress == 1.0 && !animationTimerActive
      ensures currentScale == 1.0
      ensures width > 0.0 && height > 0.0 ==> Valid()
    {
      this.isDetail := isDetail;
      fullText := text;
      displayText := if isDetail then FirstLine(text) else text;
      minWidth, minHeight := width, height;
      var c := CollapsedSize(width, height);
      collapsedWidth, collapsedHeight := c.width, c.height;
      animationProgress, targetProgress := 1.0, 1.0;
      animationTimerActive := false;
      currentScale := 1.0;
      new;
      UpdateExpandedDimensions(measure);
    }

    /** updateExpandedDimensions: widen the text 50 pixels at a time, up to three
        times the minimum width, until it is at most three times the minimum height. */
    method UpdateExpandedDimensions(measure: (string, real) -> Size)
      modifies this`expandedWidth, this`expandedHeight
      ensures Size(expandedWidth, expandedHeight) == ExpandedSize(fullText, minWidth, minHeight, measure)
    {
      var content := measure(fullText, minWidth);
      var maxHeight := minHeight * 3.0;
      ghost var k := WidenSteps(fullText, minWidth, minWidth * 3.0, maxHeight, measure);
      ghost var steps: nat := 0;
      if content.height > maxHeight {
        var testWidth := minWidth;
        var maxWidth := minWidth * 3.0;
        while content.height > maxHeight && testWidth < maxWidth
          invariant steps <= k
          invariant testWidth == CandidateWidth(minWidth, steps)
          invariant content == measure(fullText, testWidth)
          decreases (maxWidth - testWidth).Floor
        {
          testWidth := testWidth + 50.0;
          steps := steps + 1;
          content := measure(fullText, testWidth);
        }
      }
      assert CandidateWidth(minWidth, 0) == minWidth;
      assert steps == k;
      expandedWidth := Max(minWidth, content.width);
      expandedHeight := Max(minHeight, content.height);
    }

    /** The width drawn at the current progress. */
    function CurrentWidth(): real
      reads this
    {
      Interpolate(collapsedWidth, expandedWidth, animationProgress)
    }

    function CurrentHeight(): real
      reads this
    {
      Interpolate(collapsedHeight, expandedHeight, animationProgress)
    }

    /** boundingRect: the larger of the two sizes, centred on the item origin, so the
        animated rectangle always fits inside it. */
    function BoundingRect(): (r: Rect)
      reads this
      ensures r.Center() == Point(0.0, 0.0)
      ensures Valid() ==> 0.0 < CurrentWidth() <= r.width && 0.0 < CurrentHeight() <= r.height
    {
      var w := Max(expandedWidth, collapsedWidth);
      var h := Max(expandedHeight, collapsedHeight);
      Rect(-w / 2.0, -h / 2.0, w, h)
    }

    /** The scene centre of the node placed at `pos`; the bounding rectangle is centred on the origin. */
    function SceneCenter(pos: Point): (c: Point)
      reads this
      ensures c == pos
    {
      var b := BoundingRect();
      Point(pos.x + b.Center().x, pos.y + b.Center().y)
    }

    /** get_connection_point for the node placed at `pos`. */
    function GetConnectionPoint(pos: Point, target: Point): (r: Point)
      reads this
      requires Valid()
      ensures currentScale < ScaleThreshold && isDetail ==>
                r in EdgeMidpoints(pos, CurrentWidth(), CurrentHeight())
      ensures !(currentScale < ScaleThreshold && isDetail) ==>
                OnBoundary(r, pos, CurrentWidth(), CurrentHeight()) && (target != pos ==> OnRay(r, pos, target))
    {
      var center := SceneCenter(pos);
      var w, h := CurrentWidth(), CurrentHeight();
      assert w > 0.0 && h > 0.0 by { var _ := BoundingRect(); }
      if currentScale < ScaleThreshold && isDetail then CollapsedAnchor(center, target, w, h)
      else RectAnchor(center, target, w, h)
    }

    /** paint: record the view scale, retarget the animation by the scale rule
        (starting the timer when the target changes), and return the rectangle
        and text drawn: the truncated label below half progress, else the full text. */
    method Paint(viewScale: real) returns (drawn: Rect, text: string)
      requires Valid()
      modifies this`currentScale, this`targetProgress, this`animationTimerActive
      ensures Valid()
      ensures currentScale == viewScale
      ensures targetProgress == TargetProgress(viewScale, isDetail)
      ensures animationTimerActive == (old(animationTimerActive) || targetProgress != old(targetProgress))
      ensures drawn == Rect(-CurrentWidth() / 2.0, -CurrentHeight() / 2.0, CurrentWidth(), CurrentHeight())
      ensures text == if animationProgress < 0.5 then CollapsedLabel(displayText) else fullText
    {
      currentScale := viewScale;
      var newTarget := TargetProgress(currentScale, isDetail);
      if newTarget != targetProgress {
        targetProgress := newTarget;
        if !animationTimerActive {
          animationTimerActive := true;
        }
      }
      var w, h := CurrentWidth(), CurrentHeight();
      var center := BoundingRect().Center();
      drawn := Rect(center.x - w / 2.0, center.y - h / 2.0, w, h);
      if animationProgress < 0.5 {
        text := CollapsedLabel(displayText);
      } else {
        text := fullText;
      }
    }

    /** update_animation: one timer tick; the timer stops when the progress snaps. */
    method UpdateAnimation()
      requires Valid()
      modifies this`animationProgress, this`animationTimerActive
      ensures Valid()
      ensures animationProgress == TickValue(old(animationProgress), targetProgress)
      ensures animationTimerActive == (old(animationTimerActive) && Abs(old(animationProgress) - targetProgress) >= SnapDistance)
    {
      TickMovesTowardTarget(animationProgress, targetProgress);
      if Abs(animationProgress - targetProgress) < SnapDistance {
        animationProgress := targetProgress;
        animationTimerActive := false;
      } else {
        animationProgress := animationProgress + (targetProgress - animationProgress) * AnimationSpeed;
      }
    }
  }
}
