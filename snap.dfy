/**
 * The snap engine: where a dragged output lands, given the drag start, the
 * logical pointer delta and every other output's rectangle.
 *
 * `scaled[i]` stands for the size of output `i`'s current mode,
 * `CurrentMode(outputs[i].modes, OutputMode(800, 600, true, false))`,
 * divided by the output's scale and rounded; the scale is a float and is
 * not part of this model, so the sizes arrive as input.
 */
module SnapEngine {
  import opened OutputModel

  /** How close, in logical pixels, an edge must come to attract the dragged output. */
  const SnapThreshold: int := 40

  /** The spacing of the grid used when no edge attracts an axis. */
  const GridStep: int := 10

  datatype Axis = X | Y

  /** An extent along one axis: where it starts and how long it is. */
  datatype Span = Span(lo: int, len: int) {
    function Hi(): int { lo + len }
  }

  /** The extent of `r` along the axis being snapped. */
  function Along(r: Rect, a: Axis): Span {
    match a
    case X => Span(r.x, r.w)
    case Y => Span(r.y, r.h)
  }

  /** The extent of `r` across the axis being snapped. */
  function Across(r: Rect, a: Axis): Span {
    match a
    case X => Span(r.y, r.h)
    case Y => Span(r.x, r.w)
  }

  /**
   * Whether two extents come within the threshold of each other: the
   * gating test (`y_overlap` when snapping X, `x_overlap` when snapping Y).
   */
  predicate Near(mine: Span, other: Span) {
    mine.lo < other.Hi() + SnapThreshold && mine.Hi() > other.lo - SnapThreshold
  }

  /**
   * The three positions another output offers, in the order they are tried:
   * start at its far edge, end at its near edge, start at its near edge.
   */
  function Offers(mine: Span, other: Span): seq<int> {
    [other.Hi(), other.lo - mine.len, other.lo]
  }

  /** The logical rectangle of an output whose current mode, divided by its scale, measures `scaled`. */
  function OutputRect(o: Output, scaled: Size): Rect {
    var s := LogicalSize(o.transform, scaled);
    Rect(o.position.x, o.position.y, s.w, s.h)
  }

  /** Whether output `other` offers position `c` on axis `a` to the dragged rectangle `me`. */
  predicate OfferedBy(other: Output, scaled: Size, me: Rect, a: Axis, c: int) {
    var r := OutputRect(other, scaled);
    Near(Across(me, a), Across(r, a)) && c in Offers(Along(me, a), Along(r, a))
  }

  /** Whether some output other than the dragged one offers position `c`. */
  predicate IsOffer(outputs: seq<Output>, scaled: seq<Size>, idx: nat, me: Rect, a: Axis, c: int)
    requires |outputs| == |scaled|
  {
    exists i :: 0 <= i < |outputs| && i != idx && OfferedBy(outputs[i], scaled[i], me, a, c)
  }

  /** The offers of `outputs[..n]`, in scan order. */
  function Candidates(outputs: seq<Output>, scaled: seq<Size>, idx: nat, me: Rect, a: Axis, n: nat): (cs: seq<int>)
    requires n <= |outputs| == |scaled|
    ensures |cs| <= 3 * n
  {
    if n == 0 then []
    else
      var other := OutputRect(outputs[n - 1], scaled[n - 1]);
      Candidates(outputs, scaled, idx, me, a, n - 1)
        + (if n - 1 != idx && Near(Across(me, a), Across(other, a))
           then Offers(Along(me, a), Along(other, a)) else [])
  }

  /** The candidates of the first `n` outputs are exactly their offers. */
  lemma {:induction false} CandidatesAreOffers(outputs: seq<Output>, scaled: seq<Size>, idx: nat, me: Rect, a: Axis, n: nat)
    requires n <= |outputs| == |scaled|
    ensures forall c :: c in Candidates(outputs, scaled, idx, me, a, n) <==>
      exists i :: 0 <= i < n && i != idx && OfferedBy(outputs[i], scaled[i], me, a, c)
  {
    if n > 0 {
      CandidatesAreOffers(outputs, scaled, idx, me, a, n - 1);
    }
  }

  function Abs(v: int): nat {
    if v < 0 then -v else v
  }

  /** The best position found so far and its distance from the unsnapped position. */
  datatype Best = Best(pos: int, dist: int)

  /** One comparison of the scan: a candidate replaces the best only when strictly closer. */
  function Consider(b: Best, target: int, c: int): (r: Best)
    ensures r.dist <= b.dist
    ensures r == b || (r.pos == c && r.dist == Abs(target - c) < b.dist)
  {
    if Abs(target - c) < b.dist then Best(c, Abs(target - c)) else b
  }

  /** The scan over `cands`, starting from the unsnapped position at the threshold distance. */
  function Closest(cands: seq<int>, target: int): (b: Best)
    ensures b.dist <= SnapThreshold
  {
    if cands == [] then Best(target, SnapThreshold)
    else Consider(Closest(cands[..|cands| - 1], target), target, cands[|cands| - 1])
  }

  /**
   * The scan finds nothing closer than the threshold and keeps the unsnapped
   * position, or it returns the first candidate at the least distance, which
   * is below the threshold; no candidate is closer than what it returns.
   */
  lemma {:induction false} ClosestIsFirstNearest(cands: seq<int>, target: int)
    ensures Closest(cands, target).dist <= SnapThreshold
    ensures forall j :: 0 <= j < |cands| ==> Abs(target - cands[j]) >= Closest(cands, target).dist
    ensures var b := Closest(cands, target);
      || (b.pos == target && b.dist == SnapThreshold)
      || (exists k :: 0 <= k < |cands| && cands[k] == b.pos && b.dist == Abs(target - b.pos) < SnapThreshold
                      && forall j :: 0 <= j < k ==> Abs(target - cands[j]) > b.dist)
  {
    if cands != [] {
      var n := |cands|;
      var prefix := cands[..n - 1];
      ClosestIsFirstNearest(prefix, target);
      assert forall j :: 0 <= j < n - 1 ==> cands[j] == prefix[j];
      var b := Closest(cands, target);
      if Abs(target - cands[n - 1]) < Closest(prefix, target).dist {
        assert cands[n - 1] == b.pos;
      } else {
        assert b == Closest(prefix, target);
      }
    }
  }

  /** Scanning one more candidate is one more comparison. */
  lemma ClosestAppend(cands: seq<int>, target: int, c: int)
    ensures Closest(cands + [c], target) == Consider(Closest(cands, target), target, c)
  {
    assert (cands + [c])[..|cands|] == cands;
  }

  /** Three comparisons of the scan when `cond` holds, none otherwise. */
  function Consider3(b: Best, target: int, cond: bool, c0: int, c1: int, c2: int): Best {
    if cond then Consider(Consider(Consider(b, target, c0), target, c1), target, c2) else b
  }

  /** Scanning the offers of one more output is three more comparisons, or none. */
  lemma ClosestStep(cands: seq<int>, target: int, cond: bool, c0: int, c1: int, c2: int)
    ensures Closest(cands + (if cond then [c0, c1, c2] else []), target)
      == Consider3(Closest(cands, target), target, cond, c0, c1, c2)
  {
    if cond {
      ClosestAppend(cands, target, c0);
      ClosestAppend(cands + [c0], target, c1);
      ClosestAppend(cands + [c0, c1], target, c2);
      assert cands + [c0] + [c1] == cands + [c0, c1];
      assert cands + [c0, c1] + [c2] == cands + [c0, c1, c2];
    } else {
      assert cands + [] == cands;
    }
  }

  /**
   * Scanning another output whose edges are `otherLeft`, `otherRight`,
   * `otherTop`, `otherBottom` on the X axis: three comparisons when the
   * vertical extents are near (`y_overlap`), none otherwise.
   */
  lemma ScanStepX(outputs: seq<Output>, scaled: seq<Size>, idx: nat, me: Rect, i: nat,
                  otherLeft: int, otherRight: int, otherTop: int, otherBottom: int)
    requires i < |outputs| == |scaled| && i != idx
    requires otherLeft == outputs[i].position.x && otherTop == outputs[i].position.y
    requires otherRight == otherLeft + LogicalSize(outputs[i].transform, scaled[i]).w
    requires otherBottom == otherTop + LogicalSize(outputs[i].transform, scaled[i]).h
    ensures Closest(Candidates(outputs, scaled, idx, me, X, i + 1), me.x)
      == Consider3(Closest(Candidates(outputs, scaled, idx, me, X, i), me.x), me.x,
                   me.y < otherBottom + SnapThreshold && me.y + me.h > otherTop - SnapThreshold,
                   otherRight, otherLeft - me.w, otherLeft)
  {
    CandidatesStep(outputs, scaled, idx, me, i);
    ClosestStep(Candidates(outputs, scaled, idx, me, X, i), me.x,
                me.y < otherBottom + SnapThreshold && me.y + me.h > otherTop - SnapThreshold,
                otherRight, otherLeft - me.w, otherLeft);
  }

  /** The same on the Y axis, gated by the horizontal extents (`x_overlap`). */
  lemma ScanStepY(outputs: seq<Output>, scaled: seq<Size>, idx: nat, me: Rect, i: nat,
                  otherLeft: int, otherRight: int, otherTop: int, otherBottom: int)
    requires i < |outputs| == |scaled| && i != idx
    requires otherLeft == outputs[i].position.x && otherTop == outputs[i].position.y
    requires otherRight == otherLeft + LogicalSize(outputs[i].transform, scaled[i]).w
    requires otherBottom == otherTop + LogicalSize(outputs[i].transform, scaled[i]).h
    ensures Closest(Candidates(outputs, scaled, idx, me, Y, i + 1), me.y)
      == Consider3(Closest(Candidates(outputs, scaled, idx, me, Y, i), me.y), me.y,
                   me.x < otherRight + SnapThreshold && me.x + me.w > otherLeft - SnapThreshold,
                   otherBottom, otherTop - me.h, otherTop)
  {
    CandidatesStep(outputs, scaled, idx, me, i);
    ClosestStep(Candidates(outputs, scaled, idx, me, Y, i), me.y,
                me.x < otherRight + SnapThreshold && me.x + me.w > otherLeft - SnapThreshold,
                otherBottom, otherTop - me.h, otherTop);
  }

  /** How the candidates grow by one output: by its three offers when it is another output and near enough. */
  lemma CandidatesStep(outputs: seq<Output>, scaled: seq<Size>, idx: nat, me: Rect, i: nat)
    requires i < |outputs| == |scaled|
    ensures var o := OutputRect(outputs[i], scaled[i]);
      && Candidates(outputs, scaled, idx, me, X, i + 1) == Candidates(outputs, scaled, idx, me, X, i)
           + (if i != idx && me.y < o.y + o.h + SnapThreshold && me.y + me.h > o.y - SnapThreshold
              then [o.x + o.w, o.x - me.w, o.x] else [])
      && Candidates(outputs, scaled, idx, me, Y, i + 1) == Candidates(outputs, scaled, idx, me, Y, i)
           + (if i != idx && me.x < o.x + o.w + SnapThreshold && me.x + me.w > o.x - SnapThreshold
              then [o.y + o.h, o.y - me.h, o.y] else [])
  {
  }

  /**
   * Rounding to the nearest multiple of 10, halves away from zero, as
   * `(v as f32 / 10.0).round() as i32 * 10` does for the coordinates at hand.
   */
  function RoundToGrid(v: int): (r: int)
    ensures r % GridStep == 0
    ensures v >= 0 ==> r >= 0 && -5 < r - v <= 5
    ensures v < 0 ==> r <= 0 && -5 <= r - v < 5
  {
    if v >= 0 then (v + 5) / 10 * 10 else -((-v + 5) / 10 * 10)
  }

  /** No multiple of 10 is closer to `v` than its rounding. */
  lemma RoundToGridIsNearest(v: int, m: int)
    requires m % GridStep == 0
    ensures Abs(v - RoundToGrid(v)) <= Abs(v - m)
  {
    var r := RoundToGrid(v);
    var q, p := m / 10, r / 10;
    assert m == 10 * q && r == 10 * p;
  }

  /** The position edge snapping settles on for axis `a`. */
  function EdgeSnap(outputs: seq<Output>, scaled: seq<Size>, idx: nat, me: Rect, a: Axis): (e: int)
    requires |outputs| == |scaled|
    ensures e == Along(me, a).lo
      || (IsOffer(outputs, scaled, idx, me, a, e) && Abs(Along(me, a).lo - e) < SnapThreshold)
  {
    ClosestIsFirstNearest(Candidates(outputs, scaled, idx, me, a, |outputs|), Along(me, a).lo);
    NearResultIsOffer(outputs, scaled, idx, me, a);
    Closest(Candidates(outputs, scaled, idx, me, a, |outputs|), Along(me, a).lo).pos
  }

  /** The published coordinate on axis `a`: the edge position, or the grid when edges did not move it. */
  function SnapAxis(outputs: seq<Output>, scaled: seq<Size>, idx: nat, me: Rect, a: Axis): (r: int)
    requires |outputs| == |scaled|
    ensures r >= 0
  {
    var t := Along(me, a).lo;
    var e := EdgeSnap(outputs, scaled, idx, me, a);
    ClampToZero(if e == t then RoundToGrid(e) else e)
  }

  /** The unsnapped position: drag start plus delta, each coordinate clamped to at least 0. */
  function DragPosition(start: Position, dx: int, dy: int): (p: Position)
    ensures p.x >= 0 && p.y >= 0
    ensures start.x + dx >= 0 ==> p.x == start.x + dx
    ensures start.x + dx < 0 ==> p.x == 0
    ensures start.y + dy >= 0 ==> p.y == start.y + dy
    ensures start.y + dy < 0 ==> p.y == 0
  {
    Position(ClampToZero(start.x + dx), ClampToZero(start.y + dy))
  }

  /** The dragged output's rectangle at its unsnapped position. */
  function DraggedRect(outputs: seq<Output>, scaled: seq<Size>, idx: nat, start: Position, dx: int, dy: int): Rect
    requires idx < |outputs| == |scaled|
  {
    var p := DragPosition(start, dx, dy);
    var s := LogicalSize(outputs[idx].transform, scaled[idx]);
    Rect(p.x, p.y, s.w, s.h)
  }

  /** Where the dragged output is published: both axes snapped independently. */
  function SnapTarget(outputs: seq<Output>, scaled: seq<Size>, idx: nat, start: Position, dx: int, dy: int): (p: Position)
    requires idx < |outputs| == |scaled|
    ensures p.x >= 0 && p.y >= 0
  {
    var me := DraggedRect(outputs, scaled, idx, start, dx, dy);
    Position(SnapAxis(outputs, scaled, idx, me, X), SnapAxis(outputs, scaled, idx, me, Y))
  }

  /** Axis `a` ends at offer `e` (clamped): the nearest offer, below the threshold, and not the unsnapped position itself. */
  ghost predicate SnapsToEdge(outputs: seq<Output>, scaled: seq<Size>, idx: nat, me: Rect, a: Axis, r: int)
    requires |outputs| == |scaled|
  {
    var t := Along(me, a).lo;
    exists e :: IsOffer(outputs, scaled, idx, me, a, e) && e != t && Abs(t - e) < SnapThreshold
      && (forall c :: IsOffer(outputs, scaled, idx, me, a, c) ==> Abs(t - c) >= Abs(t - e))
      && r == ClampToZero(e)
  }

  /**
   * Axis `a` ends on the grid: no offer came within the threshold, or the
   * unsnapped position is itself an offer (an edge at distance 0).
   */
  ghost predicate SnapsToGrid(outputs: seq<Output>, scaled: seq<Size>, idx: nat, me: Rect, a: Axis, r: int)
    requires |outputs| == |scaled|
  {
    var t := Along(me, a).lo;
    && (IsOffer(outputs, scaled, idx, me, a, t)
        || forall c :: IsOffer(outputs, scaled, idx, me, a, c) ==> Abs(t - c) >= SnapThreshold)
    && r == ClampToZero(RoundToGrid(t))
  }

  /**
   * When the scan moved the coordinate, it moved it to the first candidate,
   * in scan order, at the least distance: every earlier candidate is
   * strictly farther, so of two equally near offers the earlier one wins.
   */
  lemma EdgeSnapIsFirstNearest(outputs: seq<Output>, scaled: seq<Size>, idx: nat, me: Rect, a: Axis)
    requires |outputs| == |scaled|
    ensures var t, cands := Along(me, a).lo, Candidates(outputs, scaled, idx, me, a, |outputs|);
      var e := EdgeSnap(outputs, scaled, idx, me, a);
      e != t ==>
        && Abs(t - e) < SnapThreshold
        && (forall j :: 0 <= j < |cands| ==> Abs(t - cands[j]) >= Abs(t - e))
        && exists k :: 0 <= k < |cands| && cands[k] == e && forall j :: 0 <= j < k ==> Abs(t - cands[j]) > Abs(t - e)
  {
    ClosestIsFirstNearest(Candidates(outputs, scaled, idx, me, a, |outputs|), Along(me, a).lo);
  }

  /** The offers of the other outputs are exactly the scanned candidates. */
  lemma OffersAreCandidates(outputs: seq<Output>, scaled: seq<Size>, idx: nat, me: Rect, a: Axis)
    requires |outputs| == |scaled|
    ensures forall c :: IsOffer(outputs, scaled, idx, me, a, c) <==> c in Candidates(outputs, scaled, idx, me, a, |outputs|)
  {
    CandidatesAreOffers(outputs, scaled, idx, me, a, |outputs|);
  }

  /** No offer is nearer to the unsnapped position than the scan's result. */
  lemma NoOfferIsNearer(outputs: seq<Output>, scaled: seq<Size>, idx: nat, me: Rect, a: Axis)
    requires |outputs| == |scaled|
    ensures var t := Along(me, a).lo;
      forall c :: IsOffer(outputs, scaled, idx, me, a, c) ==>
        Abs(t - c) >= Closest(Candidates(outputs, scaled, idx, me, a, |outputs|), t).dist
  {
    var t := Along(me, a).lo;
    var cands := Candidates(outputs, scaled, idx, me, a, |outputs|);
    OffersAreCandidates(outputs, scaled, idx, me, a);
    ClosestIsFirstNearest(cands, t);
    assert forall c :: c in cands ==> Abs(t - c) >= Closest(cands, t).dist;
  }

  /** A result under the threshold is an offer, at the distance the scan recorded. */
  lemma NearResultIsOffer(outputs: seq<Output>, scaled: seq<Size>, idx: nat, me: Rect, a: Axis)
    requires |outputs| == |scaled|
    ensures var t := Along(me, a).lo;
      var b := Closest(Candidates(outputs, scaled, idx, me, a, |outputs|), t);
      && (b.pos != t ==> b.dist < SnapThreshold)
      && (b.dist < SnapThreshold ==> IsOffer(outputs, scaled, idx, me, a, b.pos) && b.dist == Abs(t - b.pos))
  {
    var t := Along(me, a).lo;
    var cands := Candidates(outputs, scaled, idx, me, a, |outputs|);
    ClosestIsFirstNearest(cands, t);
    var b := Closest(cands, t);
    if b.dist < SnapThreshold {
      var k :| 0 <= k < |cands| && cands[k] == b.pos && b.dist == Abs(t - b.pos);
      OffersAreCandidates(outputs, scaled, idx, me, a);
    }
  }

  /** The scan left the unsnapped position where it was: the axis goes to the grid. */
  lemma GridCase(outputs: seq<Output>, scaled: seq<Size>, idx: nat, me: Rect, a: Axis)
    requires |outputs| == |scaled|
    requires EdgeSnap(outputs, scaled, idx, me, a) == Along(me, a).lo
    ensures SnapsToGrid(outputs, scaled, idx, me, a, ClampToZero(RoundToGrid(Along(me, a).lo)))
  {
    var cands := Candidates(outputs, scaled, idx, me, a, |outputs|);
    ClosestIsFirstNearest(cands, Along(me, a).lo);
    NoOfferIsNearer(outputs, scaled, idx, me, a);
    NearResultIsOffer(outputs, scaled, idx, me, a);
  }

  /** The scan moved the unsnapped position: the axis snaps to the nearest offer. */
  lemma EdgeCase(outputs: seq<Output>, scaled: seq<Size>, idx: nat, me: Rect, a: Axis)
    requires |outputs| == |scaled|
    requires EdgeSnap(outputs, scaled, idx, me, a) != Along(me, a).lo
    ensures SnapsToEdge(outputs, scaled, idx, me, a, ClampToZero(EdgeSnap(outputs, scaled, idx, me, a)))
  {
    var t, e := Along(me, a).lo, EdgeSnap(outputs, scaled, idx, me, a);
    NoOfferIsNearer(outputs, scaled, idx, me, a);
    NearResultIsOffer(outputs, scaled, idx, me, a);
    assert Abs(t - e) == Closest(Candidates(outputs, scaled, idx, me, a, |outputs|), t).dist;
  }

  /** Each axis of the result comes from the nearest offer or from the grid. */
  lemma SnapAxisOutcome(outputs: seq<Output>, scaled: seq<Size>, idx: nat, me: Rect, a: Axis)
    requires |outputs| == |scaled|
    ensures var r := SnapAxis(outputs, scaled, idx, me, a);
      SnapsToEdge(outputs, scaled, idx, me, a, r) || SnapsToGrid(outputs, scaled, idx, me, a, r)
  {
    if EdgeSnap(outputs, scaled, idx, me, a) == Along(me, a).lo {
      GridCase(outputs, scaled, idx, me, a);
    } else {
      EdgeCase(outputs, scaled, idx, me, a);
    }
  }

  /**
   * The snapped position of a drag: the unsnapped position is the drag start
   * plus the delta, clamped to at least 0; each axis of the result is then
   * the nearest offer within the threshold, or the unsnapped coordinate
   * rounded to the grid, which is a multiple of 10 within 5 of it.
   */
  lemma SnapTargetSpec(outputs: seq<Output>, scaled: seq<Size>, idx: nat, start: Position, dx: int, dy: int)
    requires idx < |outputs| == |scaled|
    ensures var me := DraggedRect(outputs, scaled, idx, start, dx, dy);
      var p := SnapTarget(outputs, scaled, idx, start, dx, dy);
      && me.x == DragPosition(start, dx, dy).x && me.y == DragPosition(start, dx, dy).y
      && (SnapsToEdge(outputs, scaled, idx, me, X, p.x) || SnapsToGrid(outputs, scaled, idx, me, X, p.x))
      && (SnapsToEdge(outputs, scaled, idx, me, Y, p.y) || SnapsToGrid(outputs, scaled, idx, me, Y, p.y))
      && (SnapsToGrid(outputs, scaled, idx, me, X, p.x) ==> p.x % GridStep == 0 && Abs(p.x - me.x) <= 5)
      && (SnapsToGrid(outputs, scaled, idx, me, Y, p.y) ==> p.y % GridStep == 0 && Abs(p.y - me.y) <= 5)
  {
    var me := DraggedRect(outputs, scaled, idx, start, dx, dy);
    SnapAxisOutcome(outputs, scaled, idx, me, X);
    SnapAxisOutcome(outputs, scaled, idx, me, Y);
  }

  /**
   * The three comparisons against one other output on one axis: its far
   * edge, its near edge less the dragged length, its near edge; the best
   * so far is replaced only by a strictly closer position.
   */
  method ConsiderOffers(snapped: int, minDist: int, myLo: int, myHi: int, len: int, otherLo: int, otherHi: int)
    returns (snapped': int, minDist': int)
    requires myHi == myLo + len
    ensures Best(snapped', minDist')
      == Consider(Consider(Consider(Best(snapped, minDist), myLo, otherHi), myLo, otherLo - len), myLo, otherLo)
  {
    snapped', minDist' := snapped, minDist;
    if Abs(myLo - otherHi) < minDist' {
      minDist' := Abs(myLo - otherHi);
      snapped' := otherHi;
    }
    if Abs(myHi - otherLo) < minDist' {
      minDist' := Abs(myHi - otherLo);
      snapped' := otherLo - len;
    }
    if Abs(myLo - otherLo) < minDist' {
      minDist' := Abs(myLo - otherLo);
      snapped' := otherLo;
    }
  }

  /**
   * One output other than the dragged one: its edges are offered on each
   * axis whose crossing extents are near, and each scan keeps its closest
   * offer so far.
   */
  method ScanOther(outputs: seq<Output>, scaled: seq<Size>, idx: nat, me: Rect, i: nat,
                   snappedX: int, minDistX: int, snappedY: int, minDistY: int)
    returns (snappedX': int, minDistX': int, snappedY': int, minDistY': int)
    requires i < |outputs| == |scaled| && i != idx
    requires Best(snappedX, minDistX) == Closest(Candidates(outputs, scaled, idx, me, X, i), me.x)
    requires Best(snappedY, minDistY) == Closest(Candidates(outputs, scaled, idx, me, Y, i), me.y)
    ensures Best(snappedX', minDistX') == Closest(Candidates(outputs, scaled, idx, me, X, i + 1), me.x)
    ensures Best(snappedY', minDistY') == Closest(Candidates(outputs, scaled, idx, me, Y, i + 1), me.y)
  {
    var myLeft, myRight := me.x, me.x + me.w;
    var myTop, myBottom := me.y, me.y + me.h;
    var otherSize := LogicalSize(outputs[i].transform, scaled[i]);
    var otherLeft, otherRight := outputs[i].position.x, outputs[i].position.x + otherSize.w;
    var otherTop, otherBottom := outputs[i].position.y, outputs[i].position.y + otherSize.h;

    var xOverlap := myLeft < otherRight + SnapThreshold && myRight > otherLeft - SnapThreshold;
    var yOverlap := myTop < otherBottom + SnapThreshold && myBottom > otherTop - SnapThreshold;

    ScanStepX(outputs, scaled, idx, me, i, otherLeft, otherRight, otherTop, otherBottom);
    ScanStepY(outputs, scaled, idx, me, i, otherLeft, otherRight, otherTop, otherBottom);

    snappedX', minDistX', snappedY', minDistY' := snappedX, minDistX, snappedY, minDistY;
    if yOverlap {
      snappedX', minDistX' := ConsiderOffers(snappedX, minDistX, myLeft, myRight, me.w, otherLeft, otherRight);
    }
    if xOverlap {
      snappedY', minDistY' := ConsiderOffers(snappedY, minDistY, myTop, myBottom, me.h, otherTop, otherBottom);
    }
  }

  /**
   * The edge scan of a drag: every other output is compared, on each axis
   * whose crossing extents are near, and the closest offer under the
   * threshold is kept (the first one on a tie).
   */
  method EdgeScan(outputs: seq<Output>, scaled: seq<Size>, idx: nat, newX: int, newY: int, w: int, h: int)
    returns (snappedX: int, snappedY: int)
    requires |outputs| == |scaled|
    ensures snappedX == EdgeSnap(outputs, scaled, idx, Rect(newX, newY, w, h), X)
    ensures snappedY == EdgeSnap(outputs, scaled, idx, Rect(newX, newY, w, h), Y)
  {
    snappedX, snappedY := newX, newY;
    var minDistX, minDistY := SnapThreshold, SnapThreshold;

    var me := Rect(newX, newY, w, h);

    for i := 0 to |outputs|
      invariant Best(snappedX, minDistX) == Closest(Candidates(outputs, scaled, idx, me, X, i), newX)
      invariant Best(snappedY, minDistY) == Closest(Candidates(outputs, scaled, idx, me, Y, i), newY)
    {
      if i == idx {
        CandidatesStep(outputs, scaled, idx, me, i);
        assert Candidates(outputs, scaled, idx, me, X, i) + [] == Candidates(outputs, scaled, idx, me, X, i);
        assert Candidates(outputs, scaled, idx, me, Y, i) + [] == Candidates(outputs, scaled, idx, me, Y, i);
        continue;
      }
      snappedX, minDistX, snappedY, minDistY :=
        ScanOther(outputs, scaled, idx, me, i, snappedX, minDistX, snappedY, minDistY);
    }
  }

  /** Snapping as the pointer moves during a drag of output `idx`. */
  method Snap(outputs: seq<Output>, scaled: seq<Size>, idx: nat, start: Position, dx: int, dy: int)
    returns (sx: int, sy: int)
    requires idx < |outputs| == |scaled|
    ensures Position(sx, sy) == SnapTarget(outputs, scaled, idx, start, dx, dy)
  {
    var newX := start.x + dx;
    var newY := start.y + dy;
    if newX < 0 { newX := 0; }
    if newY < 0 { newY := 0; }

    var size := LogicalSize(outputs[idx].transform, scaled[idx]);
    var snappedX, snappedY := EdgeScan(outputs, scaled, idx, newX, newY, size.w, size.h);

    if snappedX == newX {
      snappedX := RoundToGrid(snappedX);
    }
    if snappedY == newY {
      snappedY := RoundToGrid(snappedY);
    }

    if snappedX < 0 { snappedX := 0; }
    if snappedY < 0 { snappedY := 0; }

    sx, sy := snappedX, snappedY;
  }
}
