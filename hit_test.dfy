/**
 * Hit-testing the canvas: which output rectangle lies under a point. Both the
 * press handler and the hover scan walk the outputs in order and keep the
 * last rectangle that contains the point, so the output drawn on top wins.
 */
module HitTest {
  import opened Options
  import opened OutputModel

  /** `r` contains `p`: closed at the left and top edges, open at the right and bottom. */
  predicate Contains(r: Rect, p: Position) {
    r.x <= p.x < r.x + r.w && r.y <= p.y < r.y + r.h
  }

  /** The last index whose rectangle contains `p`, or `None` when no rectangle does. */
  function LastHit(rects: seq<Rect>, p: Position): (h: Option<nat>)
    ensures h.None? <==> forall k :: 0 <= k < |rects| ==> !Contains(rects[k], p)
    ensures h.Some? ==>
      && h.value < |rects| && Contains(rects[h.value], p)
      && forall k :: h.value < k < |rects| ==> !Contains(rects[k], p)
  {
    if rects == [] then None
    else if Contains(rects[|rects| - 1], p) then Some(|rects| - 1)
    else
      var h := LastHit(rects[..|rects| - 1], p);
      assert forall k :: 0 <= k < |rects| - 1 ==> rects[k] == rects[..|rects| - 1][k];
      h
  }

  /** A hit at `k` is the last hit exactly when no later rectangle contains the point. */
  lemma LastHitUnique(rects: seq<Rect>, p: Position, k: nat)
    requires k < |rects| && Contains(rects[k], p)
    ensures LastHit(rects, p) == Some(k) <==> forall j :: k < j < |rects| ==> !Contains(rects[j], p)
  {
    var h := LastHit(rects, p);
    if forall j :: k < j < |rects| ==> !Contains(rects[j], p) {
      assert h.Some?;
    }
  }

  /**
   * The scan: every rectangle is tested in order and the index of each one
   * containing `p` overwrites the previous answer.
   */
  method ScanHits(rects: seq<Rect>, p: Position) returns (hit: Option<nat>)
    ensures hit == LastHit(rects, p)
  {
    hit := None;
    for i := 0 to |rects|
      invariant hit == LastHit(rects[..i], p)
    {
      assert rects[..i + 1][..i] == rects[..i];
      if Contains(rects[i], p) {
        hit := Some(i);
      }
    }
    assert rects[..|rects|] == rects;
  }
}
