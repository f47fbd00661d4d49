/**
 * The layout canvas's event handling: a left press picks the output under
 * the cursor and starts dragging it, a release ends the drag, and a cursor
 * move either publishes the snapped position of the dragged output or
 * updates which output is hovered.
 *
 * Where each output is drawn comes from a floating-point projection that
 * is not part of this model; the handlers take the drawn rectangles
 * (`rects[i]` for output `i`) as integer input.
 */
module Canvas {
  import opened Options
  import opened OutputModel
  import opened HitTest
  import opened SnapEngine
  import opened Display

  /** A drag in progress: the output, the cursor at the press, and the output's position then. */
  datatype Drag = Drag(index: nat, startCursor: Position, startPosition: Position)

  /** The drag that a press at `c` leaves: the last output hit, or `previous` when none is. */
  function PressedDrag(outputs: seq<Output>, rects: seq<Rect>, c: Position, previous: Option<Drag>): (d: Option<Drag>)
    requires |rects| == |outputs|
    ensures LastHit(rects, c).None? ==> d == previous
    ensures LastHit(rects, c).Some? ==>
      && d.Some? && d.value.index == LastHit(rects, c).value
      && d.value.startCursor == c && d.value.startPosition == outputs[d.value.index].position
  {
    match LastHit(rects, c)
    case Some(j) => Some(Drag(j, c, outputs[j].position))
    case None => previous
  }

  class CanvasState {
    var dragging: Option<Drag>
    var hovered: Option<nat>

    /** Nothing is dragged and nothing is hovered. */
    constructor ()
      ensures dragging == None && hovered == None
    {
      dragging := None;
      hovered := None;
    }

    /**
     * A left press at `cursor`, which is `None` when the cursor is outside
     * the canvas. The outputs are tested in order and each one under the
     * cursor replaces the drag; the scan starts from the drag already
     * recorded, so with no output under the cursor an earlier drag stays
     * and its output is announced again.
     */
    method ButtonPressed(outputs: seq<Output>, rects: seq<Rect>, cursor: Option<Position>)
      returns (published: Option<Message>)
      requires |rects| == |outputs|
      modifies this
      ensures hovered == old(hovered)
      ensures cursor.None? ==> dragging == old(dragging) && published == None
      ensures cursor.Some? ==> dragging == PressedDrag(outputs, rects, cursor.value, old(dragging))
      ensures cursor.Some? ==>
        published == (if dragging.Some? then Some(MonitorClicked(dragging.value.index)) else None)
    {
      published := None;
      if cursor.Some? {
        var c := cursor.value;
        for i := 0 to |outputs|
          invariant hovered == old(hovered)
          invariant dragging == PressedDrag(outputs[..i], rects[..i], c, old(dragging))
        {
          assert rects[..i + 1][..i] == rects[..i];
          if Contains(rects[i], c) {
            dragging := Some(Drag(i, c, outputs[i].position));
          }
        }
        assert rects[..|rects|] == rects;
        if dragging.Some? {
          published := Some(MonitorClicked(dragging.value.index));
        } else {
          dragging := None;
        }
      }
    }

    /** A left release ends any drag. */
    method ButtonReleased()
      modifies this
      ensures dragging == None && hovered == old(hovered)
    {
      dragging := None;
    }

    /**
     * The cursor moved to `position`. While dragging, the dragged output's
     * snapped position for the movement (`dx`, `dy`) since the press (in
     * logical units, already rounded) is published. Otherwise the output
     * under the cursor becomes the hovered one, and the drawing cache is
     * cleared only when that changed.
     */
    method CursorMoved(outputs: seq<Output>, scaled: seq<Size>, rects: seq<Rect>, position: Position, dx: int, dy: int)
      returns (published: Option<Message>, cacheCleared: bool)
      requires |scaled| == |outputs| && |rects| == |outputs|
      requires dragging.Some? ==> dragging.value.index < |outputs|
      modifies this
      ensures dragging == old(dragging)
      ensures old(dragging).Some? ==>
        var d := old(dragging).value;
        var p := SnapTarget(outputs, scaled, d.index, d.startPosition, dx, dy);
        published == Some(MonitorPositioned(d.index, p.x, p.y)) && !cacheCleared && hovered == old(hovered)
      ensures old(dragging).None? ==>
        published == None && hovered == LastHit(rects, position) && cacheCleared == (hovered != old(hovered))
      ensures published.Some? ==> published.value.MonitorPositioned? && published.value.x >= 0 && published.value.y >= 0
    {
      published, cacheCleared := None, false;
      if dragging.Some? {
        var d := dragging.value;
        var sx, sy := Snap(outputs, scaled, d.index, d.startPosition, dx, dy);
        published := Some(MonitorPositioned(d.index, sx, sy));
      } else {
        var newHovered := ScanHits(rects, position);
        if hovered != newHovered {
          hovered := newHovered;
          cacheCleared := true;
        }
      }
    }
  }
}
