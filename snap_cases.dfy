/**
 * Concrete drags worked through the snap engine, on two outputs side by side
 * and on a single output.
 */
module SnapCases {
  import opened OutputModel
  import opened SnapEngine

  function Screen(name: string, x: int, y: int): Output {
    Output(name, "", "", Position(x, y), "normal", true, [])
  }

  /** The scan over exactly three offers. */
  lemma ThreeOffers(c0: int, c1: int, c2: int, target: int)
    ensures Closest([c0, c1, c2], target)
      == Consider(Consider(Consider(Best(target, SnapThreshold), target, c0), target, c1), target, c2)
  {
    ClosestStep([], target, true, c0, c1, c2);
    assert [] + [c0, c1, c2] == [c0, c1, c2];
  }

  /**
   * With B at (1920, 0) beside a 1920x1080 output A, dragging A to an
   * unsnapped (1900, 0) puts its left edge 20 from B's left edge, and that
   * offer wins: A lands on top of B, not beside it.
   */
  lemma DragNearNeighbourLeftEdge()
    ensures SnapTarget([Screen("A", 0, 0), Screen("B", 1920, 0)], [Size(1920, 1080), Size(1920, 1080)],
                       0, Position(0, 0), 1900, 0) == Position(1920, 0)
  {
    var outputs := [Screen("A", 0, 0), Screen("B", 1920, 0)];
    var scaled := [Size(1920, 1080), Size(1920, 1080)];
    var me := Rect(1900, 0, 1920, 1080);
    assert DraggedRect(outputs, scaled, 0, Position(0, 0), 1900, 0) == me;
    assert Candidates(outputs, scaled, 0, me, X, 2) == [3840, 0, 1920];
    assert Candidates(outputs, scaled, 0, me, Y, 2) == [1080, -1080, 0];
    ThreeOffers(3840, 0, 1920, 1900);
    assert Closest([3840, 0, 1920], 1900) == Best(1920, 20);
    ThreeOffers(1080, -1080, 0, 0);
    assert Closest([1080, -1080, 0], 0) == Best(0, 0);
    assert SnapAxis(outputs, scaled, 0, me, X) == 1920;
    assert SnapAxis(outputs, scaled, 0, me, Y) == 0;
  }

  /** Dragging A to an unsnapped (15, 0) brings its right edge 15 from B's left edge: A ends flush beside B. */
  lemma DragFlushBesideNeighbour()
    ensures SnapTarget([Screen("A", 0, 0), Screen("B", 1920, 0)], [Size(1920, 1080), Size(1920, 1080)],
                       0, Position(0, 0), 15, 0) == Position(0, 0)
  {
    var outputs := [Screen("A", 0, 0), Screen("B", 1920, 0)];
    var scaled := [Size(1920, 1080), Size(1920, 1080)];
    var me := Rect(15, 0, 1920, 1080);
    assert DraggedRect(outputs, scaled, 0, Position(0, 0), 15, 0) == me;
    assert Candidates(outputs, scaled, 0, me, X, 2) == [3840, 0, 1920];
    assert Candidates(outputs, scaled, 0, me, Y, 2) == [1080, -1080, 0];
    ThreeOffers(3840, 0, 1920, 15);
    assert Closest([3840, 0, 1920], 15) == Best(0, 15);
    ThreeOffers(1080, -1080, 0, 0);
    assert Closest([1080, -1080, 0], 0) == Best(0, 0);
    assert SnapAxis(outputs, scaled, 0, me, X) == 0;
    assert SnapAxis(outputs, scaled, 0, me, Y) == 0;
  }

  /** A lone output has no offers, so both axes go to the grid: (1234, 567) becomes (1230, 570). */
  lemma DragAloneToGrid()
    ensures SnapTarget([Screen("A", 0, 0)], [Size(1920, 1080)], 0, Position(0, 0), 1234, 567) == Position(1230, 570)
  {
    var me := Rect(1234, 567, 1920, 1080);
    assert DraggedRect([Screen("A", 0, 0)], [Size(1920, 1080)], 0, Position(0, 0), 1234, 567) == me;
    assert Candidates([Screen("A", 0, 0)], [Size(1920, 1080)], 0, me, X, 1) == [];
    assert Candidates([Screen("A", 0, 0)], [Size(1920, 1080)], 0, me, Y, 1) == [];
  }

  /**
   * B is 1706 wide (a 2560 mode at scale 1.5). One unit short of flush, A
   * snaps to B's right edge at 1706; exactly flush, the edge is at distance
   * 0, the position counts as unmoved and is rounded to 1710, leaving a gap.
   */
  lemma FlushEdgeIsRounded()
    ensures SnapTarget([Screen("B", 0, 0), Screen("A", 0, 0)], [Size(1706, 960), Size(1706, 960)],
                       1, Position(0, 0), 1705, 0) == Position(1706, 0)
    ensures SnapTarget([Screen("B", 0, 0), Screen("A", 0, 0)], [Size(1706, 960), Size(1706, 960)],
                       1, Position(0, 0), 1706, 0) == Position(1710, 0)
  {
    var outputs := [Screen("B", 0, 0), Screen("A", 0, 0)];
    var scaled := [Size(1706, 960), Size(1706, 960)];
    var near, flush := Rect(1705, 0, 1706, 960), Rect(1706, 0, 1706, 960);
    assert DraggedRect(outputs, scaled, 1, Position(0, 0), 1705, 0) == near;
    assert DraggedRect(outputs, scaled, 1, Position(0, 0), 1706, 0) == flush;
    assert Candidates(outputs, scaled, 1, near, X, 2) == [1706, -1706, 0];
    assert Candidates(outputs, scaled, 1, near, Y, 2) == [960, -960, 0];
    assert Candidates(outputs, scaled, 1, flush, X, 2) == [1706, -1706, 0];
    assert Candidates(outputs, scaled, 1, flush, Y, 2) == [960, -960, 0];
    ThreeOffers(1706, -1706, 0, 1705);
    assert Closest([1706, -1706, 0], 1705) == Best(1706, 1);
    ThreeOffers(1706, -1706, 0, 1706);
    assert Closest([1706, -1706, 0], 1706) == Best(1706, 0);
    ThreeOffers(960, -960, 0, 0);
    assert Closest([960, -960, 0], 0) == Best(0, 0);
    assert SnapAxis(outputs, scaled, 1, near, X) == 1706;
    assert SnapAxis(outputs, scaled, 1, flush, X) == 1710;
    assert SnapAxis(outputs, scaled, 1, near, Y) == 0;
    assert SnapAxis(outputs, scaled, 1, flush, Y) == 0;
  }
}
