/**
 * The arrangement normaliser: before an arrangement is applied or saved,
 * every output is shifted by one common offset so that no coordinate is
 * negative.
 */
module Normalize {
  import opened OutputModel

  function Xs(outputs: seq<Output>): (xs: seq<int>)
    ensures |xs| == |outputs| && forall k :: 0 <= k < |outputs| ==> xs[k] == outputs[k].position.x
  {
    seq(|outputs|, k requires 0 <= k < |outputs| => outputs[k].position.x)
  }

  function Ys(outputs: seq<Output>): (ys: seq<int>)
    ensures |ys| == |outputs| && forall k :: 0 <= k < |outputs| ==> ys[k] == outputs[k].position.y
  {
    seq(|outputs|, k requires 0 <= k < |outputs| => outputs[k].position.y)
  }

  /** The least element of `s`, or 0 when `s` is empty. */
  function MinOrZero(s: seq<int>): (m: int)
    ensures s == [] ==> m == 0
    ensures s != [] ==> (exists k :: 0 <= k < |s| && s[k] == m) && forall k :: 0 <= k < |s| ==> m <= s[k]
  {
    if |s| <= 1 then (if s == [] then 0 else s[0])
    else
      var rest := MinOrZero(s[1..]);
      assert forall k :: 1 <= k < |s| ==> s[k] == s[1..][k - 1];
      if s[0] < rest then s[0] else rest
  }

  /** The shift that lifts a least coordinate `m` to 0, or no shift when `m` is not negative. */
  function Offset(m: int): (d: int)
    ensures d >= 0 && m + d >= 0
    ensures m < 0 ==> m + d == 0
    ensures m >= 0 ==> d == 0
  {
    if m < 0 then -m else 0
  }

  function Shifted(o: Output, dx: int, dy: int): Output {
    o.(position := Position(o.position.x + dx, o.position.y + dy))
  }

  /** Whether normalising moves anything: some coordinate is negative. */
  predicate NeedsShift(outputs: seq<Output>) {
    Offset(MinOrZero(Xs(outputs))) > 0 || Offset(MinOrZero(Ys(outputs))) > 0
  }

  /** The normalised arrangement: every output moved by the same offset. */
  function Normalized(outputs: seq<Output>): (r: seq<Output>)
    ensures |r| == |outputs|
    ensures NeedsShift(outputs) ==>
      TranslatedBy(r, outputs, Offset(MinOrZero(Xs(outputs))), Offset(MinOrZero(Ys(outputs))))
    ensures !NeedsShift(outputs) ==> r == outputs
  {
    var dx := Offset(MinOrZero(Xs(outputs)));
    var dy := Offset(MinOrZero(Ys(outputs)));
    if dx > 0 || dy > 0 then seq(|outputs|, k requires 0 <= k < |outputs| => Shifted(outputs[k], dx, dy))
    else outputs
  }

  predicate NonNegativePositions(outputs: seq<Output>) {
    forall k :: 0 <= k < |outputs| ==> outputs[k].position.x >= 0 && outputs[k].position.y >= 0
  }

  /** The normalised arrangement has no negative coordinate. */
  lemma NormalizedNonNegative(outputs: seq<Output>)
    ensures NonNegativePositions(Normalized(outputs))
  {
    var mx, my := MinOrZero(Xs(outputs)), MinOrZero(Ys(outputs));
    forall k | 0 <= k < |outputs|
      ensures Normalized(outputs)[k].position.x >= 0 && Normalized(outputs)[k].position.y >= 0
    {
      assert Xs(outputs)[k] >= mx && Ys(outputs)[k] >= my;
    }
  }

  /** `r` is `outputs` with every output moved by (`dx`, `dy`). */
  predicate TranslatedBy(r: seq<Output>, outputs: seq<Output>, dx: int, dy: int) {
    |r| == |outputs| && forall k :: 0 <= k < |outputs| ==> r[k] == Shifted(outputs[k], dx, dy)
  }

  /** Moving every output by the normalising offsets gives the normalised arrangement. */
  lemma NormalizedByOffsets(outputs: seq<Output>, r: seq<Output>)
    requires TranslatedBy(r, outputs, Offset(MinOrZero(Xs(outputs))), Offset(MinOrZero(Ys(outputs))))
    ensures r == Normalized(outputs)
  {
    if !NeedsShift(outputs) {
      assert forall k :: 0 <= k < |outputs| ==> r[k] == outputs[k];
    }
  }

  /**
   * Every output moves by the same two amounts and nothing but its position
   * changes, so the differences between positions are kept.
   */
  lemma NormalizedIsTranslation(outputs: seq<Output>)
    ensures exists dx, dy :: dx >= 0 && dy >= 0 && TranslatedBy(Normalized(outputs), outputs, dx, dy)
    ensures forall j, k :: 0 <= j < |outputs| && 0 <= k < |outputs| ==>
      && Normalized(outputs)[j].position.x - Normalized(outputs)[k].position.x == outputs[j].position.x - outputs[k].position.x
      && Normalized(outputs)[j].position.y - Normalized(outputs)[k].position.y == outputs[j].position.y - outputs[k].position.y
  {
    var dx := Offset(MinOrZero(Xs(outputs)));
    var dy := Offset(MinOrZero(Ys(outputs)));
    assert TranslatedBy(Normalized(outputs), outputs, dx, dy);
  }

  /** An arrangement without negative coordinates is left as it is. */
  lemma NormalizedKeepsNonNegative(outputs: seq<Output>)
    requires NonNegativePositions(outputs)
    ensures !NeedsShift(outputs) && Normalized(outputs) == outputs
  {
    if outputs != [] {
      var kx :| 0 <= kx < |outputs| && Xs(outputs)[kx] == MinOrZero(Xs(outputs));
      var ky :| 0 <= ky < |outputs| && Ys(outputs)[ky] == MinOrZero(Ys(outputs));
    }
  }

  /** Normalising twice is the same as normalising once. */
  lemma NormalizedIdempotent(outputs: seq<Output>)
    ensures Normalized(Normalized(outputs)) == Normalized(outputs)
  {
    NormalizedNonNegative(outputs);
    NormalizedKeepsNonNegative(Normalized(outputs));
  }

  /** Shifting every element by `d` shifts the least element by `d`. */
  lemma {:induction false} MinOrZeroShift(s: seq<int>, t: seq<int>, d: int)
    requires s != [] && |t| == |s| && forall k :: 0 <= k < |s| ==> t[k] == s[k] + d
    ensures MinOrZero(t) == MinOrZero(s) + d
  {
    var m := MinOrZero(s);
    var k :| 0 <= k < |s| && s[k] == m;
    assert t[k] == m + d;
  }

  /** On an axis with a negative coordinate, the least coordinate becomes exactly 0. */
  lemma NormalizedLeastIsZero(outputs: seq<Output>)
    ensures MinOrZero(Xs(outputs)) < 0 ==> MinOrZero(Xs(Normalized(outputs))) == 0
    ensures MinOrZero(Ys(outputs)) < 0 ==> MinOrZero(Ys(Normalized(outputs))) == 0
  {
    var n := Normalized(outputs);
    var dx := Offset(MinOrZero(Xs(outputs)));
    var dy := Offset(MinOrZero(Ys(outputs)));
    if outputs != [] && NeedsShift(outputs) {
      MinOrZeroShift(Xs(outputs), Xs(n), dx);
      MinOrZeroShift(Ys(outputs), Ys(n), dy);
    }
  }

  /** A positive least coordinate is not moved down to 0. */
  lemma PositiveLeastIsKept()
    ensures var outputs := [Output("A", "", "", Position(100, 50), "normal", true, [])];
      MinOrZero(Xs(Normalized(outputs))) == 100
  {
    var outputs := [Output("A", "", "", Position(100, 50), "normal", true, [])];
    NormalizedKeepsNonNegative(outputs);
  }
}
