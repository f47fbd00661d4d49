/**
 * The output model: one managed display, its modes, and the logical size it
 * occupies in the shared coordinate space.
 */
module OutputModel {

  /** A point or a position in the shared logical coordinate space. */
  datatype Position = Position(x: int, y: int)

  /** One supported mode; the refresh rate (a float) is not modelled. */
  datatype OutputMode = OutputMode(width: nat, height: nat, current: bool, preferred: bool)

  /** One display output; the scale factor (a float) is not modelled. */
  datatype Output = Output(
    name: string,
    description: string,
    physicalSize: string,
    position: Position,
    transform: string,
    enabled: bool,
    modes: seq<OutputMode>)

  /** A coordinate raised to 0 when it is negative, as every position edit does. */
  function ClampToZero(v: int): (r: int)
    ensures r >= 0
    ensures v >= 0 ==> r == v
    ensures v < 0 ==> r == 0
  {
    if v < 0 then 0 else v
  }

  /** A width and a height. */
  datatype Size = Size(w: int, h: int)

  /** An integer rectangle: left edge, top edge, width, height. */
  datatype Rect = Rect(x: int, y: int, w: int, h: int)

  /** The transforms the transform picker offers, in its order. */
  const Transforms: seq<string> :=
    ["normal", "90", "180", "270", "flipped", "flipped-90", "flipped-180", "flipped-270"]

  /** The transforms that rotate by a quarter turn and so exchange width and height. */
  predicate IsQuarterTurn(transform: string) {
    transform == "90" || transform == "270" || transform == "flipped-90" || transform == "flipped-270"
  }

  /**
   * The on-canvas size of an output whose current mode, divided by the
   * output's scale, measures `scaled`: the two sides are exchanged for a
   * quarter-turn transform and kept for every other string.
   */
  function LogicalSize(transform: string, scaled: Size): (r: Size)
    ensures !IsQuarterTurn(transform) ==> r == scaled
    ensures IsQuarterTurn(transform) ==> r.w == scaled.h && r.h == scaled.w
  {
    if IsQuarterTurn(transform) then Size(scaled.h, scaled.w) else scaled
  }

  /** Applying the same transform twice gives back the untransformed size. */
  lemma LogicalSizeInvolution(transform: string, scaled: Size)
    ensures LogicalSize(transform, LogicalSize(transform, scaled)) == scaled
  {
  }

  /** A landscape mode is shown in portrait exactly under a quarter-turn transform. */
  lemma LogicalSizeOrientation(transform: string, scaled: Size)
    requires scaled.w > scaled.h
    ensures LogicalSize(transform, scaled).w < LogicalSize(transform, scaled).h <==> IsQuarterTurn(transform)
  {
  }

  /** Exactly four of the offered transforms are quarter turns. */
  lemma QuarterTurnsAmongTransforms()
    ensures forall k :: 0 <= k < |Transforms| ==> (IsQuarterTurn(Transforms[k]) <==> k in {1, 3, 5, 7})
  {
  }

  /**
   * The current mode as the source looks it up: the first mode flagged
   * current, or `fallback` when no mode is. The source's fallback is an
   * 800x600 mode; the snap engine receives sizes already looked up, so
   * the fallback stays a parameter here.
   */
  function CurrentMode(modes: seq<OutputMode>, fallback: OutputMode): (m: OutputMode)
    ensures || (exists k :: 0 <= k < |modes| && modes[k].current && m == modes[k]
                           && forall j :: 0 <= j < k ==> !modes[j].current)
            || ((forall k :: 0 <= k < |modes| ==> !modes[k].current) && m == fallback)
  {
    if modes == [] then fallback
    else if modes[0].current then modes[0]
    else
      var rest := CurrentMode(modes[1..], fallback);
      assert forall j :: 1 <= j < |modes| ==> modes[j] == modes[1..][j - 1];
      rest
  }

  /** Exactly one mode of `modes` is flagged current. */
  predicate ExactlyOneCurrent(modes: seq<OutputMode>) {
    exists k :: 0 <= k < |modes| && modes[k].current && forall j :: 0 <= j < |modes| && modes[j].current ==> j == k
  }

  /**
   * The modes after choosing mode `r`: every current flag is cleared, then
   * mode `r` is flagged current if it exists.
   */
  function SelectMode(modes: seq<OutputMode>, r: nat): (s: seq<OutputMode>)
    ensures |s| == |modes|
    ensures forall k :: 0 <= k < |s| ==> (s[k].current <==> k == r)
    ensures forall k :: 0 <= k < |s| ==> s[k].(current := modes[k].current) == modes[k]
  {
    seq(|modes|, k requires 0 <= k < |modes| => modes[k].(current := k == r))
  }

  /**
   * Choosing an existing mode leaves exactly that mode current; choosing a
   * missing one leaves none current; width, height and the preferred flag of
   * every mode are kept.
   */
  lemma SelectModeFlags(modes: seq<OutputMode>, r: nat)
    ensures r < |modes| ==> ExactlyOneCurrent(SelectMode(modes, r)) && SelectMode(modes, r)[r].current
    ensures r >= |modes| ==> forall k :: 0 <= k < |modes| ==> !SelectMode(modes, r)[k].current
    ensures forall k :: 0 <= k < |modes| ==>
      SelectMode(modes, r)[k].(current := modes[k].current) == modes[k]
  {
    if r < |modes| {
      var s := SelectMode(modes, r);
      assert s[r].current && forall j :: 0 <= j < |s| && s[j].current ==> j == r;
    }
  }

  /** After choosing an existing mode, the current-mode lookup finds exactly it. */
  lemma SelectModeCurrent(modes: seq<OutputMode>, r: nat, fallback: OutputMode)
    ensures r < |modes| ==> CurrentMode(SelectMode(modes, r), fallback) == modes[r].(current := true)
    ensures r >= |modes| ==> CurrentMode(SelectMode(modes, r), fallback) == fallback
  {
    var s := SelectMode(modes, r);
    var m := CurrentMode(s, fallback);
    if r < |modes| {
      assert s[r].current;
    }
  }
}
