/**
 * The display editor's state and its message handler: which output is
 * selected, the arrangement of all outputs, the two position text fields,
 * and whether the cached canvas drawing was invalidated (`dirty`).
 */
module Display {
  import opened Options
  import opened OutputModel
  import opened NumericText
  import opened Normalize

  /** The messages of the editor that carry integers, flags, indices and text. */
  datatype Message =
    | MonitorClicked(index: nat)
    | MonitorPositioned(index: nat, x: int, y: int)
    | XChanged(text: string)
    | YChanged(text: string)
    | XInc
    | XDec
    | YInc
    | YDec
    | EnabledToggled(on: bool)
    | ResolutionSelected(mode: nat)
    | TransformSelected(transform: string)
    | ApplyClicked
    | SaveClicked

  /** `o` with its horizontal coordinate replaced by `x`. */
  function WithX(o: Output, x: int): Output {
    o.(position := Position(x, o.position.y))
  }

  /** `o` with its vertical coordinate replaced by `y`. */
  function WithY(o: Output, y: int): Output {
    o.(position := Position(o.position.x, y))
  }

  /**
   * Typing back the text a field displays for a coordinate in the `i32`
   * range that is not negative parses to that coordinate and survives the
   * clamp, so the edit leaves the position where it was.
   */
  lemma RetypedPositionIsKept(v: int)
    requires 0 <= v <= I32Max
    ensures ParseI32(IntToString(v)) == Some(v) && ClampToZero(ParseI32(IntToString(v)).value) == v
  {
    ParseDisplayedI32(v);
  }

  /** The editor's state as a value: the five fields the message handler changes. */
  datatype Editor = Editor(outputs: seq<Output>, selected: Option<nat>, dirty: bool, xInput: string, yInput: string)
  {
    /** The selection, when there is one, names an existing output. */
    predicate Valid() {
      selected.Some? ==> selected.value < |outputs|
    }

    /** With a selection, the two text fields show the selected output's coordinates. */
    predicate InSync()
      requires Valid()
    {
      selected.Some? ==>
        && xInput == IntToString(outputs[selected.value].position.x)
        && yInput == IntToString(outputs[selected.value].position.y)
    }
  }

  /** The message names existing outputs where it names one. */
  predicate Accepts(e: Editor, msg: Message) {
    match msg
    case MonitorClicked(idx) => idx < |e.outputs|
    case MonitorPositioned(idx, _, _) => idx < |e.outputs|
    case _ => true
  }

  /** The text fields refreshed from the selected output; without a selection nothing changes. */
  function Refreshed(e: Editor): (r: Editor)
    requires e.Valid()
    ensures r.Valid() && r.InSync()
    ensures r.outputs == e.outputs && r.selected == e.selected && r.dirty == e.dirty
    ensures e.selected.None? ==> r == e
  {
    if e.selected.Some? then
      e.(xInput := IntToString(e.outputs[e.selected.value].position.x),
         yInput := IntToString(e.outputs[e.selected.value].position.y))
    else e
  }

  /** The selected output replaced by `o`, with the cache cleared. */
  function Replaced(e: Editor, o: Output): Editor
    requires e.Valid() && e.selected.Some?
  {
    e.(outputs := e.outputs[e.selected.value := o], dirty := true)
  }

  /**
   * Normalising the arrangement: every output moves by the common offset;
   * when something moved the fields are refreshed and the cache is cleared.
   */
  function Normalizing(e: Editor): (r: Editor)
    requires e.Valid()
    ensures r.Valid() && r.selected == e.selected && r.outputs == Normalized(e.outputs)
  {
    if NeedsShift(e.outputs) then Refreshed(e.(outputs := Normalized(e.outputs), dirty := true))
    else e
  }

  /**
   * The state after one message. Only a click changes the selection, and
   * the number of outputs never changes.
   */
  function Next(e: Editor, msg: Message): (n: Editor)
    requires e.Valid() && Accepts(e, msg)
    ensures n.Valid() && |n.outputs| == |e.outputs|
    ensures msg.MonitorClicked? ==> n.selected == Some(msg.index)
    ensures !msg.MonitorClicked? ==> n.selected == e.selected
  {
    match msg
    case MonitorClicked(idx) => Refreshed(e.(selected := Some(idx), dirty := true))
    case MonitorPositioned(idx, x, y) =>
      var placed := e.(outputs := e.outputs[idx := e.outputs[idx].(position := Position(x, y))], dirty := true);
      if e.selected == Some(idx) then Refreshed(placed) else placed
    case XChanged(text) =>
      var typed := e.(xInput := text);
      if e.selected.Some? && ParseI32(text).Some? then
        Replaced(typed, WithX(e.outputs[e.selected.value], ClampToZero(ParseI32(text).value)))
      else typed
    case YChanged(text) =>
      var typed := e.(yInput := text);
      if e.selected.Some? && ParseI32(text).Some? then
        Replaced(typed, WithY(e.outputs[e.selected.value], ClampToZero(ParseI32(text).value)))
      else typed
    case XInc =>
      if e.selected.Some? then
        var o := e.outputs[e.selected.value];
        Refreshed(Replaced(e, WithX(o, o.position.x + 1)))
      else e
    case XDec =>
      if e.selected.Some? && e.outputs[e.selected.value].position.x > 0 then
        var o := e.outputs[e.selected.value];
        Refreshed(Replaced(e, WithX(o, o.position.x - 1)))
      else e
    case YInc =>
      if e.selected.Some? then
        var o := e.outputs[e.selected.value];
        Refreshed(Replaced(e, WithY(o, o.position.y + 1)))
      else e
    case YDec =>
      if e.selected.Some? && e.outputs[e.selected.value].position.y > 0 then
        var o := e.outputs[e.selected.value];
        Refreshed(Replaced(e, WithY(o, o.position.y - 1)))
      else e
    case EnabledToggled(on) =>
      if e.selected.Some? then Replaced(e, e.outputs[e.selected.value].(enabled := on)) else e
    case ResolutionSelected(r) =>
      if e.selected.Some? then
        var o := e.outputs[e.selected.value];
        Replaced(e, o.(modes := SelectMode(o.modes, r)))
      else e
    case TransformSelected(t) =>
      if e.selected.Some? then Replaced(e, e.outputs[e.selected.value].(transform := t)) else e
    case ApplyClicked => Normalizing(e)
    case SaveClicked => Normalizing(e)
  }

  /** Apply and save leave the normalised arrangement, with no negative coordinate. */
  lemma ApplyLeavesNonNegative(e: Editor, msg: Message)
    requires e.Valid() && (msg.ApplyClicked? || msg.SaveClicked?)
    ensures Next(e, msg).outputs == Normalized(e.outputs) && NonNegativePositions(Next(e, msg).outputs)
  {
    NormalizedNonNegative(e.outputs);
  }

  /**
   * No message makes a coordinate negative, except a placement at a
   * negative position: typed values are raised to 0 and a decrement stops
   * at 0.
   */
  lemma NextKeepsNonNegative(e: Editor, msg: Message)
    requires e.Valid() && Accepts(e, msg) && NonNegativePositions(e.outputs)
    requires msg.MonitorPositioned? ==> msg.x >= 0 && msg.y >= 0
    ensures NonNegativePositions(Next(e, msg).outputs)
  {
    if msg.ApplyClicked? || msg.SaveClicked? {
      ApplyLeavesNonNegative(e, msg);
    }
  }

  /** Whenever a message changes the arrangement, the drawing cache is cleared. */
  lemma ChangeClearsCache(e: Editor, msg: Message)
    requires e.Valid() && Accepts(e, msg)
    ensures Next(e, msg).outputs != e.outputs ==> Next(e, msg).dirty
  {
  }

  /**
   * Every message except an edit of a text field keeps the fields showing
   * the selected output's coordinates.
   */
  lemma NextKeepsInSync(e: Editor, msg: Message)
    requires e.Valid() && e.InSync() && Accepts(e, msg)
    requires !msg.XChanged? && !msg.YChanged?
    ensures Next(e, msg).InSync()
  {
    if msg.MonitorPositioned? && e.selected.Some? && e.selected != Some(msg.index) {
      assert Next(e, msg).outputs[e.selected.value] == e.outputs[e.selected.value];
    }
  }

  /**
   * Typing back the text the horizontal field shows, for a selected
   * output at a non-negative `i32` coordinate, leaves the arrangement as
   * it was.
   */
  lemma RetypedXKeepsArrangement(e: Editor)
    requires e.Valid() && e.InSync() && e.selected.Some?
    requires 0 <= e.outputs[e.selected.value].position.x <= I32Max
    ensures Next(e, XChanged(e.xInput)).outputs == e.outputs
  {
    var o := e.outputs[e.selected.value];
    RetypedPositionIsKept(o.position.x);
    assert WithX(o, o.position.x) == o;
  }

  /**
   * Choosing one of the selected output's existing modes, as the refresh
   * rate picker does, leaves exactly that mode current.
   */
  lemma ExistingResolutionIsSoleCurrent(e: Editor, r: nat)
    requires e.Valid() && e.selected.Some? && r < |e.outputs[e.selected.value].modes|
    ensures var modes := Next(e, ResolutionSelected(r)).outputs[e.selected.value].modes;
      ExactlyOneCurrent(modes) && modes[r].current
  {
    SelectModeFlags(e.outputs[e.selected.value].modes, r);
  }

  /**
   * Every message keeps every output with exactly one current mode, as long
   * as a mode choice names an existing mode, which is all the refresh rate
   * picker can send. Apply and save move outputs without touching modes.
   */
  lemma NextKeepsOneCurrent(e: Editor, msg: Message)
    requires e.Valid() && Accepts(e, msg)
    requires forall k :: 0 <= k < |e.outputs| ==> ExactlyOneCurrent(e.outputs[k].modes)
    requires msg.ResolutionSelected? && e.selected.Some? ==> msg.mode < |e.outputs[e.selected.value].modes|
    ensures forall k :: 0 <= k < |Next(e, msg).outputs| ==> ExactlyOneCurrent(Next(e, msg).outputs[k].modes)
  {
    if msg.ResolutionSelected? && e.selected.Some? {
      SelectModeFlags(e.outputs[e.selected.value].modes, msg.mode);
    } else if msg.ApplyClicked? || msg.SaveClicked? {
      assert forall k :: 0 <= k < |e.outputs| ==> Normalized(e.outputs)[k].modes == e.outputs[k].modes;
    }
  }

  /** A decrement undoes an increment for a selected output whose coordinate is not negative. */
  lemma DecUndoesInc(e: Editor)
    requires e.Valid() && e.selected.Some? && e.outputs[e.selected.value].position.x >= 0
    ensures Next(Next(e, XInc), XDec).outputs == e.outputs
    ensures Next(Next(e, XInc), XDec).InSync()
  {
    var i, o := e.selected.value, e.outputs[e.selected.value];
    var up := WithX(o, o.position.x + 1);
    IncStep(e);
    var e1 := Next(e, XInc);
    DecStep(e1);
    assert WithX(up, o.position.x) == o;
    assert e1.outputs[i := o] == e.outputs;
  }

  /** One `XInc` with a selection: the selected x grows by 1 and the fields are refreshed. */
  lemma IncStep(e: Editor)
    requires e.Valid() && e.selected.Some?
    ensures var o := e.outputs[e.selected.value];
      Next(e, XInc) == Refreshed(Replaced(e, WithX(o, o.position.x + 1)))
  {
  }

  /** One `XDec` with a selection at a positive x: it drops by 1 and the fields are refreshed. */
  lemma DecStep(e: Editor)
    requires e.Valid() && e.selected.Some? && e.outputs[e.selected.value].position.x > 0
    ensures var o := e.outputs[e.selected.value];
      Next(e, XDec) == Refreshed(Replaced(e, WithX(o, o.position.x - 1)))
  {
  }

  class MangoDisplay {
    var outputs: seq<Output>
    var selected: Option<nat>
    /** Set whenever the canvas drawing cache is cleared. */
    var dirty: bool
    var xInput: string
    var yInput: string

    /** The fields as an `Editor` value. */
    function State(): Editor
      reads this
    {
      Editor(outputs, selected, dirty, xInput, yInput)
    }

    /** The selection, when there is one, names an existing output. */
    predicate Valid()
      reads this
    {
      State().Valid()
    }

    /**
     * With a selection, the two text fields show the selected output's
     * coordinates; without one they still hold `x` and `y`.
     */
    predicate ShowsSelection(x: string, y: string)
      reads this
      requires Valid()
    {
      State().InSync() && (selected.None? ==> xInput == x && yInput == y)
    }

    /**
     * The editor over the outputs the backend enumerated: the first output
     * is selected when there is one, and the fields show its position. A
     * fresh drawing cache holds nothing, which counts as cleared.
     */
    constructor (enumerated: seq<Output>)
      ensures Valid()
      ensures outputs == enumerated && dirty
      ensures selected == (if enumerated != [] then Some(0) else None)
      ensures ShowsSelection("", "")
    {
      outputs := enumerated;
      selected := if enumerated != [] then Some(0) else None;
      dirty := true;
      xInput := "";
      yInput := "";
      new;
      UpdateInputsForSelection();
    }

    /** Refreshes the text fields from the selected output's position. */
    method UpdateInputsForSelection()
      requires Valid()
      modifies this
      ensures State() == Refreshed(old(State()))
      ensures Valid()
      ensures outputs == old(outputs) && selected == old(selected) && dirty == old(dirty)
      ensures ShowsSelection(old(xInput), old(yInput))
    {
      if selected.Some? {
        var out := outputs[selected.value];
        xInput := IntToString(out.position.x);
        yInput := IntToString(out.position.y);
      }
    }

    /** Moves every output by (`dx`, `dy`), one output at a time. */
    method ShiftAll(dx: int, dy: int)
      modifies this
      ensures TranslatedBy(outputs, old(outputs), dx, dy)
      ensures selected == old(selected) && dirty == old(dirty) && xInput == old(xInput) && yInput == old(yInput)
    {
      for i := 0 to |outputs|
        invariant |outputs| == |old(outputs)|
        invariant selected == old(selected) && dirty == old(dirty)
        invariant xInput == old(xInput) && yInput == old(yInput)
        invariant forall k :: 0 <= k < i ==> outputs[k] == Shifted(old(outputs)[k], dx, dy)
        invariant forall k :: i <= k < |outputs| ==> outputs[k] == old(outputs)[k]
      {
        var p := outputs[i].position;
        outputs := outputs[i := outputs[i].(position := Position(p.x + dx, p.y + dy))];
      }
    }

    /**
     * Moves every output by one common offset so that no coordinate is
     * negative. When something moved, the fields are refreshed and the
     * cache is cleared; otherwise nothing changes.
     */
    method NormalizePositions()
      requires Valid()
      modifies this
      ensures State() == Normalizing(old(State()))
      ensures Valid() && selected == old(selected)
      ensures outputs == Normalized(old(outputs))
      ensures NeedsShift(old(outputs)) ==> dirty && ShowsSelection(old(xInput), old(yInput))
      ensures !NeedsShift(old(outputs)) ==> dirty == old(dirty) && xInput == old(xInput) && yInput == old(yInput)
    {
      ghost var before := outputs;
      var minX := MinOrZero(Xs(outputs));
      var minY := MinOrZero(Ys(outputs));
      var changed := false;
      var offsetX := if minX < 0 then -minX else 0;
      var offsetY := if minY < 0 then -minY else 0;
      if offsetX > 0 || offsetY > 0 {
        ShiftAll(offsetX, offsetY);
        assert offsetX == Offset(MinOrZero(Xs(before))) && offsetY == Offset(MinOrZero(Ys(before)));
        NormalizedByOffsets(before, outputs);
        changed := true;
      }
      if changed {
        UpdateInputsForSelection();
        dirty := true;
      }
    }

    /** Selects output `idx`. */
    method OnMonitorClicked(idx: nat)
      requires Valid() && idx < |outputs|
      modifies this
      ensures State() == Next(old(State()), MonitorClicked(idx))
      ensures Valid() && outputs == old(outputs) && selected == Some(idx) && dirty
      ensures ShowsSelection(old(xInput), old(yInput))
    {
      selected := Some(idx);
      UpdateInputsForSelection();
      dirty := true;
    }

    /** Places output `idx` at (`x`, `y`), as a drag publishes it. */
    method OnMonitorPositioned(idx: nat, x: int, y: int)
      requires Valid() && idx < |outputs|
      modifies this
      ensures State() == Next(old(State()), MonitorPositioned(idx, x, y))
      ensures Valid() && selected == old(selected) && dirty
      ensures outputs == old(outputs)[idx := old(outputs)[idx].(position := Position(x, y))]
      ensures selected == Some(idx) ==> ShowsSelection(old(xInput), old(yInput))
      ensures selected != Some(idx) ==> xInput == old(xInput) && yInput == old(yInput)
      ensures NonNegativePositions(old(outputs)) && x >= 0 && y >= 0 ==> NonNegativePositions(outputs)
    {
      outputs := outputs[idx := outputs[idx].(position := Position(x, y))];
      if Some(idx) == selected {
        UpdateInputsForSelection();
      }
      dirty := true;
    }

    /**
     * The horizontal field was edited to `text`: the text is kept as typed,
     * and when an output is selected and the text is an `i32`, that value
     * raised to 0 becomes the selected output's horizontal coordinate.
     */
    method OnXChanged(text: string)
      requires Valid()
      modifies this
      ensures State() == Next(old(State()), XChanged(text))
      ensures Valid() && selected == old(selected) && xInput == text && yInput == old(yInput)
      ensures if selected.Some? && ParseI32(text).Some? then
                && outputs == old(outputs)[selected.value := WithX(old(outputs)[selected.value], ClampToZero(ParseI32(text).value))]
                && dirty
              else outputs == old(outputs) && dirty == old(dirty)
      ensures NonNegativePositions(old(outputs)) ==> NonNegativePositions(outputs)
    {
      xInput := text;
      var parsed := ParseI32(text);
      if selected.Some? && parsed.Some? {
        var idx, v := selected.value, parsed.value;
        if v < 0 {
          v := 0;
        }
        outputs := outputs[idx := WithX(outputs[idx], v)];
        dirty := true;
      }
    }

    /** The vertical counterpart of `OnXChanged`. */
    method OnYChanged(text: string)
      requires Valid()
      modifies this
      ensures State() == Next(old(State()), YChanged(text))
      ensures Valid() && selected == old(selected) && yInput == text && xInput == old(xInput)
      ensures if selected.Some? && ParseI32(text).Some? then
                && outputs == old(outputs)[selected.value := WithY(old(outputs)[selected.value], ClampToZero(ParseI32(text).value))]
                && dirty
              else outputs == old(outputs) && dirty == old(dirty)
      ensures NonNegativePositions(old(outputs)) ==> NonNegativePositions(outputs)
    {
      yInput := text;
      var parsed := ParseI32(text);
      if selected.Some? && parsed.Some? {
        var idx, v := selected.value, parsed.value;
        if v < 0 {
          v := 0;
        }
        outputs := outputs[idx := WithY(outputs[idx], v)];
        dirty := true;
      }
    }

    /** Moves the selected output one unit right. */
    method OnXInc()
      requires Valid()
      modifies this
      ensures State() == Next(old(State()), XInc)
      ensures Valid() && selected == old(selected)
      ensures if selected.Some? then
                && outputs == old(outputs)[selected.value := WithX(old(outputs)[selected.value], old(outputs)[selected.value].position.x + 1)]
                && dirty && ShowsSelection(old(xInput), old(yInput))
              else outputs == old(outputs) && dirty == old(dirty) && xInput == old(xInput) && yInput == old(yInput)
      ensures NonNegativePositions(old(outputs)) ==> NonNegativePositions(outputs)
    {
      if selected.Some? {
        var idx := selected.value;
        outputs := outputs[idx := WithX(outputs[idx], outputs[idx].position.x + 1)];
        UpdateInputsForSelection();
        dirty := true;
      }
    }

    /** Moves the selected output one unit left, unless it is already at 0 or less. */
    method OnXDec()
      requires Valid()
      modifies this
      ensures State() == Next(old(State()), XDec)
      ensures Valid() && selected == old(selected)
      ensures if selected.Some? && old(outputs)[selected.value].position.x > 0 then
                && outputs == old(outputs)[selected.value := WithX(old(outputs)[selected.value], old(outputs)[selected.value].position.x - 1)]
                && dirty && ShowsSelection(old(xInput), old(yInput))
              else outputs == old(outputs) && dirty == old(dirty) && xInput == old(xInput) && yInput == old(yInput)
      ensures NonNegativePositions(old(outputs)) ==> NonNegativePositions(outputs)
    {
      if selected.Some? {
        var idx := selected.value;
        if outputs[idx].position.x > 0 {
          outputs := outputs[idx := WithX(outputs[idx], outputs[idx].position.x - 1)];
          UpdateInputsForSelection();
          dirty := true;
        }
      }
    }

    /** Moves the selected output one unit down. */
    method OnYInc()
      requires Valid()
      modifies this
      ensures State() == Next(old(State()), YInc)
      ensures Valid() && selected == old(selected)
      ensures if selected.Some? then
                && outputs == old(outputs)[selected.value := WithY(old(outputs)[selected.value], old(outputs)[selected.value].position.y + 1)]
                && dirty && ShowsSelection(old(xInput), old(yInput))
              else outputs == old(outputs) && dirty == old(dirty) && xInput == old(xInput) && yInput == old(yInput)
      ensures NonNegativePositions(old(outputs)) ==> NonNegativePositions(outputs)
    {
      if selected.Some? {
        var idx := selected.value;
        outputs := outputs[idx := WithY(outputs[idx], outputs[idx].position.y + 1)];
        UpdateInputsForSelection();
        dirty := true;
      }
    }

    /** Moves the selected output one unit up, unless it is already at 0 or less. */
    method OnYDec()
      requires Valid()
      modifies this
      ensures State() == Next(old(State()), YDec)
      ensures Valid() && selected == old(selected)
      ensures if selected.Some? && old(outputs)[selected.value].position.y > 0 then
                && outputs == old(outputs)[selected.value := WithY(old(outputs)[selected.value], old(outputs)[selected.value].position.y - 1)]
                && dirty && ShowsSelection(old(xInput), old(yInput))
              else outputs == old(outputs) && dirty == old(dirty) && xInput == old(xInput) && yInput == old(yInput)
      ensures NonNegativePositions(old(outputs)) ==> NonNegativePositions(outputs)
    {
      if selected.Some? {
        var idx := selected.value;
        if outputs[idx].position.y > 0 {
          outputs := outputs[idx := WithY(outputs[idx], outputs[idx].position.y - 1)];
          UpdateInputsForSelection();
          dirty := true;
        }
      }
    }

    /** Enables or disables the selected output. */
    method OnEnabledToggled(on: bool)
      requires Valid()
      modifies this
      ensures State() == Next(old(State()), EnabledToggled(on))
      ensures Valid() && selected == old(selected) && xInput == old(xInput) && yInput == old(yInput)
      ensures if selected.Some? then
                outputs == old(outputs)[selected.value := old(outputs)[selected.value].(enabled := on)] && dirty
              else outputs == old(outputs) && dirty == old(dirty)
    {
      if selected.Some? {
        var idx := selected.value;
        outputs := outputs[idx := outputs[idx].(enabled := on)];
        dirty := true;
      }
    }

    /**
     * Chooses mode `r` of the selected output: every mode's current flag is
     * cleared, then mode `r`'s is set if that mode exists.
     */
    method OnResolutionSelected(r: nat)
      requires Valid()
      modifies this
      ensures State() == Next(old(State()), ResolutionSelected(r))
      ensures Valid() && selected == old(selected) && xInput == old(xInput) && yInput == old(yInput)
      ensures if selected.Some? then
                && outputs == old(outputs)[selected.value := old(outputs)[selected.value].(modes := SelectMode(old(outputs)[selected.value].modes, r))]
                && dirty
              else outputs == old(outputs) && dirty == old(dirty)
    {
      if selected.Some? {
        var idx := selected.value;
        var modes := outputs[idx].modes;
        for k := 0 to |modes|
          invariant |modes| == |outputs[idx].modes|
          invariant forall j :: 0 <= j < k ==> modes[j] == outputs[idx].modes[j].(current := false)
          invariant forall j :: k <= j < |modes| ==> modes[j] == outputs[idx].modes[j]
        {
          modes := modes[k := modes[k].(current := false)];
        }
        if r < |modes| {
          modes := modes[r := modes[r].(current := true)];
        }
        assert modes == SelectMode(outputs[idx].modes, r);
        outputs := outputs[idx := outputs[idx].(modes := modes)];
        dirty := true;
      }
    }

    /** Gives the selected output the transform `transform`. */
    method OnTransformSelected(transform: string)
      requires Valid()
      modifies this
      ensures State() == Next(old(State()), TransformSelected(transform))
      ensures Valid() && selected == old(selected) && xInput == old(xInput) && yInput == old(yInput)
      ensures if selected.Some? then
                outputs == old(outputs)[selected.value := old(outputs)[selected.value].(transform := transform)] && dirty
              else outputs == old(outputs) && dirty == old(dirty)
    {
      if selected.Some? {
        var idx := selected.value;
        outputs := outputs[idx := outputs[idx].(transform := transform)];
        dirty := true;
      }
    }

    /**
     * Applies or saves the arrangement: it is normalised first, so what the
     * backend receives has no negative coordinate.
     */
    method OnApplyOrSave()
      requires Valid()
      modifies this
      ensures State() == Normalizing(old(State()))
      ensures Valid() && selected == old(selected)
      ensures outputs == Normalized(old(outputs)) && NonNegativePositions(outputs)
      ensures NeedsShift(old(outputs)) ==> dirty && ShowsSelection(old(xInput), old(yInput))
      ensures !NeedsShift(old(outputs)) ==> dirty == old(dirty) && xInput == old(xInput) && yInput == old(yInput)
    {
      NormalizedNonNegative(outputs);
      NormalizePositions();
    }

    /**
     * The message handler. It keeps the selection valid and the number of
     * outputs; apply and save leave every coordinate non-negative; and no
     * other message makes a coordinate negative except an explicit
     * placement at a negative position.
     */
    method Update(msg: Message)
      requires Valid() && Accepts(State(), msg)
      modifies this
      ensures State() == Next(old(State()), msg)
      ensures Valid() && |outputs| == |old(outputs)|
      ensures msg.ApplyClicked? || msg.SaveClicked? ==> outputs == Normalized(old(outputs)) && NonNegativePositions(outputs)
      ensures NonNegativePositions(old(outputs)) && (msg.MonitorPositioned? ==> msg.x >= 0 && msg.y >= 0) ==>
        NonNegativePositions(outputs)
      ensures !msg.MonitorClicked? ==> selected == old(selected)
    {
      match msg
      case MonitorClicked(idx) => OnMonitorClicked(idx);
      case MonitorPositioned(idx, x, y) => OnMonitorPositioned(idx, x, y);
      case XChanged(text) => OnXChanged(text);
      case YChanged(text) => OnYChanged(text);
      case XInc => OnXInc();
      case XDec => OnXDec();
      case YInc => OnYInc();
      case YDec => OnYDec();
      case EnabledToggled(on) => OnEnabledToggled(on);
      case ResolutionSelected(r) => OnResolutionSelected(r);
      case TransformSelected(t) => OnTransformSelected(t);
      case ApplyClicked => OnApplyOrSave();
      case SaveClicked => OnApplyOrSave();
    }
  }
}
