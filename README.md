# mdisplay layout editor core, modelled in Dafny

mdisplay is a monitor-layout editor for wlroots compositors. It shows every
output (display) as a rectangle on a canvas. The user drags the rectangles
around, types coordinates, picks modes and transforms, and applies or saves
the arrangement. This project models the integer part of that editor, all
of it in `src/ui.rs`:

- **the arrangement normaliser** (`normalize_positions`): shifts all
  outputs by one common offset so that no coordinate is negative. It runs
  before apply and save.
- **the message handler** (`MangoDisplay::update`): selection, placement,
  the position text fields, the ±1 steppers, enable, resolution and
  transform choice, apply and save.
- **the snap engine** (the dragging branch of `CursorMoved`).
  - The drag start plus the pointer delta is clamped to ≥ 0.
  - Each axis is then attracted to the nearest edge offer of another
    output within 40 logical pixels.
  - An axis that no edge moved is rounded to the 10-pixel grid.
- **the logical size** of an output: quarter-turn transforms exchange width
  and height.
- **hit-testing**: the press and hover scans keep the *last* rectangle under
  the cursor.
- **the description word-wrap** of the canvas labels.

Files and modules:

| file | module | contents |
|---|---|---|
| `options.dfy` | `Options` | `Option` |
| `output_model.dfy` | `OutputModel` | outputs, modes, rectangles, `LogicalSize`, current-mode lookup, `SelectMode` |
| `numeric_text.dfy` | `NumericText` | `i32` display (`to_string`) and parsing (`i32::from_str`) |
| `normalize.dfy` | `Normalize` | the normalised arrangement and its properties |
| `snap.dfy` | `SnapEngine` | the snap scan (`EdgeScan`, `Snap`), its specification (`SnapTarget`) and proofs |
| `snap_cases.dfy` | `SnapCases` | concrete drags worked through the snap specification |
| `hit_test.dfy` | `HitTest` | last-hit scan |
| `wordwrap.dfy` | `WordWrap` | whitespace split, greedy wrap loop, UTF-8 lengths |
| `display.dfy` | `Display` | class `MangoDisplay`: one method per message, and `Update` |
| `canvas.dfy` | `Canvas` | class `CanvasState`: press, release and cursor-move handling |

How the pieces are modelled:

- **State that the source mutates is a class.** This covers `MangoDisplay`
  and `CanvasState`. Its loops are `for` loops with invariants. Each
  handler ensures its whole new state.
  - The loops are proved against specification functions.
    `NormalizePositions` ensures `outputs == Normalized(old(outputs))`, and
    the properties of `Normalized` are lemmas.
  - Every `MangoDisplay` handler puts its fields in the state the pure
    transition `Display.Next` gives for its message. The class's fields,
    taken as a value, are `State()`. The properties of `Next` across all
    messages are lemmas.
  - The simple handlers (`OnXInc`, `OnEnabledToggled`,
    `OnTransformSelected`, …) also state the new outputs directly, as an
    update of the selected entry.
- **The drawing cache is a flag.**
  - `layout_cache.clear()` sets `MangoDisplay.dirty`.
  - The canvas's `cache` is the same `layout_cache`: the view lends it to
    the canvas (src/ui.rs:225, 428). Its `cache.clear()` on a hover change
    is returned as `cacheCleared` from `CursorMoved`. A caller applies it
    by setting `dirty`.
- **The text fields hold strings.** `x_input`/`y_input` are set from
  `IntToString` and read back with `ParseI32`.
- **The backend calls do nothing observable.** Apply and save only
  normalise here.

Where a plain description of this behaviour differs from the code, the
model follows the code:

- **Normalising does not lower a positive minimum to 0.** An axis is
  shifted only when some coordinate on it is negative
  (`Normalize.PositiveLeastIsKept`).
- **Choosing a missing mode leaves no mode current.**
  `OutputModel.SelectModeFlags` proves this. So `update` does not itself
  keep "exactly one mode is current" for an out-of-range index.
  - The refresh-rate picker is the only sender of `ResolutionSelected`
    (src/ui.rs:341-357). It maps the chosen text to the first mode whose
    refresh rate, formatted to three decimals, displays the same. So the
    index is always in range.
  - A later mode that shares a displayed refresh rate with an earlier one
    cannot be picked.
  - For an index in range, exactly the chosen mode is current
    (`Display.ExistingResolutionIsSoleCurrent`). With only such choices,
    every message keeps exactly one current mode on every output
    (`Display.NextKeepsOneCurrent`).
  - Nothing in this core establishes the invariant at the start: the
    modes come from the backend.
- **Dragging next to a neighbour can land on top of it.**
  - Take two 1920×1080 outputs, with B at (1920, 0). Dragging A to an
    unsnapped (1900, 0) gives (1920, 0), not (0, 0): A's *left* edge is 20
    from B's left edge, and that offer wins (`SnapCases.DragNearNeighbourLeftEdge`).
  - Flush placement beside B happens when A's right edge comes near B's
    left edge, e.g. from (15, 0) (`SnapCases.DragFlushBesideNeighbour`).
- **A drag that is already exactly flush is still rounded to the grid.**
  An edge at distance 0 leaves the coordinate equal to the unsnapped one,
  so the code rounds it (`SnapCases.FlushEdgeIsRounded`). The model keeps
  this behaviour.
- **A press that hits nothing can keep an old drag.** The press scan starts
  from the drag already recorded. If a drag is still recorded and the press
  hits no output, that drag stays and its output is announced again
  (`Canvas.CanvasState.ButtonPressed`).

## Model

| member | source | states |
|---|---|---|
| OutputModel.LogicalSize | src/ui.rs:432-439 | Under "90", "270", "flipped-90" and "flipped-270" the logical size has width and height exchanged. Under every other transform string it is the scaled mode size unchanged. |
| OutputModel.LogicalSizeInvolution | src/ui.rs:435-438 | Applying the same transform's size mapping twice gives back the original size. |
| OutputModel.LogicalSizeOrientation | src/ui.rs:435-438 | A landscape mode is shown in portrait exactly when the transform is a quarter turn. |
| OutputModel.QuarterTurnsAmongTransforms | src/ui.rs:371-381 | Of the eight transforms the picker offers, exactly those at positions 1, 3, 5 and 7 exchange the sides. |
| OutputModel.CurrentMode | src/ui.rs:573-583 | The lookup returns the first mode flagged current (every earlier mode is not). When no mode is current it returns the fallback. |
| OutputModel.SelectMode | src/ui.rs:186-196 | A mode is current afterwards exactly when it is mode `r`. Every other field of every mode is kept. `SelectModeFlags` derives one or no current mode from this. |
| OutputModel.SelectModeFlags | src/ui.rs:186-196 | After choosing mode `r` with `r` in range, exactly one mode is current and it is `modes[r]`. With `r` out of range no mode is current. Sizes and preferred flags of all modes are kept. |
| OutputModel.SelectModeCurrent | src/ui.rs:186-196 | After choosing an existing mode `r`, the current-mode lookup finds `modes[r]`. After choosing a missing one it finds the fallback. |
| NumericText.ParseI32 | src/ui.rs:109 | A parsed value lies in the `i32` range, and the text holds at least one digit. |
| NumericText.DigitsRoundTrip | src/ui.rs:65-66 | The digits a natural number is displayed with read back as that number. |
| NumericText.ParseDisplayedI32 | src/ui.rs:65-66 | Every `i32` parses back from the text it is displayed as (display and parse are inverse). |
| NumericText.RejectedTexts | src/ui.rs:109-113 | The empty text, a lone sign, a leading space and a trailing letter do not parse. |
| NumericText.NatToDigits | src/ui.rs:65-66 | The digits of a natural number in decimal: at least one, all ASCII digits, no leading zero. |
| NumericText.IntToString | src/ui.rs:65-66 | The text starts with a minus sign exactly when the number is negative. After the sign come decimal digits whose value is the number's magnitude, with no leading zero. `ParseDisplayedI32` is its round trip. |
| Normalize.MinOrZero | src/ui.rs:72-73 | The result is an element of the sequence and no element is smaller. It is 0 for an empty sequence. |
| Normalize.Offset | src/ui.rs:76-77 | The offset is non-negative and lifts the minimum to at least 0. It lifts a negative minimum to exactly 0 and is 0 for a non-negative minimum. |
| Normalize.Normalized | src/ui.rs:71-91 | When some coordinate is negative, every output is shifted by `Offset(min x)` and `Offset(min y)`. Otherwise the arrangement is unchanged. `NormalizedNonNegative`, `NormalizedIsTranslation`, `NormalizedLeastIsZero` and `NormalizedIdempotent` give its meaning. |
| Normalize.NormalizedNonNegative | src/ui.rs:71-85 | After normalising, every output has x ≥ 0 and y ≥ 0. |
| Normalize.NormalizedLeastIsZero | src/ui.rs:72-85 | On an axis that had a negative coordinate, the least coordinate becomes exactly 0. |
| Normalize.NormalizedIsTranslation | src/ui.rs:79-85 | All outputs move by the same non-negative (dx, dy) and nothing else about them changes. Pairwise position differences are kept. |
| Normalize.NormalizedByOffsets | src/ui.rs:76-85 | Moving every output by the two normalising offsets yields exactly the normalised arrangement. |
| Normalize.NormalizedKeepsNonNegative | src/ui.rs:79-91 | An arrangement without negative coordinates needs no shift and is left unchanged. |
| Normalize.NormalizedIdempotent | src/ui.rs:71-91 | Normalising twice equals normalising once. |
| Normalize.PositiveLeastIsKept | src/ui.rs:76-79 | A lone output at (100, 50) keeps x = 100: a positive minimum is not lowered to 0. |
| Display.MangoDisplay.constructor | src/ui.rs:43-60 | The first output is selected when there is one, and the fields show its position. |
| Display.MangoDisplay.UpdateInputsForSelection | src/ui.rs:62-69 | The new state is `Refreshed` of the old one. With a selection, both fields show the selected output's coordinates. Without one they are unchanged. Nothing else changes. |
| Display.MangoDisplay.ShiftAll | src/ui.rs:79-85 | Every output is moved by (dx, dy) in place. No other field changes. |
| Display.MangoDisplay.NormalizePositions | src/ui.rs:71-91 | The new state is `Normalizing` of the old one: the outputs become `Normalized(old outputs)`. Only when something moved are the fields refreshed and the cache cleared; otherwise neither changes. |
| Display.MangoDisplay.OnMonitorClicked | src/ui.rs:95-99 | Selects `idx`, refreshes the fields and clears the cache. Outputs are unchanged. |
| Display.MangoDisplay.OnMonitorPositioned | src/ui.rs:100-106 | Only output `idx` gets position (x, y). The fields are refreshed only if it is the selected output. The cache is cleared. Non-negative placements keep all positions non-negative. |
| Display.MangoDisplay.OnXChanged | src/ui.rs:107-114 | The text is stored as typed. With a selection and a text that parses as an `i32`, only the selected output's x changes, to the value clamped at 0, and the cache is cleared. On a parse failure or without a selection, outputs and the cache flag are unchanged. No coordinate becomes negative. |
| Display.MangoDisplay.OnYChanged | src/ui.rs:115-122 | The same as `OnXChanged`, for y. |
| Display.RetypedPositionIsKept | src/ui.rs:65-66 | For a non-negative `i32` coordinate, the text the field displays parses back to that coordinate, and clamping keeps it. |
| Display.MangoDisplay.OnXInc | src/ui.rs:123-129 | With a selection, only its x grows by 1, the fields are refreshed and the cache is cleared. Without one nothing changes. |
| Display.MangoDisplay.OnXDec | src/ui.rs:130-138 | Only when the selected x is > 0 does it drop by 1, with the fields refreshed and the cache cleared. Otherwise nothing changes, so x never goes below 0. |
| Display.MangoDisplay.OnYInc | src/ui.rs:139-145 | The same as `OnXInc`, for y. |
| Display.MangoDisplay.OnYDec | src/ui.rs:146-154 | The same as `OnXDec`, for y. |
| Display.MangoDisplay.OnEnabledToggled | src/ui.rs:180-185 | With a selection, only its enabled flag changes and the cache is cleared. Without one nothing changes. |
| Display.MangoDisplay.OnResolutionSelected | src/ui.rs:186-196 | With a selection, only its modes change, to `SelectMode(modes, r)` via a flag-clearing loop, and the cache is cleared. Without one nothing changes. |
| Display.MangoDisplay.OnTransformSelected | src/ui.rs:197-202 | With a selection, only its transform changes and the cache is cleared. Without one nothing changes. |
| Display.MangoDisplay.OnApplyOrSave | src/ui.rs:203-216 | The outputs handed on are the normalised arrangement, with no negative coordinate. |
| Display.MangoDisplay.Update | src/ui.rs:93-219 | The new state is `Next` of the old state and the message. The selection stays valid and the number of outputs is kept. Apply and save leave every coordinate non-negative. No message except a placement at a negative position makes a coordinate negative. Only a click changes the selection. |
| Display.Refreshed | src/ui.rs:62-69 | With a selection, the fields show the selected output's coordinates. Outputs, selection and cache flag are kept. Without a selection nothing changes. |
| Display.Normalizing | src/ui.rs:71-91 | The outputs become the normalised arrangement and the selection is kept. |
| Display.Next | src/ui.rs:93-219 | The state after one message, for every message. The selection stays valid and the number of outputs is kept. A click selects its index, and no other message changes the selection. |
| Display.ApplyLeavesNonNegative | src/ui.rs:203-216 | After apply or save, the arrangement is the normalised one and no coordinate is negative. |
| Display.NextKeepsNonNegative | src/ui.rs:93-219 | From an arrangement without negative coordinates, no message makes one negative, except a placement at a negative position. |
| Display.ChangeClearsCache | src/ui.rs:93-219 | Every message that changes the arrangement clears the drawing cache. |
| Display.NextKeepsInSync | src/ui.rs:93-219 | Every message except a text-field edit keeps the fields showing the selected output's coordinates. |
| Display.RetypedXKeepsArrangement | src/ui.rs:107-114 | Typing back the text the x field shows leaves the arrangement unchanged, for a selected output at a non-negative `i32` x. |
| Display.DecUndoesInc | src/ui.rs:123-138 | For a selected output with x >= 0, `XDec` after `XInc` restores the arrangement, with the fields showing it. |
| Display.ExistingResolutionIsSoleCurrent | src/ui.rs:186-196 | Choosing an existing mode of the selected output leaves exactly that mode current. |
| Display.NextKeepsOneCurrent | src/ui.rs:93-219 | If every output has exactly one current mode, every message keeps that for every output, as long as a mode choice names an existing mode. |
| SnapEngine.CandidatesAreOffers | src/ui.rs:597-654 | A position is a scanned candidate exactly when some earlier output `i ≠ idx`, near enough across the axis, offers it. The offers are its far edge, its near edge minus the dragged length, or its near edge. |
| SnapEngine.OffersAreCandidates | src/ui.rs:597-654 | The offers of all other outputs are exactly the candidates of the full scan (both directions). |
| SnapEngine.Consider | src/ui.rs:627-630 | One strict comparison. The kept distance never grows, and a candidate replaces the kept offer only when it is strictly nearer. |
| SnapEngine.Closest | src/ui.rs:587-654 | The scan's kept distance never exceeds the threshold 40. `ClosestIsFirstNearest` proves it returns the first nearest candidate. |
| SnapEngine.Candidates | src/ui.rs:597-625 | Each scanned output contributes at most three offers. `CandidatesAreOffers` and `OffersAreCandidates` prove they are exactly the offers of the other outputs near enough across. |
| SnapEngine.EdgeSnap | src/ui.rs:587-655 | The scan's result is either the unsnapped position or an offer of another output nearer than 40. `EdgeSnapIsFirstNearest` adds that no offer is nearer and that ties go to the first. |
| SnapEngine.ClosestIsFirstNearest | src/ui.rs:587-654 | The running minimum never exceeds 40 and no candidate is closer than the result. The result is either the unsnapped position at distance 40, or the first candidate at the least distance, which is below 40. |
| SnapEngine.EdgeSnapIsFirstNearest | src/ui.rs:587-654 | When the scan moved the coordinate, it moved to an offer nearer than 40 that no candidate beats. Every candidate earlier in scan order is strictly farther, so of two equally near offers the earlier one wins. |
| SnapEngine.ClosestStep | src/ui.rs:626-654 | Scanning one more output is three more strict comparisons when its extents are near, and none otherwise. |
| SnapEngine.CandidatesStep | src/ui.rs:597-625 | The candidates grow by one output's three offers when it is not the dragged one and the crossing extents are near. Otherwise they do not grow. |
| SnapEngine.ScanStepX | src/ui.rs:620-639 | Scanning output `i` on X is the three comparisons gated by `y_overlap`, in the source's order. |
| SnapEngine.ScanStepY | src/ui.rs:620-654 | Scanning output `i` on Y is the three comparisons gated by `x_overlap`. |
| SnapEngine.ConsiderOffers | src/ui.rs:626-639 | The three `if`s keep a candidate only when strictly closer, with the distance measured from the matching edge of the dragged output. The result equals the three `Consider` steps. |
| SnapEngine.EdgeScan | src/ui.rs:587-655 | The loop's snapped x/y equal the closest-offer scan over all other outputs. |
| SnapEngine.ScanOther | src/ui.rs:600-654 | For one output other than the dragged one, each kept offer moves from the closest offer among the earlier outputs to the closest offer once this output's edges are added. The edges count only on an axis whose crossing extents are within the threshold. |
| SnapEngine.RoundToGrid | src/ui.rs:657-662 | The result is a multiple of 10 within 5 of the input, with halves rounded away from zero, and keeps the input's sign. |
| SnapEngine.RoundToGridIsNearest | src/ui.rs:657-662 | No multiple of 10 is closer to the input than its rounding. |
| SnapEngine.SnapAxis | src/ui.rs:657-665 | The published coordinate is ≥ 0. |
| SnapEngine.DragPosition | src/ui.rs:565-568 | The unsnapped position is the drag start plus the delta, with each axis raised to 0 when negative. |
| SnapEngine.SnapTarget | src/ui.rs:561-669 | The published position is ≥ 0 on both axes. |
| SnapEngine.SnapAxisOutcome | src/ui.rs:587-665 | Each axis either snaps to the offer of another output nearest to the unsnapped position, which is within 40 and not equal to it, or falls back to the grid. The grid is used exactly when no offer is within 40, or when the unsnapped position is itself an offer. |
| SnapEngine.SnapTargetSpec | src/ui.rs:561-669 | The unsnapped rectangle starts at `DragPosition`. Each axis is an edge snap or a grid snap. A grid-snapped axis is a multiple of 10 within 5 of the unsnapped coordinate. |
| SnapEngine.Snap | src/ui.rs:561-669 | The method's result is `SnapTarget`, the position proved above. |
| SnapCases.DragNearNeighbourLeftEdge | src/ui.rs:587-662 | Two 1920×1080 outputs with B at (1920, 0): dragging A to (1900, 0) publishes (1920, 0). |
| SnapCases.DragFlushBesideNeighbour | src/ui.rs:587-662 | Dragging A to (15, 0) publishes (0, 0), flush beside B. |
| SnapCases.DragAloneToGrid | src/ui.rs:657-662 | A lone output dragged to (1234, 567) publishes (1230, 570). |
| SnapCases.FlushEdgeIsRounded | src/ui.rs:657-662 | Next to a 1706-wide output, x = 1705 snaps to 1706, but an exactly flush x = 1706 is rounded to 1710. |
| HitTest.LastHit | src/ui.rs:671-679 | The result is the largest index whose rectangle contains the point. It is `None` exactly when no rectangle does. |
| HitTest.LastHitUnique | src/ui.rs:671-679 | A containing index is the hit exactly when no later rectangle contains the point. |
| HitTest.ScanHits | src/ui.rs:671-679 | The forward scan that overwrites on every hit returns `LastHit`. |
| Canvas.PressedDrag | src/ui.rs:542-550 | After the press scan, the drag is on the last output hit, with the press cursor and that output's position. With no hit it is the previous drag. |
| Canvas.CanvasState.constructor | src/ui.rs:419-423 | Nothing is dragged or hovered. |
| Canvas.CanvasState.ButtonPressed | src/ui.rs:540-556 | Inside the canvas the drag becomes `PressedDrag`, and `MonitorClicked` is published for the dragged output if there is one. Outside the canvas nothing changes. The hover is unchanged. |
| Canvas.CanvasState.ButtonReleased | src/ui.rs:557-559 | The drag ends. |
| Canvas.CanvasState.CursorMoved | src/ui.rs:560-685 | While dragging, `MonitorPositioned(idx, SnapTarget(...))` is published with non-negative coordinates, and the hover and the cache are untouched. Otherwise the hover becomes `LastHit` and the cache is cleared exactly when the hover changed. |
| WordWrap.Words | src/ui.rs:762 | Every word of the split is non-empty and free of whitespace. |
| WordWrap.IsWhitespace | src/ui.rs:762 | The characters the split breaks at: the Unicode White_Space set. `AsciiWhitespace` pins down the ASCII part. |
| WordWrap.AsciiWhitespace | src/ui.rs:762 | Among ASCII characters, exactly tab, line feed, vertical tab, form feed, carriage return and space are whitespace. |
| WordWrap.WordsAppend | src/ui.rs:762 | The split of text around a whitespace character is the split of each side, concatenated: words never run across whitespace. |
| WordWrap.WordsOfWord | src/ui.rs:762 | A word splits into itself. |
| WordWrap.WordsOfJoinSpace | src/ui.rs:762 | Splitting words joined with single spaces gives those words back. |
| WordWrap.WordsKeepText | src/ui.rs:762 | The words, run together, are exactly the text's non-whitespace characters in order. |
| WordWrap.Utf8Len | src/ui.rs:763 | The UTF-8 byte length lies between 1 and 4 bytes per character. |
| WordWrap.Utf8LenAppend | src/ui.rs:763 | Byte lengths add up under concatenation. |
| WordWrap.Step | src/ui.rs:762-771 | One word of the loop. The finished lines grow by at most the line being filled. A line is finished only when it is non-empty and adding a space and the word would pass `maxChars` bytes. |
| WordWrap.Fold | src/ui.rs:762-771 | The loop over the words. No words leave no lines and an empty current line. Otherwise fewer lines are finished than there are words. |
| WordWrap.Wrap | src/ui.rs:759-775 | There are never more lines than words. `WrapProperties` gives the full meaning. |
| WordWrap.StepBreakInv | src/ui.rs:763-765 | Opening a new line preserves the wrap invariant. |
| WordWrap.StepAppendInv | src/ui.rs:766-771 | Appending a word to the current line preserves the wrap invariant. |
| WordWrap.FoldInv | src/ui.rs:762-772 | The wrap loop keeps its invariant over any sequence of words. |
| WordWrap.WrapProperties | src/ui.rs:759-775 | Every line is non-empty. The lines joined by single spaces equal the words joined by single spaces. A line longer than `max_chars` bytes is a single word. Each line but the last had no room for the next line's first word. There are no lines exactly when there are no words. |
| WordWrap.WrapDescription | src/ui.rs:759-775 | The loop's lines are `Wrap(Words(description))`: non-empty, joining back to the words, over-long only as single words, and greedy. |

## Left out

- Floating point:
  - The output scale and `ScaleChanged`/`ScaleInc`/`ScaleDec` (src/ui.rs:155-179) are not modelled.
  - Neither is the division by the scale in `logical_size`. The snap engine takes `scaled`, each output's current-mode size already divided by its scale and truncated, as input.
  - `scale_input` and its formatting are left out.
- `calculate_layout` and `transformed_geometry` (src/ui.rs:441-524) are `f32` projection arithmetic and are left out.
  - Hit-testing takes the drawn rectangles as integer input.
  - Which rectangle each output is drawn at is not modelled.
- The pointer delta `(position - start_cursor) / scale` and its `.round()` (src/ui.rs:562-566) are not modelled. `CursorMoved` and `Snap` take the already-rounded integer delta.
- `RoundToGrid` models `(v as f32 / 10.0).round() as i32 * 10` as exact integer rounding with halves away from zero. This matches the float computation for coordinates of moderate size. Float rounding error at very large magnitudes is not modelled.
- `i32` overflow is not modelled; coordinates are unbounded integers.
  - This affects `+= 1` in the steppers, the normaliser's offsets, the snap sums and `abs`.
  - `ParseI32` does keep the `i32` range of parsing.
- `Rectangle::contains` of the UI toolkit is not part of this model. `HitTest.Contains` assumes the half-open test (left and top inclusive, right and bottom exclusive).
- The toolkit's event capture (`and_capture`) and `Task` results are left out.
- The `view` and `draw` code is UI and is left out: widgets, colours, fonts, text placement, and the refresh-rate row.
  - The computation of `max_chars` from the rectangle width is left out; `WrapDescription` takes `maxChars` as a parameter.
  - The wrap compares byte lengths (`String::len`) with `max_chars`, as the code does. For non-ASCII text, lines therefore hold fewer characters than `max_chars`.
- The calls to the backend and the files do nothing observable here: `wlr_randr_get_outputs`, `wlr_randr_apply`, `wlr_randr_save`, `AppSettings::load` and the `println!` messages.
  - The enumerated outputs are the constructor's parameter.
  - Apply and save only normalise.
- The refresh rate of a mode (a float) and the output's physical size and name are kept only as opaque fields, or not at all.
- Out-of-range indices panic in the code. `OnMonitorClicked`, `OnMonitorPositioned` and `CursorMoved` therefore require the index to name an output, and `Update` requires `Accepts(State(), msg)`.
- The split at whitespace (`str::split_whitespace`) and the `i32` text conversions (`to_string`, `i32::from_str`) are library code. They are modelled by `WordWrap.Words`, `NumericText.IntToString` and `NumericText.ParseI32`.
- `SnapEngine.EdgeScan`, `SnapEngine.ScanOther` and `SnapEngine.ConsiderOffers` are the snap loop, its body for one other output and its three comparisons, split out of `Snap` so each proof stays small. `Display.MangoDisplay.ShiftAll` is the normaliser's shifting loop, split out the same way.
