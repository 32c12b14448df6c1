# Design editor: a Dafny model

This project models the logic of the `DesignEditor` component of a React Native
drag-and-drop design editor. A user places text, images and shapes on a canvas.
They drag and pinch elements, double-tap to open an edit dialog, recolour or
retext elements, and delete the selected element. The model has six modules; the sixth, `Wrappers`,
only holds the `Option` type.

- `Elements` (`elements.dfy`) — the `CanvasElement` record and the three list
  transforms the editor applies:
  - append;
  - update-by-id with a shallow `{...el, ...updates}` merge;
  - delete-by-id with `filter`.
  A `Patch` is the partial record an update carries. Its absent keys leave the
  element's fields alone.
- `Editor` (`editor.dfy`) — the `DesignEditor` class.
  - State: the ordered element list, the selected id (`None` is `null`), the edit
    dialog's visibility, and the add-text dialog's settings.
  - Methods: one per handler, except that `ConfigureTextDialog` stands for the
    add-text dialog's seven form controls and `ResetTextDialog` is the reset that
    ends `confirmAddText`. Each states the component's whole new state.
  - Invariant kept: every element on the canvas is well formed, meaning scale and
    rotation are set and its variant's fields are present.
    A selection, when set, names an element in the list.
  - The clock reading (`Date.now()`), the random draw (`Math.random()`), the
    permission answer and the picker's result are parameters.
- `Gestures` (`gestures.dfy`) — the per-element gesture engine of
  `DraggableElement`.
  - Specification: a pure `Step`/`Run` state machine over the transient values
    (`translateX`, `translateY`, `scale`, `lastTap`).
  - Each callback emits the effects it asks of the editor: `Select`, `ShowEdit`,
    or `Update(patch)`.
  - The `DraggableElement` class performs the same steps in place.
  - `Editor.DesignEditor.Apply` consumes the effects.
- `HexColor` (`hex_color.dfy`) — `darkenColor`, including the JavaScript
  semantics it relies on:
  - `String.replace` of the first `#`;
  - `parseInt(…, 16)`, with sign, `0x` prefix, longest hex-digit run, and NaN;
  - ToInt32 before `>>` and `&`;
  - `toString(16)` and `slice(1)`.
  These are proved against an independent reading of the colour's three
  two-digit channels.
- `Shapes` (`shapes.dfy`) — `renderShape`: fill and stroke choice, and the
  circle, triangle and rectangle geometry. The star and hexagon vertex loops
  produce vertices in polar form (centre, radius, angle as a multiple of pi).

JavaScript truthiness is modelled where the source relies on it:
- an empty `selectedElement` deletes nothing;
- `shapeColor || "#007AFF"` treats `""` as absent;
- `element.scale || 1` treats `0` as absent;
- `textInput || …` treats `""` as absent.

## Model

| member | source | states |
|---|---|---|
| Elements.MovePatch | components/DesignEditor.tsx:633-636 | the pan commit carries exactly the keys `x` and `y`, with the given values |
| Elements.ScalePatch | components/DesignEditor.tsx:648-650 | the pinch commit carries exactly the key `scale` |
| Elements.TextPatch | components/DesignEditor.tsx:449 | the edit dialog's text field writes exactly the key `text` |
| Elements.ColorPatch | components/DesignEditor.tsx:464 | the text-colour buttons write exactly the key `color` |
| Elements.ShapeColorPatch | components/DesignEditor.tsx:494 | the shape-colour buttons write exactly the key `shapeColor` |
| Elements.Merge | components/DesignEditor.tsx:235 | the spread merge `{ ...el, ...updates }` never changes the element's id or type |
| Elements.Ids | components/DesignEditor.tsx:226-231 | the id list has one entry per element, in list order |
| Elements.UpdateById | components/DesignEditor.tsx:233-237 | same length and order; every element with the id becomes the merge of itself and the patch; every other element is unchanged |
| Elements.RemoveById | components/DesignEditor.tsx:197 | exactly the elements without the id survive (both directions), and the list never grows |
| Elements.FindById | components/DesignEditor.tsx:437-438 | `None` iff the id is absent; otherwise an element of the list carrying the id |
| Elements.FindIsFirst | components/DesignEditor.tsx:437 | when the element at index j carries the id and none before it does, `find` returns exactly that element |
| Elements.MergeIdentityAndIdempotence | components/DesignEditor.tsx:235 | merging the empty patch changes nothing; merging the same patch twice equals merging it once |
| Elements.MergeThen | components/DesignEditor.tsx:235 | two successive merges equal one merge of the combined patch |
| Elements.MergeDisjointCommute | components/DesignEditor.tsx:235 | merges of patches with no key in common commute |
| Elements.MoveAndScaleCommute | components/DesignEditor.tsx:632-651 | the pan commit `{x, y}` and the pinch commit `{scale}` share no key, so applying them in either order gives the same element |
| Elements.UpdateKeepsIds | components/DesignEditor.tsx:233-237 | an update keeps the list's ids and their order |
| Elements.UpdateAbsent | components/DesignEditor.tsx:233-237 | updating an id that is not present leaves the list exactly as it was |
| Elements.UpdateThenFind | components/DesignEditor.tsx:233-237 | after an update, looking up the id gives the previously found element with the patch merged in |
| Elements.UpdateThen | components/DesignEditor.tsx:233-237 | two updates of one id equal one update with the combined patch |
| Elements.UpdatesCommute | components/DesignEditor.tsx:233-237 | updates of different ids, or with disjoint patches, commute |
| Elements.RemoveConcat | components/DesignEditor.tsx:197 | filtering distributes over concatenation, so survivors keep their relative order |
| Elements.RemoveAbsent | components/DesignEditor.tsx:197 | removing an absent id leaves the list exactly as it was |
| Elements.RemoveThenFind | components/DesignEditor.tsx:195-200 | after deletion the id can no longer be found; the list shrinks by exactly the number of elements carrying the id |
| Elements.RemoveKeepsOthers | components/DesignEditor.tsx:195-200 | deleting one id does not change which element another id finds |
| Elements.IdsAppend | components/DesignEditor.tsx:85 | appending an element appends exactly its id to the id list |
| Elements.CountPresent | components/DesignEditor.tsx:197 | an id that is in the list is carried by at least one element, so the filter drops at least one |
| Editor.DecimalString | components/DesignEditor.tsx:70 | `toString()` of a non-negative integer is a non-empty run of decimal digits, one digit long exactly below 10 |
| Editor.DecimalInjective | components/DesignEditor.tsx:70 | `toString()` of two clock readings is the same string only when the readings are equal |
| Editor.IdAt | components/DesignEditor.tsx:70 | a new element's id `Date.now().toString()` is a non-empty string of decimal digits, so it is truthy |
| Editor.IdsFromDistinctClocksDiffer | components/DesignEditor.tsx:70 | two ids made from clock readings are equal iff the readings are equal |
| Editor.PaletteIndex | components/DesignEditor.tsx:107 | `Math.floor(random * 5)` is a valid palette index and is the floor of `random * 5` |
| Editor.NewTextElement | components/DesignEditor.tsx:69-83 | the new text element is well formed with scale 1 and rotation 0, placed at the canvas centre less (75, 25). Empty input falls back to "Heading"/"Subtitle" by style. Font size is 28 for heading, else 20. Weight is "bold" iff bold, else "normal"; style is "italic" iff italic, else "normal". Colour, alignment and font come from the dialog |
| Editor.NewShapeElement | components/DesignEditor.tsx:109-120 | the new shape is well formed and 100 x 100, centred on the canvas, with scale 1, rotation 0, and the given shape type and colour |
| Editor.NewImageElement | components/DesignEditor.tsx:150-160 | the new image is well formed and 150 x 150, centred on the canvas, with scale 1, rotation 0, and the given uri |
| Editor.MergeKeepsWellFormed | components/DesignEditor.tsx:235 | a merge keeps an element well formed |
| Editor.UpdateKeepsWellFormed | components/DesignEditor.tsx:233-237 | update-by-id keeps every element well formed |
| Editor.RemoveKeepsWellFormed | components/DesignEditor.tsx:197 | delete-by-id keeps every element well formed |
| Editor.AppendKeepsValid | components/DesignEditor.tsx:85 | appending a well-formed element keeps the list well formed and a listed selection listed |
| Editor.DeleteListed | components/DesignEditor.tsx:195-200 | deleting a listed id keeps the survivors well formed and removes at least one element |
| Editor.DesignEditor.HasSelection | components/DesignEditor.tsx:196 | `selectedElement` is truthy: set and not the empty string |
| Editor.DesignEditor.EditTarget | components/DesignEditor.tsx:432-438 | the edit dialog targets an element iff it is open, the selection is truthy and the selected id is in the list; the target is a listed element carrying the selected id |
| Editor.DesignEditor.constructor | components/DesignEditor.tsx:15-16 | canvas is screen width - 40 by 0.6 x screen height; empty list; no selection; dialogs closed and at their defaults |
| Editor.DesignEditor.AddTextToCanvas | components/DesignEditor.tsx:62-65 | the dialog's text becomes "Sample Text"; nothing else changes |
| Editor.DesignEditor.ConfigureTextDialog | components/DesignEditor.tsx:283-379 | the add-text dialog's controls (and the `textInput` field declared at line 58) set exactly their own setting; list, selection and edit flag are kept |
| Editor.DesignEditor.ConfirmAddText | components/DesignEditor.tsx:68-96 | exactly one text element is appended and earlier elements are untouched; the dialog then resets; the invariant is kept |
| Editor.DesignEditor.ResetTextDialog | components/DesignEditor.tsx:89-95 | the dialog resets to "", heading, "#000000", not bold, not italic, centre, "System"; list, selection and edit flag are kept |
| Editor.DesignEditor.AddSelectedShape | components/DesignEditor.tsx:105-125 | exactly one 100 x 100 shape is appended, with its colour drawn from the five-colour palette; nothing else changes |
| Editor.DesignEditor.PickImageWithAspect | components/DesignEditor.tsx:132-168 | one 150 x 150 image showing the first asset is appended iff permission was granted and the picker was not cancelled and returned at least one asset; otherwise the list is unchanged |
| Editor.DesignEditor.DeleteElement | components/DesignEditor.tsx:195-200 | with a truthy selection, every element carrying the selected id is removed (at least one, since the selection is listed) and the selection is cleared; without one, neither list nor selection changes; the invariant is kept |
| Editor.DesignEditor.Select | components/DesignEditor.tsx:231 | the selection becomes the id of a listed element; nothing else changes; the invariant (a selection names a listed element) is kept |
| Editor.DesignEditor.SetShowEdit | components/DesignEditor.tsx:232 | the edit dialog's visibility is set; nothing else changes |
| Editor.DesignEditor.Update | components/DesignEditor.tsx:233-237 | the list becomes the update-by-id of the old list; an absent id leaves it unchanged; the invariant is kept |
| Editor.DesignEditor.Apply | components/DesignEditor.tsx:231-237 | a `Select` effect (from a listed element) selects, `ShowEdit` opens the dialog, and only `Update` changes the list |
| Editor.DesignEditor.EditText | components/DesignEditor.tsx:446-451 | when the dialog targets a text element, that id's text is replaced; otherwise nothing changes |
| Editor.DesignEditor.EditTextColor | components/DesignEditor.tsx:458-467 | when the dialog targets a text element, that id's colour is replaced by a palette colour; otherwise nothing changes |
| Editor.DesignEditor.EditShapeColor | components/DesignEditor.tsx:488-497 | when the dialog targets a shape, that id's shape colour is replaced by a palette colour; otherwise nothing changes |
| Gestures.BaseScale | components/DesignEditor.tsx:610 | the `scale`-or-1 default is the element's scale when that is set and non-zero, and 1 otherwise; never zero |
| Gestures.Initial | components/DesignEditor.tsx:608-612 | a mounted element starts from its own position, a non-zero scale and `lastTap` 0 |
| Gestures.Step | components/DesignEditor.tsx:615-651 | one callback emits an effect iff it is a begin or an end (at most two); it commits iff it is an end; only a pan-begin changes `lastTap`, to `now`; begins other than pan and ends keep the transient values |
| Gestures.Run | components/DesignEditor.tsx:614-653 | the callbacks of one rendered element applied in order, collecting every effect; `RunAppend`, `RunLastTap` and the commit lemmas state what a run does |
| Gestures.RunLastTap | components/DesignEditor.tsx:626 | after a run of callbacks the tap ref holds the `now` of the last pan-begin, and its starting value when the run has no pan-begin |
| Gestures.PanMoves | components/DesignEditor.tsx:628-631 | one pan-update event per cumulative translation, in order |
| Gestures.PinchMoves | components/DesignEditor.tsx:644-646 | one pinch-update event per cumulative factor, in order |
| Gestures.PanBeginEffects | components/DesignEditor.tsx:615-627 | a pan-begin selects first; it opens the edit dialog iff less than 300 ms passed since the last pan-begin; it records `now` either way; it never commits |
| Gestures.StepCommitsOnlyAtEnd | components/DesignEditor.tsx:628-651 | no callback other than an end commits; pan-end commits exactly `{x, y}` from the transient position; pinch-end commits exactly `{scale}` |
| Gestures.RunAppend | components/DesignEditor.tsx:614-653 | running two callback sequences one after the other equals running their concatenation |
| Gestures.RunOne | components/DesignEditor.tsx:614-653 | a run of a single callback is that callback's step |
| Gestures.RunSnoc | components/DesignEditor.tsx:614-653 | one more callback after a run acts from the run's final values and appends its effects |
| Gestures.NoCommitWithoutEnd | components/DesignEditor.tsx:628-651 | any callback sequence without an end event emits no commit |
| Gestures.CommitsWriteOwnKeys | components/DesignEditor.tsx:632-651 | every commit in any callback sequence writes either exactly `{x, y}` or exactly `{scale}` |
| Gestures.PanMovesTrack | components/DesignEditor.tsx:628-631 | after pan updates, the transient position is the element's position plus the last cumulative translation; nothing is emitted |
| Gestures.PanPressTracks | components/DesignEditor.tsx:615-631 | a pan-begin followed by its updates emits only the begin's effects and leaves the transient position at the committed position plus the last translation |
| Gestures.PanGestureCommits | components/DesignEditor.tsx:614-637 | a complete pan (begin, updates, end) commits once: the element's position plus the final translation |
| Gestures.PinchMovesTrack | components/DesignEditor.tsx:644-646 | after pinch updates, the transient scale is the base scale times the last factor; nothing is emitted |
| Gestures.PinchGestureCommits | components/DesignEditor.tsx:639-651 | a complete pinch selects, then commits exactly `{scale: base * last factor}` |
| Gestures.FirstTapOnlySelects | components/DesignEditor.tsx:612-627 | with `lastTap` starting at 0, the first pan-begin at time 300 or later only selects |
| Gestures.DoubleTapScenario | components/DesignEditor.tsx:615-627 | taps at t, t+200 and t+700 open the dialog only on the second tap |
| Gestures.DraggableElement.constructor | components/DesignEditor.tsx:608-612 | shared values start from the element's position and the `scale`-or-1 default; `lastTap` starts at 0 |
| Gestures.DraggableElement.Receive | components/DesignEditor.tsx:608-610 | a re-render with new props keeps the shared values and `lastTap` |
| Gestures.DraggableElement.OnPanBegin | components/DesignEditor.tsx:615-627 | new values and effects are those of `Step` on a pan-begin |
| Gestures.DraggableElement.OnPanUpdate | components/DesignEditor.tsx:628-631 | new values are those of `Step` on a pan-update, which emits nothing |
| Gestures.DraggableElement.OnPanEnd | components/DesignEditor.tsx:632-637 | values are unchanged; the effect is the `{x, y}` commit |
| Gestures.DraggableElement.OnPinchBegin | components/DesignEditor.tsx:640-643 | values are unchanged; the effect is `Select` only |
| Gestures.DraggableElement.OnPinchUpdate | components/DesignEditor.tsx:644-646 | new values are those of `Step` on a pinch-update, which emits nothing |
| Gestures.DraggableElement.OnPinchEnd | components/DesignEditor.tsx:647-651 | values are unchanged; the effect is the `{scale}` commit |
| HexColor.DigitValue | components/DesignEditor.tsx:788 | a hex digit's value is below 16 |
| HexColor.DigitChar | components/DesignEditor.tsx:799 | a digit below 16 prints as a lower-case hex digit that reads back as the same value |
| HexColor.FixedHex | components/DesignEditor.tsx:799 | the fixed-width rendering has exactly the requested width of lower-case hex digits |
| HexColor.ToRadix16 | components/DesignEditor.tsx:799 | `toString(16)` is a non-empty string of lower-case hex digits with no leading zero |
| HexColor.ToRadix16RoundTrip | components/DesignEditor.tsx:799 | the digits `toString(16)` writes denote the number again |
| HexColor.SliceOne | components/DesignEditor.tsx:799 | `toString(16).slice(1)` is lower-case hex, one digit shorter than the full string |
| HexColor.SixDigitTail | components/DesignEditor.tsx:799 | for a packed value below 2^24, the 2^24 offset makes `slice(1)` give exactly six digits, zero-padded |
| HexColor.RemoveFirst | components/DesignEditor.tsx:788 | `replace("#", "")` removes one character when `#` occurs, and leaves the string unchanged otherwise |
| HexColor.RemoveFirstDropsFirst | components/DesignEditor.tsx:788 | the character removed is the first `#`: the text before it and after it is kept |
| HexColor.UnsignedPart | components/DesignEditor.tsx:788 | `parseInt` reads its digits from the input after one leading `-` or `+`, if there is one, and after a `0x`/`0X` prefix that follows it, if there is one; nothing else is dropped |
| HexColor.HexRun | components/DesignEditor.tsx:788 | the digit run `parseInt` reads is a hex prefix that cannot be extended |
| HexColor.ParseIntRadix16 | components/DesignEditor.tsx:788 | `parseInt(…, 16)` is NaN exactly when no hex digit follows the sign and prefix |
| HexColor.ToInt32 | components/DesignEditor.tsx:790-792 | ToInt32 gives a 32-bit signed value congruent to its input mod 2^32 |
| HexColor.Int32Of | components/DesignEditor.tsx:790-792 | the operand of `>>` and `&` is a 32-bit signed value, 0 for NaN, and otherwise congruent to the parsed number mod 2^32 |
| HexColor.ToInt32OfNonNegative | components/DesignEditor.tsx:790-792 | ToInt32 leaves a number in [0, 2^31) unchanged |
| HexColor.ColorNumber | components/DesignEditor.tsx:788 | `num` as the shifts and masks see it is a 32-bit signed value |
| HexColor.ColorNumberOfHexColor | components/DesignEditor.tsx:788 | for a "#rrggbb" colour, `num` is the value of its six digits, below 2^24 |
| HexColor.Darkened | components/DesignEditor.tsx:790-798 | for a 24-bit `num` and `amt >= 0`, the packed result is below 2^24 and its three bytes are the channels of `num` less `amt`, clamped at 0 |
| HexColor.DarkenColor | components/DesignEditor.tsx:787-800 | the result is `#` followed by lower-case hex digits, for any input |
| HexColor.HexValueBound | components/DesignEditor.tsx:788 | a hex string of n digits denotes a value below 16^n |
| HexColor.HexValueOfTwo | components/DesignEditor.tsx:788 | a two-digit channel is 16 x high digit + low digit |
| HexColor.HexValueAppend | components/DesignEditor.tsx:788 | the value of a concatenation is high part x 16^len(low) + low part |
| HexColor.FixedHexRoundTrip | components/DesignEditor.tsx:799 | decoding the fixed-width rendering of a value that fits gives the value back |
| HexColor.HexValueRoundTrip | components/DesignEditor.tsx:788 | rendering a decoded hex string at its own width gives the string back in lower case |
| HexColor.LeadingOne | components/DesignEditor.tsx:794-799 | `(16^w + v).toString(16)` is "1" followed by v in exactly w digits, so `slice(1)` leaves exactly w digits |
| HexColor.HexRunOfHexString | components/DesignEditor.tsx:788 | on an all-hex string, `parseInt` reads every digit |
| HexColor.Unpack | components/DesignEditor.tsx:790-798 | packing three bytes and taking `>> 16`, `>> 8 & 0xFF` and `& 0xFF` gives the bytes back |
| HexColor.ChannelsOfHexColor | components/DesignEditor.tsx:788-792 | a colour's 24-bit value is its three two-digit channels packed, each below 256 |
| HexColor.ParseHexColor | components/DesignEditor.tsx:788 | on "#" + 6 hex digits, `parseInt` gives the 24-bit value of the digits |
| HexColor.DarkenedOfColor | components/DesignEditor.tsx:790-798 | on a colour's own value, the arithmetic of darkenColor packs the clamped two-digit channels |
| HexColor.DarkenAsFixedHex | components/DesignEditor.tsx:794-799 | the darkened colour is "#" + the packed clamped channels in exactly 6 lower-case digits |
| HexColor.DarkenHexColor | components/DesignEditor.tsx:787-800 | on "#" + 6 hex digits with amt >= 0, the result is again such a colour (lower case), and each channel equals max(channel - amt, 0) |
| HexColor.DarkenNeverBrightens | components/DesignEditor.tsx:787-800 | no channel of the darkened colour exceeds the original's |
| HexColor.DarkenByZero | components/DesignEditor.tsx:787-800 | darkening by 0 returns the colour with its digits in lower case |
| Shapes.Truthy | components/DesignEditor.tsx:700-701 | JavaScript truthiness of an optional string: undefined and "" are false |
| Shapes.FillColor | components/DesignEditor.tsx:700 | the fill is the shape colour when truthy, else "#007AFF" |
| Shapes.StrokeColor | components/DesignEditor.tsx:701 | the stroke is the shape colour darkened by 51 when truthy, else "#0056CC" |
| Shapes.StarVertices | components/DesignEditor.tsx:743-752 | the star loop yields 10 vertices alternating outer and inner radius, at angles -pi/2 + k pi/5 |
| Shapes.HexagonVertices | components/DesignEditor.tsx:766-772 | the hexagon loop yields 6 vertices at one radius, at angles k pi/3 |
| Shapes.Outline | components/DesignEditor.tsx:703-785 | each shape is laid out in its w x h box as follows. Circle: centre (w/2, h/2), radius w/2 - 5. Triangle: (w/2,5) (5,h-5) (w-5,h-5). Rectangle: inset 5, so w-10 x h-10, corner radius 8. Star: outer radius min(w/2,h/2) - 5 and inner radius half of that, 10 vertices. Hexagon: 6 vertices at that outer radius |
| Shapes.RenderShape | components/DesignEditor.tsx:699-785 | no drawing exactly when there is no shape type; otherwise the fill and stroke above, stroke width 2, and the outline laid out in the element's box |
| Shapes.StarFitsBox | components/DesignEditor.tsx:738-742 | in a box at least 10 x 10, the outer radius is non-negative and leaves the 5-unit margin, and the inner radius is at most the outer |
| Shapes.StrokeDarkerThanFill | components/DesignEditor.tsx:700-701 | for a "#"+6-digit colour or no colour, fill and stroke are colours and no stroke channel exceeds the fill's |

## Left out

- Permission requests, the image picker, `captureRef` and `MediaLibrary` export (components/DesignEditor.tsx:132-147, 173-193) are asynchronous OS I/O. Permission and picker answers are parameters of `PickImageWithAspect`. The aspect choice only shapes picker options and is not modelled. Export is not modelled. The `catch` branches only raise alerts.
- `Alert.alert`, all JSX rendering, and the `styles` sheet are UI only and are not modelled.
- Visibility flags of the add-text, shape and aspect dialogs are UI only. Only `showEditModal` is modelled, because it gates the edit handlers and is the target of the open-edit effect.
- The sin/cos coordinates of star and hexagon vertices, and the formatting of SVG point strings, are floating-point trigonometry. Vertices stay in polar form.
- Floating-point rounding in general is not modelled. Sizes and positions are exact reals.
  - `Math.round(2.55 * percent)` in `darkenColor` is replaced by the integer parameter `amt`. The only call site gives 51.
- `parseInt` skipping leading whitespace, and its precision loss beyond 2^53, are not modelled.
- `Date.now()` and `Math.random()` are parameters (`now`, `random`). Ids are `Date.now().toString()`. The code does not guarantee their uniqueness, and no uniqueness invariant is claimed.
- `runOnJS` hands callbacks from the UI thread to the JS thread. Each callback is modelled as one atomic step.
- The gesture library decides when callbacks fire: whether `onEnd` follows every `onBegin`, and how the two simultaneous gestures interleave. This is not modelled. The lemmas hold for any sequence of callbacks.
- `Gestures.Run`: models a sequence of callbacks for one rendered element. A re-render between callbacks is `DraggableElement.Receive`.
- Editor.DesignEditor.Select: requires that the id is in the list, since the callback comes from a rendered element. The case where a gesture callback's `onSelect`, queued for the JS thread, runs after that element was deleted is not modelled.
- A `Patch` cannot carry `id`, `type`, or a key explicitly set to `undefined`. No call site writes them.
- HexColor.DarkenHexColor: proved only for "#" followed by six hex digits and `amt >= 0`. The only call site is covered, since shape colours come from the palette and `amt` is 51. For other inputs, `DarkenColor` only promises "#" followed by lower-case hex digits. With a negative `amt` a channel can exceed 255 and spill into the next one.
- Editor.DesignEditor.AddSelectedShape: requires `0 <= random < 1`, the range `Math.random()` returns.
- app/index.tsx is a wrapper that mounts the component. It is not part of this model.
