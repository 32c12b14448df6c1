/**
 * The `DesignEditor` component's state: the ordered element list, the selected
 * id, the edit dialog's visibility and the add-text dialog's configuration.
 * Each handler of the component is a method that replaces that state the way
 * its `set...` calls do. The clock (`Date.now()`), `Math.random()`, the
 * permission prompt and the image picker's answer are parameters.
 */
module Editor {
  import opened Wrappers
  import opened Elements
  import Gestures

  datatype TextStyleType = Heading | Subtitle

  /** The colours a new shape draws from, and the edit dialog's shape-colour buttons. */
  const ShapePalette: seq<string> := ["#007AFF", "#34C759", "#FF9500", "#FF2D55", "#5856D6"]

  /** The edit dialog's text-colour buttons. */
  const TextEditPalette: seq<string> := ["#000000", "#FF3B30", "#007AFF", "#34C759", "#FF9500"]

  datatype Asset = Asset(uri: string)

  /** What `ImagePicker.launchImageLibraryAsync` resolves to; `assets` may be null. */
  datatype PickerResult = PickerResult(canceled: bool, assets: Option<seq<Asset>>)

  /** `Number.prototype.toString()` on a non-negative integer: decimal digits, no leading zeros. */
  function DecimalString(n: nat): (s: string)
    ensures |s| >= 1
    ensures n < 10 <==> |s| == 1
    ensures forall i | 0 <= i < |s| :: '0' <= s[i] <= '9'
  {
    if n < 10 then [('0' as int + n) as char]
    else DecimalString(n / 10) + [('0' as int + n % 10) as char]
  }

  /** `Date.now().toString()`: the id a new element gets. */
  function IdAt(now: nat): (id: string)
    ensures id != "" && forall i | 0 <= i < |id| :: '0' <= id[i] <= '9'
  {
    DecimalString(now)
  }

  /** Ids are unique exactly as far as the clock readings that made them are. */
  lemma {:induction false} IdsFromDistinctClocksDiffer(a: nat, b: nat)
    ensures IdAt(a) == IdAt(b) <==> a == b
  {
    if IdAt(a) == IdAt(b) && a != b {
      DecimalInjective(a, b);
    }
  }

  lemma {:induction false} DecimalInjective(a: nat, b: nat)
    requires DecimalString(a) == DecimalString(b)
    ensures a == b
  {
    var s := DecimalString(a);
    if a >= 10 && b >= 10 {
      assert s[..|s| - 1] == DecimalString(a / 10) == DecimalString(b / 10);
      DecimalInjective(a / 10, b / 10);
      assert a % 10 == b % 10 by {
        assert s[|s| - 1] == ('0' as int + a % 10) as char == ('0' as int + b % 10) as char;
      }
    }
  }

  /** `Math.floor(Math.random() * shapeColors.length)` for a draw `random` in [0, 1). */
  function PaletteIndex(random: real): (i: nat)
    requires 0.0 <= random < 1.0
    ensures i < |ShapePalette|
    ensures i as real <= random * 5.0 < i as real + 1.0
  {
    (random * 5.0).Floor
  }

  /** The invariant every element the editor creates keeps: scale and rotation set, and its variant's fields present. */
  predicate WellFormed(e: CanvasElement) {
    && e.scale.Some? && e.rotation.Some?
    && (e.kind == Text ==>
          e.text.Some? && e.fontSize.Some? && e.color.Some? && e.fontWeight.Some?
          && e.fontStyle.Some? && e.textAlign.Some? && e.fontFamily.Some?)
    && (e.kind == Image ==> e.uri.Some? && e.width.Some? && e.height.Some?)
    && (e.kind == Shape ==> e.shapeType.Some? && e.shapeColor.Some? && e.width.Some? && e.height.Some?)
  }

  /** A blank record of the given variant; the builders below fill it in. */
  function Blank(id: string, kind: ElementType, x: real, y: real): CanvasElement {
    CanvasElement(id, kind, x, y, None, None, None, None, None, None, None, None, None, None, None, None, None, None)
  }

  /** The text element `confirmAddText` builds from the dialog's state. */
  function NewTextElement(
    id: string, input: string, style: TextStyleType, color: string, isBold: bool, isItalic: bool,
    align: TextAlign, family: string, canvasWidth: real, canvasHeight: real): (e: CanvasElement)
    ensures WellFormed(e) && e.id == id && e.kind == Text
    ensures e.scale == Some(1.0) && e.rotation == Some(0.0)
    ensures e.text == Some(if input != "" then input else if style == Heading then "Heading" else "Subtitle")
    ensures e.fontSize == Some(if style == Heading then 28.0 else 20.0)
    ensures e.x == canvasWidth / 2.0 - 75.0 && e.y == canvasHeight / 2.0 - 25.0
    ensures e.fontWeight == Some("bold") <==> isBold
    ensures !isBold ==> e.fontWeight == Some("normal")
    ensures e.fontStyle == Some("italic") <==> isItalic
    ensures !isItalic ==> e.fontStyle == Some("normal")
    ensures e.color == Some(color) && e.textAlign == Some(align) && e.fontFamily == Some(family)
    ensures e.width.None? && e.height.None? && e.uri.None? && e.shapeType.None? && e.shapeColor.None?
  {
    Blank(id, Text, canvasWidth / 2.0 - 75.0, canvasHeight / 2.0 - 25.0).(
      text := Some(if input != "" then input else if style == Heading then "Heading" else "Subtitle"),
      fontSize := Some(if style == Heading then 28.0 else 20.0),
      color := Some(color),
      scale := Some(1.0),
      rotation := Some(0.0),
      fontWeight := Some(if isBold then "bold" else "normal"),
      fontStyle := Some(if isItalic then "italic" else "normal"),
      textAlign := Some(align),
      fontFamily := Some(family))
  }

  /** The 100 x 100 shape element `addSelectedShape` builds. */
  function NewShapeElement(id: string, shapeType: ShapeType, color: string, canvasWidth: real, canvasHeight: real): (e: CanvasElement)
    ensures WellFormed(e) && e.id == id && e.kind == Shape
    ensures e.scale == Some(1.0) && e.rotation == Some(0.0)
    ensures e.width == Some(100.0) && e.height == Some(100.0)
    ensures e.x + e.width.value / 2.0 == canvasWidth / 2.0 && e.y + e.height.value / 2.0 == canvasHeight / 2.0
    ensures e.shapeType == Some(shapeType) && e.shapeColor == Some(color)
    ensures e.text.None? && e.uri.None? && e.color.None?
  {
    Blank(id, Shape, canvasWidth / 2.0 - 50.0, canvasHeight / 2.0 - 50.0).(
      shapeType := Some(shapeType),
      width := Some(100.0),
      height := Some(100.0),
      scale := Some(1.0),
      rotation := Some(0.0),
      shapeColor := Some(color))
  }

  /** The 150 x 150 image element `pickImageWithAspect` builds from the first picked asset. */
  function NewImageElement(id: string, uri: string, canvasWidth: real, canvasHeight: real): (e: CanvasElement)
    ensures WellFormed(e) && e.id == id && e.kind == Image
    ensures e.scale == Some(1.0) && e.rotation == Some(0.0)
    ensures e.width == Some(150.0) && e.height == Some(150.0) && e.uri == Some(uri)
    ensures e.x + e.width.value / 2.0 == canvasWidth / 2.0 && e.y + e.height.value / 2.0 == canvasHeight / 2.0
    ensures e.text.None? && e.shapeType.None? && e.shapeColor.None?
  {
    Blank(id, Image, canvasWidth / 2.0 - 75.0, canvasHeight / 2.0 - 75.0).(
      uri := Some(uri),
      width := Some(150.0),
      height := Some(150.0),
      scale := Some(1.0),
      rotation := Some(0.0))
  }

  /** The picker returned something to add: not cancelled, and at least one asset. */
  predicate PickedSomething(result: PickerResult) {
    !result.canceled && result.assets.Some? && |result.assets.value| > 0
  }

  predicate AllWellFormed(els: seq<CanvasElement>) {
    forall i | 0 <= i < |els| :: WellFormed(els[i])
  }

  /** A merge never removes a field, so it keeps an element well formed. */
  lemma MergeKeepsWellFormed(e: CanvasElement, p: Patch)
    requires WellFormed(e)
    ensures WellFormed(Merge(e, p))
  {
  }

  lemma UpdateKeepsWellFormed(els: seq<CanvasElement>, id: string, p: Patch)
    requires AllWellFormed(els)
    ensures AllWellFormed(UpdateById(els, id, p))
  {
    forall i | 0 <= i < |els| && els[i].id == id
      ensures WellFormed(UpdateById(els, id, p)[i])
    {
      MergeKeepsWellFormed(els[i], p);
    }
  }

  lemma RemoveKeepsWellFormed(els: seq<CanvasElement>, id: string)
    requires AllWellFormed(els)
    ensures AllWellFormed(RemoveById(els, id))
  {
    var r := RemoveById(els, id);
    forall i | 0 <= i < |r|
      ensures WellFormed(r[i])
    {
      assert r[i] in r;
    }
  }

  /** Appending a well-formed element keeps the list well formed and a listed selection listed. */
  lemma AppendKeepsValid(els: seq<CanvasElement>, e: CanvasElement, selected: Option<string>)
    requires AllWellFormed(els) && WellFormed(e)
    requires selected.Some? ==> selected.value in Ids(els)
    ensures AllWellFormed(els + [e])
    ensures selected.Some? ==> selected.value in Ids(els + [e])
  {
    IdsAppend(els, e);
  }

  /** Deleting a listed id keeps every survivor well formed and removes at least one element. */
  lemma DeleteListed(els: seq<CanvasElement>, id: string)
    requires AllWellFormed(els) && id in Ids(els)
    ensures AllWellFormed(RemoveById(els, id))
    ensures |RemoveById(els, id)| < |els|
  {
    RemoveKeepsWellFormed(els, id);
    RemoveThenFind(els, id);
    CountPresent(els, id);
  }

  class DesignEditor {
    const canvasWidth: real
    const canvasHeight: real

    var elements: seq<CanvasElement>
    var selected: Option<string>
    var showEditModal: bool

    // The add-text dialog's configuration, set by its form controls.
    var textInput: string
    var textStyleType: TextStyleType
    var textColor: string
    var isBold: bool
    var isItalic: bool
    var textAlign: TextAlign
    var fontFamily: string

    /**
     * Every element is well formed, and a selection names a listed element:
     * the selection is only ever set by a rendered element and cleared on delete.
     */
    ghost predicate Valid()
      reads this
    {
      && AllWellFormed(elements)
      && (selected.Some? ==> selected.value in Ids(elements))
    }

    /** `selectedElement` is truthy: set, and not the empty string. */
    predicate HasSelection()
      reads this
    {
      selected.Some? && selected.value != ""
    }

    /** The element the edit dialog shows its controls for, if the dialog is open on one. */
    function EditTarget(): (target: Option<CanvasElement>)
      reads this
      ensures target.Some? <==> showEditModal && HasSelection() && selected.value in Ids(elements)
      ensures target.Some? ==> target.value.id == selected.value && target.value in elements
    {
      if showEditModal && HasSelection() then FindById(elements, selected.value) else None
    }

    predicate DialogAtDefaults()
      reads this
    {
      && textStyleType == Heading && textColor == "#000000" && !isBold && !isItalic
      && textAlign == Center && fontFamily == "System"
    }

    /** The component's initial state on a screen of the given size. */
    constructor(screenWidth: real, screenHeight: real)
      ensures Valid()
      ensures canvasWidth == screenWidth - 40.0 && canvasHeight == screenHeight * 0.6
      ensures elements == [] && selected == None && !showEditModal
      ensures textInput == "" && DialogAtDefaults()
    {
      canvasWidth := screenWidth - 40.0;
      canvasHeight := screenHeight * 0.6;
      elements := [];
      selected := None;
      showEditModal := false;
      textInput := "";
      textStyleType := Heading;
      textColor := "#000000";
      isBold := false;
      isItalic := false;
      textAlign := Center;
      fontFamily := "System";
    }

    /** `addTextToCanvas`: prefill the dialog's text. */
    method AddTextToCanvas()
      modifies this
      ensures textInput == "Sample Text"
      ensures elements == old(elements) && selected == old(selected) && showEditModal == old(showEditModal)
      ensures textStyleType == old(textStyleType) && textColor == old(textColor) && isBold == old(isBold)
      ensures isItalic == old(isItalic) && textAlign == old(textAlign) && fontFamily == old(fontFamily)
    {
      textInput := "Sample Text";
    }

    /** The add-text dialog's form controls: text field, style, colour, bold and italic toggles, alignment, font. */
    method ConfigureTextDialog(input: string, style: TextStyleType, color: string, bold: bool, italic: bool,
                               align: TextAlign, family: string)
      modifies this
      ensures textInput == input && textStyleType == style && textColor == color && isBold == bold
      ensures isItalic == italic && textAlign == align && fontFamily == family
      ensures elements == old(elements) && selected == old(selected) && showEditModal == old(showEditModal)
    {
      textInput, textStyleType, textColor := input, style, color;
      isBold, isItalic, textAlign, fontFamily := bold, italic, align, family;
    }

    /**
     * `confirmAddText` at clock reading `now`: append one text element built
     * from the dialog, then reset the dialog.
     */
    method ConfirmAddText(now: nat)
      requires Valid()
      modifies this
      ensures Valid()
      ensures elements == old(elements) + [NewTextElement(IdAt(now), old(textInput), old(textStyleType),
        old(textColor), old(isBold), old(isItalic), old(textAlign), old(fontFamily), canvasWidth, canvasHeight)]
      ensures selected == old(selected) && showEditModal == old(showEditModal)
      ensures textInput == "" && DialogAtDefaults()
    {
      var e := NewTextElement(IdAt(now), textInput, textStyleType, textColor, isBold, isItalic,
        textAlign, fontFamily, canvasWidth, canvasHeight);
      AppendKeepsValid(elements, e, selected);
      elements := elements + [e];
      ResetTextDialog();
    }

    /** The reset at the end of `confirmAddText`: the dialog's settings go back to their defaults. */
    method ResetTextDialog()
      modifies this
      ensures textInput == "" && DialogAtDefaults()
      ensures elements == old(elements) && selected == old(selected) && showEditModal == old(showEditModal)
    {
      textInput := "";
      textStyleType := Heading;
      textColor := "#000000";
      isBold := false;
      isItalic := false;
      textAlign := Center;
      fontFamily := "System";
    }

    /**
     * `addSelectedShape(shapeType)` at clock reading `now`, with `random` the
     * value `Math.random()` returned: append one 100 x 100 shape whose colour
     * is the palette entry the draw picks.
     */
    method AddSelectedShape(shapeType: ShapeType, now: nat, random: real)
      requires Valid()
      requires 0.0 <= random < 1.0
      modifies this
      ensures Valid()
      ensures elements == old(elements) +
        [NewShapeElement(IdAt(now), shapeType, ShapePalette[PaletteIndex(random)], canvasWidth, canvasHeight)]
      ensures elements[|elements| - 1].shapeColor.value in ShapePalette
      ensures selected == old(selected) && showEditModal == old(showEditModal)
      ensures textInput == old(textInput) && textStyleType == old(textStyleType) && textColor == old(textColor)
      ensures isBold == old(isBold) && isItalic == old(isItalic) && textAlign == old(textAlign)
      ensures fontFamily == old(fontFamily)
    {
      var randomColor := ShapePalette[PaletteIndex(random)];
      var e := NewShapeElement(IdAt(now), shapeType, randomColor, canvasWidth, canvasHeight);
      AppendKeepsValid(elements, e, selected);
      elements := elements + [e];
    }

    /**
     * `pickImageWithAspect` once the permission prompt and the picker have
     * answered: an image is appended only with permission granted and a result
     * that was not cancelled and holds at least one asset; it shows the first.
     */
    method PickImageWithAspect(granted: bool, result: PickerResult, now: nat)
      requires Valid()
      modifies this
      ensures Valid()
      ensures granted && PickedSomething(result) ==>
        elements == old(elements) + [NewImageElement(IdAt(now), result.assets.value[0].uri, canvasWidth, canvasHeight)]
      ensures !(granted && PickedSomething(result)) ==> elements == old(elements)
      ensures selected == old(selected) && showEditModal == old(showEditModal)
      ensures textInput == old(textInput) && textStyleType == old(textStyleType) && textColor == old(textColor)
      ensures isBold == old(isBold) && isItalic == old(isItalic) && textAlign == old(textAlign)
      ensures fontFamily == old(fontFamily)
    {
      if !granted {
        return;
      }
      if !result.canceled && result.assets.Some? && |result.assets.value| > 0 {
        var e := NewImageElement(IdAt(now), result.assets.value[0].uri, canvasWidth, canvasHeight);
        AppendKeepsValid(elements, e, selected);
        elements := elements + [e];
      }
    }

    /**
     * `deleteElement`: with a selection, drop every element carrying the
     * selected id and clear the selection; without one, change nothing.
     */
    method DeleteElement()
      requires Valid()
      modifies this
      ensures Valid()
      ensures old(HasSelection()) ==> elements == RemoveById(old(elements), old(selected).value) && selected == None
      ensures old(HasSelection()) ==> |elements| < |old(elements)|
      ensures !old(HasSelection()) ==> elements == old(elements) && selected == old(selected)
      ensures showEditModal == old(showEditModal)
      ensures textInput == old(textInput) && textStyleType == old(textStyleType) && textColor == old(textColor)
      ensures isBold == old(isBold) && isItalic == old(isItalic) && textAlign == old(textAlign)
      ensures fontFamily == old(fontFamily)
    {
      if selected.Some? && selected.value != "" {
        var id := selected.value;
        DeleteListed(elements, id);
        elements := RemoveById(elements, id);
        selected := None;
      }
    }

    /** `onSelect` of the element with this id. */
    method Select(id: string)
      requires Valid()
      requires id in Ids(elements)
      modifies this
      ensures Valid()
      ensures selected == Some(id)
      ensures elements == old(elements) && showEditModal == old(showEditModal)
      ensures textInput == old(textInput) && textStyleType == old(textStyleType) && textColor == old(textColor)
      ensures isBold == old(isBold) && isItalic == old(isItalic) && textAlign == old(textAlign)
      ensures fontFamily == old(fontFamily)
    {
      selected := Some(id);
    }

    /** `onShowEdit`, and the dialog's Close button. */
    method SetShowEdit(visible: bool)
      modifies this
      ensures showEditModal == visible
      ensures elements == old(elements) && selected == old(selected)
      ensures textInput == old(textInput) && textStyleType == old(textStyleType) && textColor == old(textColor)
      ensures isBold == old(isBold) && isItalic == old(isItalic) && textAlign == old(textAlign)
      ensures fontFamily == old(fontFamily)
    {
      showEditModal := visible;
    }

    /**
     * `onUpdate` of the element with this id: a shallow merge into every
     * element carrying the id; a no-op when the element is gone.
     */
    method Update(id: string, p: Patch)
      requires Valid()
      modifies this
      ensures Valid()
      ensures elements == UpdateById(old(elements), id, p)
      ensures id !in Ids(old(elements)) ==> elements == old(elements)
      ensures selected == old(selected) && showEditModal == old(showEditModal)
      ensures textInput == old(textInput) && textStyleType == old(textStyleType) && textColor == old(textColor)
      ensures isBold == old(isBold) && isItalic == old(isItalic) && textAlign == old(textAlign)
      ensures fontFamily == old(fontFamily)
    {
      UpdateKeepsWellFormed(elements, id, p);
      UpdateKeepsIds(elements, id, p);
      if id !in Ids(elements) {
        UpdateAbsent(elements, id, p);
      }
      elements := UpdateById(elements, id, p);
    }

    /**
     * One effect from the gesture engine of the element with this id. Only an
     * `Update` touches the element list.
     */
    method Apply(id: string, effect: Gestures.Effect)
      requires Valid()
      requires effect.Select? ==> id in Ids(elements)
      modifies this
      ensures Valid()
      ensures effect.Select? ==> selected == Some(id) && elements == old(elements) && showEditModal == old(showEditModal)
      ensures effect.ShowEdit? ==> showEditModal && elements == old(elements) && selected == old(selected)
      ensures effect.Update? ==>
        elements == UpdateById(old(elements), id, effect.patch) && selected == old(selected)
        && showEditModal == old(showEditModal)
      ensures textInput == old(textInput) && textStyleType == old(textStyleType) && textColor == old(textColor)
      ensures isBold == old(isBold) && isItalic == old(isItalic) && textAlign == old(textAlign)
      ensures fontFamily == old(fontFamily)
    {
      match effect {
        case Select => Select(id);
        case ShowEdit => SetShowEdit(true);
        case Update(p) => Update(id, p);
      }
    }

    /** The edit dialog's text field: rewrite the text of the text element being edited. */
    method EditText(text: string)
      requires Valid()
      modifies this
      ensures Valid()
      ensures var target := old(EditTarget());
        elements == if target.Some? && target.value.kind == Text
                    then UpdateById(old(elements), target.value.id, TextPatch(text))
                    else old(elements)
      ensures selected == old(selected) && showEditModal == old(showEditModal)
      ensures textInput == old(textInput) && textStyleType == old(textStyleType) && textColor == old(textColor)
      ensures isBold == old(isBold) && isItalic == old(isItalic) && textAlign == old(textAlign)
      ensures fontFamily == old(fontFamily)
    {
      var target := EditTarget();
      if target.Some? && target.value.kind == Text {
        UpdateKeepsWellFormed(elements, target.value.id, TextPatch(text));
        UpdateKeepsIds(elements, target.value.id, TextPatch(text));
        elements := UpdateById(elements, target.value.id, TextPatch(text));
      }
    }

    /** The edit dialog's text-colour buttons. */
    method EditTextColor(color: string)
      requires Valid()
      requires color in TextEditPalette
      modifies this
      ensures Valid()
      ensures var target := old(EditTarget());
        elements == if target.Some? && target.value.kind == Text
                    then UpdateById(old(elements), target.value.id, ColorPatch(color))
                    else old(elements)
      ensures selected == old(selected) && showEditModal == old(showEditModal)
      ensures textInput == old(textInput) && textStyleType == old(textStyleType) && textColor == old(textColor)
      ensures isBold == old(isBold) && isItalic == old(isItalic) && textAlign == old(textAlign)
      ensures fontFamily == old(fontFamily)
    {
      var target := EditTarget();
      if target.Some? && target.value.kind == Text {
        UpdateKeepsWellFormed(elements, target.value.id, ColorPatch(color));
        UpdateKeepsIds(elements, target.value.id, ColorPatch(color));
        elements := UpdateById(elements, target.value.id, ColorPatch(color));
      }
    }

    /** The edit dialog's shape-colour buttons. */
    method EditShapeColor(color: string)
      requires Valid()
      requires color in ShapePalette
      modifies this
      ensures Valid()
      ensures var target := old(EditTarget());
        elements == if target.Some? && target.value.kind == Shape
                    then UpdateById(old(elements), target.value.id, ShapeColorPatch(color))
                    else old(elements)
      ensures selected == old(selected) && showEditModal == old(showEditModal)
      ensures textInput == old(textInput) && textStyleType == old(textStyleType) && textColor == old(textColor)
      ensures isBold == old(isBold) && isItalic == old(isItalic) && textAlign == old(textAlign)
      ensures fontFamily == old(fontFamily)
    {
      var target := EditTarget();
      if target.Some? && target.value.kind == Shape {
        UpdateKeepsWellFormed(elements, target.value.id, ShapeColorPatch(color));
        UpdateKeepsIds(elements, target.value.id, ShapeColorPatch(color));
        elements := UpdateById(elements, target.value.id, ShapeColorPatch(color));
      }
    }
  }
}
