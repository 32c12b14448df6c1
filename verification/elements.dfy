/**
 * The element store of the design editor: the flat `CanvasElement` record, the
 * partial records that handlers merge into it with `{ ...el, ...updates }`, and
 * the three list transforms the editor applies to its ordered element list:
 * update-by-id (`map` with a spread merge), remove-by-id (`filter`) and
 * find-by-id (`find`).
 */
module Elements {
  import opened Wrappers

  datatype ElementType = Text | Image | Shape

  datatype ShapeType = Circle | Triangle | Rectangle | Star | Hexagon

  datatype TextAlign = Left | Center | Right

  /** One placed element. `kind` is the source's `type`; every field after `y` may be undefined. */
  datatype CanvasElement = CanvasElement(
    id: string,
    kind: ElementType,
    x: real,
    y: real,
    width: Option<real>,
    height: Option<real>,
    scale: Option<real>,
    rotation: Option<real>,
    text: Option<string>,
    fontSize: Option<real>,
    color: Option<string>,
    uri: Option<string>,
    shapeType: Option<ShapeType>,
    shapeColor: Option<string>,
    fontWeight: Option<string>,
    fontStyle: Option<string>,
    textAlign: Option<TextAlign>,
    fontFamily: Option<string>)

  /**
   * A `Partial<CanvasElement>` as the handlers build it: `Some(v)` is a key that
   * is present with value v, `None` a key that is absent.
   */
  datatype Patch = Patch(
    x: Option<real>,
    y: Option<real>,
    width: Option<real>,
    height: Option<real>,
    scale: Option<real>,
    rotation: Option<real>,
    text: Option<string>,
    fontSize: Option<real>,
    color: Option<string>,
    uri: Option<string>,
    shapeType: Option<ShapeType>,
    shapeColor: Option<string>,
    fontWeight: Option<string>,
    fontStyle: Option<string>,
    textAlign: Option<TextAlign>,
    fontFamily: Option<string>)

  const EmptyPatch := Patch(None, None, None, None, None, None, None, None, None, None, None, None, None, None, None, None)

  /** `{ x, y }`: what a pan commits. */
  function MovePatch(x: real, y: real): (p: Patch)
    ensures p.x == Some(x) && p.y == Some(y)
    ensures p.(x := None, y := None) == EmptyPatch
  {
    EmptyPatch.(x := Some(x), y := Some(y))
  }

  /** `{ scale }`: what a pinch commits. */
  function ScalePatch(scale: real): (p: Patch)
    ensures p.scale == Some(scale) && p.(scale := None) == EmptyPatch
  {
    EmptyPatch.(scale := Some(scale))
  }

  /** `{ text }`: the edit dialog's text field. */
  function TextPatch(text: string): (p: Patch)
    ensures p.text == Some(text) && p.(text := None) == EmptyPatch
  {
    EmptyPatch.(text := Some(text))
  }

  /** `{ color }`: the edit dialog's text-colour buttons. */
  function ColorPatch(color: string): (p: Patch)
    ensures p.color == Some(color) && p.(color := None) == EmptyPatch
  {
    EmptyPatch.(color := Some(color))
  }

  /** `{ shapeColor }`: the edit dialog's shape-colour buttons. */
  function ShapeColorPatch(color: string): (p: Patch)
    ensures p.shapeColor == Some(color) && p.(shapeColor := None) == EmptyPatch
  {
    EmptyPatch.(shapeColor := Some(color))
  }

  function Over<T>(base: Option<T>, update: Option<T>): Option<T> {
    if update.Some? then update else base
  }

  /**
   * `{ ...el, ...p }`: every key present in `p` overwrites, every other key is
   * kept. No patch carries `id` or `type`, so a merge never changes what
   * identifies the element.
   */
  function Merge(el: CanvasElement, p: Patch): (r: CanvasElement)
    ensures r.id == el.id && r.kind == el.kind
  {
    el.(
      x := p.x.GetOr(el.x),
      y := p.y.GetOr(el.y),
      width := Over(el.width, p.width),
      height := Over(el.height, p.height),
      scale := Over(el.scale, p.scale),
      rotation := Over(el.rotation, p.rotation),
      text := Over(el.text, p.text),
      fontSize := Over(el.fontSize, p.fontSize),
      color := Over(el.color, p.color),
      uri := Over(el.uri, p.uri),
      shapeType := Over(el.shapeType, p.shapeType),
      shapeColor := Over(el.shapeColor, p.shapeColor),
      fontWeight := Over(el.fontWeight, p.fontWeight),
      fontStyle := Over(el.fontStyle, p.fontStyle),
      textAlign := Over(el.textAlign, p.textAlign),
      fontFamily := Over(el.fontFamily, p.fontFamily))
  }

  /** `{ ...p, ...q }`: the patch that merging p and then q amounts to. */
  function Then(p: Patch, q: Patch): Patch {
    Patch(
      Over(p.x, q.x), Over(p.y, q.y), Over(p.width, q.width), Over(p.height, q.height),
      Over(p.scale, q.scale), Over(p.rotation, q.rotation), Over(p.text, q.text),
      Over(p.fontSize, q.fontSize), Over(p.color, q.color), Over(p.uri, q.uri),
      Over(p.shapeType, q.shapeType), Over(p.shapeColor, q.shapeColor),
      Over(p.fontWeight, q.fontWeight), Over(p.fontStyle, q.fontStyle),
      Over(p.textAlign, q.textAlign), Over(p.fontFamily, q.fontFamily))
  }

  /** No key is present in both patches. */
  predicate Disjoint(p: Patch, q: Patch) {
    && (p.x.None? || q.x.None?) && (p.y.None? || q.y.None?)
    && (p.width.None? || q.width.None?) && (p.height.None? || q.height.None?)
    && (p.scale.None? || q.scale.None?) && (p.rotation.None? || q.rotation.None?)
    && (p.text.None? || q.text.None?) && (p.fontSize.None? || q.fontSize.None?)
    && (p.color.None? || q.color.None?) && (p.uri.None? || q.uri.None?)
    && (p.shapeType.None? || q.shapeType.None?) && (p.shapeColor.None? || q.shapeColor.None?)
    && (p.fontWeight.None? || q.fontWeight.None?) && (p.fontStyle.None? || q.fontStyle.None?)
    && (p.textAlign.None? || q.textAlign.None?) && (p.fontFamily.None? || q.fontFamily.None?)
  }

  /** The ids of a list, in order. */
  function Ids(els: seq<CanvasElement>): (ids: seq<string>)
    ensures |ids| == |els| && forall i | 0 <= i < |els| :: ids[i] == els[i].id
  {
    if els == [] then [] else [els[0].id] + Ids(els[1..])
  }

  /**
   * `prev.map(el => el.id === id ? { ...el, ...p } : el)`: same length, same
   * order; every element carrying `id` is merged with `p`, every other one is
   * left as it was.
   */
  function UpdateById(els: seq<CanvasElement>, id: string, p: Patch): (r: seq<CanvasElement>)
    ensures |r| == |els|
    ensures forall i | 0 <= i < |els| && els[i].id == id :: r[i] == Merge(els[i], p)
    ensures forall i | 0 <= i < |els| && els[i].id != id :: r[i] == els[i]
  {
    if els == [] then []
    else [if els[0].id == id then Merge(els[0], p) else els[0]] + UpdateById(els[1..], id, p)
  }

  /**
   * `prev.filter(el => el.id !== id)`: exactly the elements that do not carry
   * `id` survive.
   */
  function RemoveById(els: seq<CanvasElement>, id: string): (r: seq<CanvasElement>)
    ensures |r| <= |els|
    ensures forall e | e in r :: e in els && e.id != id
    ensures forall e | e in els && e.id != id :: e in r
  {
    if els == [] then []
    else if els[0].id == id then RemoveById(els[1..], id)
    else [els[0]] + RemoveById(els[1..], id)
  }

  /** `els.find(e => e.id === id)`: the first element carrying `id`, if any (see `FindIsFirst`). */
  function FindById(els: seq<CanvasElement>, id: string): (r: Option<CanvasElement>)
    ensures r.None? <==> id !in Ids(els)
    ensures r.Some? ==> r.value.id == id && r.value in els
  {
    if els == [] then None
    else if els[0].id == id then Some(els[0])
    else
      assert Ids(els) == [els[0].id] + Ids(els[1..]);
      FindById(els[1..], id)
  }

  /** Number of elements carrying `id`. */
  function CountId(els: seq<CanvasElement>, id: string): nat {
    if els == [] then 0 else (if els[0].id == id then 1 else 0) + CountId(els[1..], id)
  }

  // ---------------------------------------------------------------------------
  // The spread merge.

  /** Merging nothing changes nothing, and merging a patch twice is merging it once. */
  lemma MergeIdentityAndIdempotence(el: CanvasElement, p: Patch)
    ensures Merge(el, EmptyPatch) == el
    ensures Merge(Merge(el, p), p) == Merge(el, p)
  {
  }

  /** Two successive merges are one merge of the combined patch. */
  lemma MergeThen(el: CanvasElement, p: Patch, q: Patch)
    ensures Merge(Merge(el, p), q) == Merge(el, Then(p, q))
  {
  }

  /** Merges of patches with no key in common commute. */
  lemma MergeDisjointCommute(el: CanvasElement, p: Patch, q: Patch)
    requires Disjoint(p, q)
    ensures Merge(Merge(el, p), q) == Merge(Merge(el, q), p)
  {
  }

  /** A pan commit and a pinch commit write disjoint keys, so their order does not matter. */
  lemma MoveAndScaleCommute(el: CanvasElement, x: real, y: real, s: real)
    ensures Disjoint(MovePatch(x, y), ScalePatch(s))
    ensures Merge(Merge(el, MovePatch(x, y)), ScalePatch(s)) == Merge(Merge(el, ScalePatch(s)), MovePatch(x, y))
  {
  }

  /** `find` returns the first match: the element at the first index carrying the id. */
  lemma {:induction false} FindIsFirst(els: seq<CanvasElement>, id: string, j: nat)
    requires j < |els| && els[j].id == id
    requires forall k | 0 <= k < j :: els[k].id != id
    ensures FindById(els, id) == Some(els[j])
  {
    if j > 0 {
      assert els[0].id != id;
      FindIsFirst(els[1..], id, j - 1);
    }
  }

  /** Appending an element appends its id. */
  lemma IdsAppend(els: seq<CanvasElement>, e: CanvasElement)
    ensures Ids(els + [e]) == Ids(els) + [e.id]
  {
    assert forall i | 0 <= i < |els| :: Ids(els + [e])[i] == (els + [e])[i].id == els[i].id;
  }

  /** An id in the list is carried by at least one element. */
  lemma {:induction false} CountPresent(els: seq<CanvasElement>, id: string)
    requires id in Ids(els)
    ensures CountId(els, id) >= 1
  {
    assert Ids(els) == [els[0].id] + Ids(els[1..]);
    if els[0].id != id {
      CountPresent(els[1..], id);
    }
  }

  // ---------------------------------------------------------------------------
  // Update-by-id.

  /** Updating never changes the ids or their order. */
  lemma {:induction false} UpdateKeepsIds(els: seq<CanvasElement>, id: string, p: Patch)
    ensures Ids(UpdateById(els, id, p)) == Ids(els)
  {
    if els != [] {
      UpdateKeepsIds(els[1..], id, p);
    }
  }

  /** Updating an id that is not in the list leaves the list exactly as it was. */
  lemma {:induction false} UpdateAbsent(els: seq<CanvasElement>, id: string, p: Patch)
    requires id !in Ids(els)
    ensures UpdateById(els, id, p) == els
  {
    if els != [] {
      assert Ids(els) == [els[0].id] + Ids(els[1..]);
      UpdateAbsent(els[1..], id, p);
    }
  }

  /** After an update, finding the id gives the first such element with the patch merged in. */
  lemma {:induction false} UpdateThenFind(els: seq<CanvasElement>, id: string, p: Patch)
    ensures FindById(UpdateById(els, id, p), id) ==
      match FindById(els, id) case None => None case Some(e) => Some(Merge(e, p))
  {
    if els != [] {
      UpdateThenFind(els[1..], id, p);
    }
  }

  /** Two updates of the same id are one update with the combined patch. */
  lemma {:induction false} UpdateThen(els: seq<CanvasElement>, id: string, p: Patch, q: Patch)
    ensures UpdateById(UpdateById(els, id, p), id, q) == UpdateById(els, id, Then(p, q))
  {
    if els != [] {
      MergeThen(els[0], p, q);
      UpdateThen(els[1..], id, p, q);
    }
  }

  /** Updates with disjoint patches commute, whichever ids they address. */
  lemma {:induction false} UpdatesCommute(els: seq<CanvasElement>, a: string, p: Patch, b: string, q: Patch)
    requires a != b || Disjoint(p, q)
    ensures UpdateById(UpdateById(els, a, p), b, q) == UpdateById(UpdateById(els, b, q), a, p)
  {
    if els != [] {
      if a == b {
        MergeDisjointCommute(els[0], p, q);
      }
      UpdatesCommute(els[1..], a, p, b, q);
    }
  }

  // ---------------------------------------------------------------------------
  // Remove-by-id.

  /** Removing distributes over concatenation: the survivors keep their order. */
  lemma {:induction false} RemoveConcat(a: seq<CanvasElement>, b: seq<CanvasElement>, id: string)
    ensures RemoveById(a + b, id) == RemoveById(a, id) + RemoveById(b, id)
  {
    if a == [] {
      assert a + b == b;
    } else {
      assert (a + b)[1..] == a[1..] + b;
      RemoveConcat(a[1..], b, id);
    }
  }

  /** Removing an id that is not in the list leaves the list exactly as it was. */
  lemma {:induction false} RemoveAbsent(els: seq<CanvasElement>, id: string)
    requires id !in Ids(els)
    ensures RemoveById(els, id) == els
  {
    if els != [] {
      assert Ids(els) == [els[0].id] + Ids(els[1..]);
      RemoveAbsent(els[1..], id);
    }
  }

  /** After removal the id can no longer be found, and exactly its occurrences are gone. */
  lemma {:induction false} RemoveThenFind(els: seq<CanvasElement>, id: string)
    ensures FindById(RemoveById(els, id), id) == None
    ensures |RemoveById(els, id)| == |els| - CountId(els, id)
  {
    if els != [] {
      RemoveThenFind(els[1..], id);
    }
  }

  /** Removing one id does not disturb where another id is found. */
  lemma {:induction false} RemoveKeepsOthers(els: seq<CanvasElement>, id: string, other: string)
    requires other != id
    ensures FindById(RemoveById(els, id), other) == FindById(els, other)
  {
    if els != [] {
      RemoveKeepsOthers(els[1..], id, other);
    }
  }
}
