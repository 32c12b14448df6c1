/**
 * The per-element gesture engine (`DraggableElement`): a pan and a pinch
 * recogniser composed to run simultaneously over three transient values
 * (`translateX`, `translateY`, `scale`) and a last-tap timestamp. Each callback
 * is one atomic step that updates the transient values and emits effects for
 * the editor: `Select` (`onSelect`), `ShowEdit` (`onShowEdit`) and
 * `Update(patch)` (`onUpdate`). Only the two `onEnd` callbacks emit an update.
 */
module Gestures {
  import opened Wrappers
  import opened Elements

  /** Two pan-begins closer than this many milliseconds are a double tap. */
  const DoubleTapWindow: int := 300

  datatype Effect = Select | ShowEdit | Update(patch: Patch)

  /** One callback of the composed gesture; `now` is the `Date.now()` reading a pan-begin takes. */
  datatype GestureEvent =
    | PanBegin(now: int)
    | PanUpdate(translationX: real, translationY: real)
    | PanEnd
    | PinchBegin
    | PinchUpdate(factor: real)
    | PinchEnd

  /** The shared values and the `lastTap` ref. */
  datatype Transient = Transient(translateX: real, translateY: real, scale: real, lastTap: int)

  /** `element.scale || 1`: an undefined or zero scale counts as 1. */
  function BaseScale(e: CanvasElement): (s: real)
    ensures s != 0.0
    ensures e.scale.Some? && e.scale.value != 0.0 ==> s == e.scale.value
    ensures !(e.scale.Some? && e.scale.value != 0.0) ==> s == 1.0
  {
    if e.scale.Some? && e.scale.value != 0.0 then e.scale.value else 1.0
  }

  /** The values a freshly mounted component starts from. */
  function Initial(e: CanvasElement): (t: Transient)
    ensures t.translateX == e.x && t.translateY == e.y
    ensures t.scale != 0.0 && t.lastTap == 0
  {
    Transient(e.x, e.y, BaseScale(e), 0)
  }

  /** One callback, for the element as currently rendered. */
  function Step(e: CanvasElement, t: Transient, ev: GestureEvent): (r: (Transient, seq<Effect>))
    ensures 1 <= |r.1| <= 2 <==> !ev.PanUpdate? && !ev.PinchUpdate?
    ensures HasCommit(r.1) <==> IsEnd(ev)
    ensures r.0.lastTap == if ev.PanBegin? then ev.now else t.lastTap
    ensures IsEnd(ev) || ev.PinchBegin? ==> r.0 == t
  {
    match ev
    case PanBegin(now) =>
      (t.(lastTap := now), [Select] + (if now - t.lastTap < DoubleTapWindow then [ShowEdit] else []))
    case PanUpdate(dx, dy) =>
      (t.(translateX := dx + e.x, translateY := dy + e.y), [])
    case PanEnd =>
      var fx := [Update(MovePatch(t.translateX, t.translateY))];
      assert fx[0].Update?;
      (t, fx)
    case PinchBegin =>
      (t, [Select])
    case PinchUpdate(f) =>
      (t.(scale := BaseScale(e) * f), [])
    case PinchEnd =>
      var fx := [Update(ScalePatch(t.scale))];
      assert fx[0].Update?;
      (t, fx)
  }

  /** A run of callbacks for one rendered element: the final values and every effect, in order. */
  function Run(e: CanvasElement, t: Transient, evs: seq<GestureEvent>): (r: (Transient, seq<Effect>))
    decreases |evs|
  {
    if evs == [] then (t, [])
    else
      var first := Step(e, t, evs[0]);
      var rest := Run(e, first.0, evs[1..]);
      (rest.0, first.1 + rest.1)
  }

  /** After a run the tap ref holds the time of the last pan-begin, or its starting value when there is none. */
  lemma {:induction false} RunLastTap(e: CanvasElement, t: Transient, evs: seq<GestureEvent>)
    ensures (forall i | 0 <= i < |evs| :: !evs[i].PanBegin?) ==> Run(e, t, evs).0.lastTap == t.lastTap
    ensures forall i | 0 <= i < |evs| && evs[i].PanBegin? ::
      (forall j | i < j < |evs| :: !evs[j].PanBegin?) ==> Run(e, t, evs).0.lastTap == evs[i].now
    decreases |evs|
  {
    if evs != [] {
      var first := Step(e, t, evs[0]);
      var rest := evs[1..];
      RunLastTap(e, first.0, rest);
      assert Run(e, t, evs).0 == Run(e, first.0, rest).0;
      assert forall k | 0 <= k < |rest| :: rest[k] == evs[k + 1];
    }
  }

  predicate IsEnd(ev: GestureEvent) {
    ev.PanEnd? || ev.PinchEnd?
  }

  /** The patch is `{x, y}` and nothing else. */
  predicate IsMove(p: Patch) {
    p.x.Some? && p.y.Some? && p == MovePatch(p.x.value, p.y.value)
  }

  /** The patch is `{scale}` and nothing else. */
  predicate IsRescale(p: Patch) {
    p.scale.Some? && p == ScalePatch(p.scale.value)
  }

  predicate HasCommit(fx: seq<Effect>) {
    exists i | 0 <= i < |fx| :: fx[i].Update?
  }

  /** Pan updates with the given cumulative translations. */
  function PanMoves(moves: seq<(real, real)>): (evs: seq<GestureEvent>)
    ensures |evs| == |moves|
    ensures forall i | 0 <= i < |moves| :: evs[i] == PanUpdate(moves[i].0, moves[i].1)
  {
    if moves == [] then [] else [PanUpdate(moves[0].0, moves[0].1)] + PanMoves(moves[1..])
  }

  /** Pinch updates with the given cumulative factors. */
  function PinchMoves(factors: seq<real>): (evs: seq<GestureEvent>)
    ensures |evs| == |factors|
    ensures forall i | 0 <= i < |factors| :: evs[i] == PinchUpdate(factors[i])
  {
    if factors == [] then [] else [PinchUpdate(factors[0])] + PinchMoves(factors[1..])
  }

  // ---------------------------------------------------------------------------
  // One step.

  /**
   * A pan-begin always selects first; it opens the edit dialog exactly when
   * less than 300 ms passed since the previous pan-begin; it records `now`
   * whether or not the tap counted; and it touches nothing else.
   */
  lemma PanBeginEffects(e: CanvasElement, t: Transient, now: int)
    ensures Step(e, t, PanBegin(now)).1[0] == Select
    ensures ShowEdit in Step(e, t, PanBegin(now)).1 <==> now - t.lastTap < DoubleTapWindow
    ensures !HasCommit(Step(e, t, PanBegin(now)).1)
    ensures Step(e, t, PanBegin(now)).0 == t.(lastTap := now)
  {
  }

  /** Updates move only the transient values and emit nothing; ends emit exactly their own keys. */
  lemma StepCommitsOnlyAtEnd(e: CanvasElement, t: Transient, ev: GestureEvent)
    ensures !IsEnd(ev) ==> !HasCommit(Step(e, t, ev).1)
    ensures ev.PanEnd? ==> Step(e, t, ev) == (t, [Update(MovePatch(t.translateX, t.translateY))])
    ensures ev.PinchEnd? ==> Step(e, t, ev) == (t, [Update(ScalePatch(t.scale))])
  {
  }

  // ---------------------------------------------------------------------------
  // Runs of callbacks.

  /** A run of one callback is that callback's step. */
  lemma RunOne(e: CanvasElement, t: Transient, ev: GestureEvent)
    ensures Run(e, t, [ev]) == Step(e, t, ev)
  {
    var step := Step(e, t, ev);
    assert [ev][1..] == [];
    assert Run(e, step.0, []) == (step.0, []);
    assert step.1 + [] == step.1;
  }

  /** Running one more callback after a run is that callback's step from the run's final values. */
  lemma RunSnoc(e: CanvasElement, t: Transient, evs: seq<GestureEvent>, ev: GestureEvent)
    ensures var before := Run(e, t, evs);
      Run(e, t, evs + [ev]) == (Step(e, before.0, ev).0, before.1 + Step(e, before.0, ev).1)
  {
    RunAppend(e, t, evs, [ev]);
    RunOne(e, Run(e, t, evs).0, ev);
  }

  lemma {:induction false} RunAppend(e: CanvasElement, t: Transient, a: seq<GestureEvent>, b: seq<GestureEvent>)
    ensures Run(e, t, a + b) ==
      (Run(e, Run(e, t, a).0, b).0, Run(e, t, a).1 + Run(e, Run(e, t, a).0, b).1)
    decreases |a|
  {
    if a == [] {
      assert a + b == b;
      assert Run(e, t, a).1 + Run(e, t, b).1 == Run(e, t, b).1;
    } else {
      assert (a + b)[0] == a[0];
      assert (a + b)[1..] == a[1..] + b;
      var t' := Step(e, t, a[0]).0;
      RunAppend(e, t', a[1..], b);
      var fx := Step(e, t, a[0]).1;
      var mid := Run(e, t', a[1..]);
      var tail := Run(e, mid.0, b);
      assert Run(e, t, a + b).1 == fx + (mid.1 + tail.1);
      assert Run(e, t, a).1 == fx + mid.1;
      assert fx + (mid.1 + tail.1) == (fx + mid.1) + tail.1;
    }
  }

  /**
   * No commit before the end: a run of callbacks with no pan-end and no
   * pinch-end emits no update, so an interrupted gesture leaves the element
   * as it was committed.
   */
  lemma {:induction false} NoCommitWithoutEnd(e: CanvasElement, t: Transient, evs: seq<GestureEvent>)
    requires forall i | 0 <= i < |evs| :: !IsEnd(evs[i])
    ensures !HasCommit(Run(e, t, evs).1)
    decreases |evs|
  {
    if evs != [] {
      StepCommitsOnlyAtEnd(e, t, evs[0]);
      NoCommitWithoutEnd(e, Step(e, t, evs[0]).0, evs[1..]);
      var fx: seq<Effect> := Step(e, t, evs[0]).1;
      var rest: seq<Effect> := Run(e, Step(e, t, evs[0]).0, evs[1..]).1;
      assert Run(e, t, evs).1 == fx + rest;
      forall i | 0 <= i < |fx + rest|
        ensures !(fx + rest)[i].Update?
      {
        if i < |fx| {
          assert (fx + rest)[i] == fx[i];
        } else {
          assert (fx + rest)[i] == rest[i - |fx|];
        }
      }
    }
  }

  /** Each commit a run emits writes either exactly `{x, y}` or exactly `{scale}`. */
  lemma {:induction false} CommitsWriteOwnKeys(e: CanvasElement, t: Transient, evs: seq<GestureEvent>)
    ensures forall i | 0 <= i < |Run(e, t, evs).1| && Run(e, t, evs).1[i].Update? ::
      IsMove(Run(e, t, evs).1[i].patch) || IsRescale(Run(e, t, evs).1[i].patch)
    decreases |evs|
  {
    if evs != [] {
      CommitsWriteOwnKeys(e, Step(e, t, evs[0]).0, evs[1..]);
      var fx: seq<Effect> := Step(e, t, evs[0]).1;
      var rest: seq<Effect> := Run(e, Step(e, t, evs[0]).0, evs[1..]).1;
      assert Run(e, t, evs).1 == fx + rest;
      forall i | 0 <= i < |fx + rest| && (fx + rest)[i].Update?
        ensures IsMove((fx + rest)[i].patch) || IsRescale((fx + rest)[i].patch)
      {
        if i >= |fx| {
          assert (fx + rest)[i] == rest[i - |fx|];
        } else if evs[0].PanEnd? {
          assert (fx + rest)[i].patch == MovePatch(t.translateX, t.translateY);
        } else {
          assert (fx + rest)[i].patch == ScalePatch(t.scale);
        }
      }
    }
  }

  /** Pan updates leave the transient position at the committed position plus the last translation. */
  lemma {:induction false} PanMovesTrack(e: CanvasElement, t: Transient, moves: seq<(real, real)>)
    requires |moves| > 0
    ensures Run(e, t, PanMoves(moves)).1 == []
    ensures Run(e, t, PanMoves(moves)).0 ==
      t.(translateX := moves[|moves| - 1].0 + e.x, translateY := moves[|moves| - 1].1 + e.y)
    decreases |moves|
  {
    var t' := Step(e, t, PanUpdate(moves[0].0, moves[0].1)).0;
    if |moves| > 1 {
      PanMovesTrack(e, t', moves[1..]);
    }
  }

  /**
   * A complete drag: begin, one or more updates, end. It selects (and opens
   * edit on a double tap), and its only commit is `{x, y}` at the committed
   * position plus the last cumulative translation.
   */
  lemma PanGestureCommits(e: CanvasElement, t: Transient, now: int, moves: seq<(real, real)>)
    requires |moves| > 0
    ensures var last := moves[|moves| - 1];
      Run(e, t, [PanBegin(now)] + PanMoves(moves) + [PanEnd]).1 ==
        [Select] + (if now - t.lastTap < DoubleTapWindow then [ShowEdit] else []) +
        [Update(MovePatch(e.x + last.0, e.y + last.1))]
  {
    var press := [PanBegin(now)] + PanMoves(moves);
    PanPressTracks(e, t, now, moves);
    RunSnoc(e, t, press, PanEnd);
  }

  /** A pan-begin then its updates: the begin's effects, and the position of the last translation. */
  lemma PanPressTracks(e: CanvasElement, t: Transient, now: int, moves: seq<(real, real)>)
    requires |moves| > 0
    ensures var begin := Step(e, t, PanBegin(now));
      Run(e, t, [PanBegin(now)] + PanMoves(moves)) ==
        (begin.0.(translateX := moves[|moves| - 1].0 + e.x, translateY := moves[|moves| - 1].1 + e.y), begin.1)
  {
    RunOne(e, t, PanBegin(now));
    PanMovesTrack(e, Step(e, t, PanBegin(now)).0, moves);
    RunAppend(e, t, [PanBegin(now)], PanMoves(moves));
  }

  /** Pinch updates leave the transient scale at the committed scale times the last factor. */
  lemma {:induction false} PinchMovesTrack(e: CanvasElement, t: Transient, factors: seq<real>)
    requires |factors| > 0
    ensures Run(e, t, PinchMoves(factors)).1 == []
    ensures Run(e, t, PinchMoves(factors)).0 == t.(scale := BaseScale(e) * factors[|factors| - 1])
    decreases |factors|
  {
    var t' := Step(e, t, PinchUpdate(factors[0])).0;
    if |factors| > 1 {
      PinchMovesTrack(e, t', factors[1..]);
    }
  }

  /**
   * A complete pinch: begin, one or more updates, end. It selects, and its only
   * commit is `{scale}` equal to `(element.scale || 1)` times the last factor.
   */
  lemma PinchGestureCommits(e: CanvasElement, t: Transient, factors: seq<real>)
    requires |factors| > 0
    ensures Run(e, t, [PinchBegin] + PinchMoves(factors) + [PinchEnd]).1 ==
      [Select, Update(ScalePatch(BaseScale(e) * factors[|factors| - 1]))]
  {
    var t1 := Step(e, t, PinchBegin).0;
    PinchMovesTrack(e, t1, factors);
    RunAppend(e, t, [PinchBegin], PinchMoves(factors));
    RunAppend(e, t, [PinchBegin] + PinchMoves(factors), [PinchEnd]);
  }

  /** A freshly mounted element never opens edit on its first pan-begin once the clock is past 300 ms. */
  lemma FirstTapOnlySelects(e: CanvasElement, now: int)
    requires now >= DoubleTapWindow
    ensures Step(e, Initial(e), PanBegin(now)).1 == [Select]
  {
  }

  /**
   * Three pan-begins: the second 200 ms after the first opens edit, the third
   * 500 ms after the second only selects.
   */
  lemma DoubleTapScenario(e: CanvasElement, t: Transient, now: int)
    requires now - t.lastTap >= DoubleTapWindow
    ensures Run(e, t, [PanBegin(now), PanBegin(now + 200), PanBegin(now + 700)]).1 ==
      [Select, Select, ShowEdit, Select]
  {
    var t1 := t.(lastTap := now);
    var t2 := t1.(lastTap := now + 200);
    assert [PanBegin(now), PanBegin(now + 200), PanBegin(now + 700)][1..] == [PanBegin(now + 200), PanBegin(now + 700)];
    assert [PanBegin(now + 200), PanBegin(now + 700)][1..] == [PanBegin(now + 700)];
    assert Run(e, t2, [PanBegin(now + 700)]).1 == [Select];
    assert Run(e, t1, [PanBegin(now + 200), PanBegin(now + 700)]).1 == [Select, ShowEdit, Select];
  }

  // ---------------------------------------------------------------------------
  // The component itself.

  /** One mounted `DraggableElement`: the element prop it renders and its gesture state. */
  class DraggableElement {
    var element: CanvasElement
    var translateX: real
    var translateY: real
    var scale: real
    var lastTap: int

    function State(): Transient
      reads this
    {
      Transient(translateX, translateY, scale, lastTap)
    }

    /** `useSharedValue(element.x)`, `useSharedValue(element.y)`, `useSharedValue(element.scale || 1)`, `useRef(0)`. */
    constructor(element: CanvasElement)
      ensures this.element == element && State() == Initial(element)
    {
      this.element := element;
      translateX := element.x;
      translateY := element.y;
      scale := BaseScale(element);
      lastTap := 0;
    }

    /** A re-render with a new element prop; shared values keep their values. */
    method Receive(e: CanvasElement)
      modifies this
      ensures element == e && State() == old(State())
    {
      element := e;
    }

    method OnPanBegin(now: int) returns (effects: seq<Effect>)
      modifies this
      ensures element == old(element)
      ensures (State(), effects) == Step(element, old(State()), PanBegin(now))
    {
      var timeDiff := now - lastTap;
      effects := [Select];
      if timeDiff < DoubleTapWindow {
        effects := effects + [ShowEdit];
      }
      lastTap := now;
      assert effects == [Select] + (if timeDiff < DoubleTapWindow then [ShowEdit] else []);
    }

    method OnPanUpdate(translationX: real, translationY: real)
      modifies this
      ensures element == old(element)
      ensures State() == Step(element, old(State()), PanUpdate(translationX, translationY)).0
      ensures Step(element, old(State()), PanUpdate(translationX, translationY)).1 == []
    {
      translateX := translationX + element.x;
      translateY := translationY + element.y;
    }

    method OnPanEnd() returns (effects: seq<Effect>)
      modifies this
      ensures element == old(element) && State() == old(State())
      ensures (State(), effects) == Step(element, old(State()), PanEnd)
    {
      effects := [Update(MovePatch(translateX, translateY))];
    }

    method OnPinchBegin() returns (effects: seq<Effect>)
      modifies this
      ensures element == old(element) && State() == old(State())
      ensures (State(), effects) == Step(element, old(State()), PinchBegin)
    {
      effects := [Select];
    }

    method OnPinchUpdate(factor: real)
      modifies this
      ensures element == old(element)
      ensures State() == Step(element, old(State()), PinchUpdate(factor)).0
      ensures Step(element, old(State()), PinchUpdate(factor)).1 == []
    {
      scale := BaseScale(element) * factor;
    }

    method OnPinchEnd() returns (effects: seq<Effect>)
      modifies this
      ensures element == old(element) && State() == old(State())
      ensures (State(), effects) == Step(element, old(State()), PinchEnd)
    {
      effects := [Update(ScalePatch(scale))];
    }
  }
}
