/**
 * `renderShape` of the draggable element: the fill and stroke it picks and the
 * geometry it lays out inside the element's `width` x `height` box. Star and
 * hexagon vertices are kept in polar form (centre, radius, angle): the source
 * turns them into floating-point cosines and sines, which this model leaves
 * symbolic, with the angle written as a multiple of pi.
 */
module Shapes {
  import opened Wrappers
  import opened Elements
  import HexColor

  /** A vertex either at a fixed point or at `(cx + radius cos(angle pi), cy + radius sin(angle pi))`. */
  datatype Vertex =
    | Point(x: real, y: real)
    | Polar(cx: real, cy: real, radius: real, angle: real)

  datatype Primitive =
    | CircleShape(cx: real, cy: real, r: real)
    | PolygonShape(points: seq<Vertex>)
    | RectShape(x: real, y: real, width: real, height: real, rx: real, ry: real)

  datatype Drawing = Drawing(primitive: Primitive, fill: string, stroke: string, strokeWidth: real)

  const DefaultFill: string := "#007AFF"
  const DefaultStroke: string := "#0056CC"
  /** `Math.round(2.55 * 20)`: the stroke is the fill darkened by 20 percent. */
  const StrokeDarkenAmount: int := 51
  /** The margin every shape keeps from its box. */
  const Inset: real := 5.0

  /** JavaScript truthiness of an optional string: undefined and "" are false. */
  predicate Truthy(s: Option<string>) {
    s.Some? && s.value != ""
  }

  /** `element.shapeColor || "#007AFF"`. */
  function FillColor(shapeColor: Option<string>): (fill: string)
    ensures Truthy(shapeColor) ==> fill == shapeColor.value
    ensures !Truthy(shapeColor) ==> fill == DefaultFill
  {
    if Truthy(shapeColor) then shapeColor.value else DefaultFill
  }

  /** `element.shapeColor ? darkenColor(element.shapeColor, 20) : "#0056CC"`. */
  function StrokeColor(shapeColor: Option<string>): (stroke: string)
    ensures Truthy(shapeColor) ==> stroke == HexColor.DarkenColor(shapeColor.value, StrokeDarkenAmount)
    ensures !Truthy(shapeColor) ==> stroke == DefaultStroke
  {
    if Truthy(shapeColor) then HexColor.DarkenColor(shapeColor.value, StrokeDarkenAmount) else DefaultStroke
  }

  function Min(a: real, b: real): real {
    if a <= b then a else b
  }

  /** Ten vertices around `(cx, cy)`, outer and inner radius alternating, pi/5 apart starting straight up. */
  predicate IsStar(points: seq<Vertex>, cx: real, cy: real, outerRadius: real, innerRadius: real) {
    && |points| == 10
    && forall k | 0 <= k < 10 ::
         points[k] == Polar(cx, cy, if k % 2 == 0 then outerRadius else innerRadius, (2 * k - 5) as real / 10.0)
  }

  /** Six vertices around `(cx, cy)` at one radius, pi/3 apart starting at angle 0. */
  predicate IsHexagon(points: seq<Vertex>, cx: real, cy: real, radius: real) {
    |points| == 6 && forall k | 0 <= k < 6 :: points[k] == Polar(cx, cy, radius, k as real / 3.0)
  }

  /**
   * The star loop: five rounds, each appending an outer vertex at angle
   * `2i pi/5 - pi/2` and an inner vertex at `(2i+1) pi/5 - pi/2`. The result is
   * ten vertices, outer and inner alternating, evenly spaced by pi/5 starting
   * straight up.
   */
  method StarVertices(cx: real, cy: real, outerRadius: real, innerRadius: real) returns (points: seq<Vertex>)
    ensures IsStar(points, cx, cy, outerRadius, innerRadius)
  {
    points := [];
    for i := 0 to 5
      invariant |points| == 2 * i
      invariant forall k | 0 <= k < 2 * i ::
        points[k] == Polar(cx, cy, if k % 2 == 0 then outerRadius else innerRadius, (2 * k - 5) as real / 10.0)
    {
      var outer := Polar(cx, cy, outerRadius, (i * 2) as real / 5.0 - 0.5);
      var inner := Polar(cx, cy, innerRadius, (i * 2 + 1) as real / 5.0 - 0.5);
      points := points + [outer, inner];
    }
  }

  /** The hexagon loop: six vertices at angles `i 2pi/6`, all at the same radius. */
  method HexagonVertices(cx: real, cy: real, radius: real) returns (points: seq<Vertex>)
    ensures IsHexagon(points, cx, cy, radius)
  {
    points := [];
    for i := 0 to 6
      invariant |points| == i
      invariant forall k | 0 <= k < i :: points[k] == Polar(cx, cy, radius, k as real / 3.0)
    {
      points := points + [Polar(cx, cy, radius, (i * 2) as real / 6.0)];
    }
  }

  /**
   * Where each shape sits in its `w` x `h` box: the circle and the star and
   * hexagon centred, everything kept `Inset` from the edges.
   */
  predicate IsLayout(shape: ShapeType, w: real, h: real, p: Primitive) {
    var outer := Min(w / 2.0, h / 2.0) - Inset;
    match shape
    case Circle => p == CircleShape(w / 2.0, h / 2.0, w / 2.0 - Inset)
    case Triangle => p == PolygonShape([Point(w / 2.0, Inset), Point(Inset, h - Inset), Point(w - Inset, h - Inset)])
    case Rectangle => p == RectShape(Inset, Inset, w - 2.0 * Inset, h - 2.0 * Inset, 8.0, 8.0)
    case Star => p.PolygonShape? && IsStar(p.points, w / 2.0, h / 2.0, outer, outer / 2.0)
    case Hexagon => p.PolygonShape? && IsHexagon(p.points, w / 2.0, h / 2.0, outer)
  }

  /** The `switch (element.shapeType)` of `renderShape()` for a box of `w` x `h`: the outline it draws. */
  method Outline(shape: ShapeType, w: real, h: real) returns (p: Primitive)
    ensures IsLayout(shape, w, h, p)
  {
    match shape {
      case Circle =>
        p := CircleShape(w / 2.0, h / 2.0, w / 2.0 - 5.0);
      case Triangle =>
        p := PolygonShape([Point(w / 2.0, 5.0), Point(5.0, h - 5.0), Point(w - 5.0, h - 5.0)]);
      case Rectangle =>
        p := RectShape(5.0, 5.0, w - 10.0, h - 10.0, 8.0, 8.0);
      case Star =>
        var centerX := w / 2.0;
        var centerY := h / 2.0;
        var outerRadius := Min(centerX, centerY) - 5.0;
        var innerRadius := outerRadius / 2.0;
        var points := StarVertices(centerX, centerY, outerRadius, innerRadius);
        p := PolygonShape(points);
      case Hexagon =>
        var hexCenterX := w / 2.0;
        var hexCenterY := h / 2.0;
        var hexRadius := Min(hexCenterX, hexCenterY) - 5.0;
        var hexPoints := HexagonVertices(hexCenterX, hexCenterY, hexRadius);
        p := PolygonShape(hexPoints);
    }
  }

  /**
   * `renderShape()`: `None` where the source returns `null` (no shape type).
   * The `element.width!` and `element.height!` assertions become the requires.
   */
  method RenderShape(e: CanvasElement) returns (d: Option<Drawing>)
    requires e.shapeType.Some? ==> e.width.Some? && e.height.Some?
    ensures d.Some? <==> e.shapeType.Some?
    ensures d.Some? ==> d.value.fill == FillColor(e.shapeColor)
    ensures d.Some? ==> d.value.stroke == StrokeColor(e.shapeColor) && d.value.strokeWidth == 2.0
    ensures d.Some? ==> IsLayout(e.shapeType.value, e.width.value, e.height.value, d.value.primitive)
  {
    var fill := FillColor(e.shapeColor);
    var stroke := StrokeColor(e.shapeColor);
    if e.shapeType.None? {
      d := None;
    } else {
      var outline := Outline(e.shapeType.value, e.width.value, e.height.value);
      d := Some(Drawing(outline, fill, stroke, 2.0));
    }
  }

  /**
   * In a box at least 10 wide and high, every star and hexagon vertex lies
   * within the inset circle: its radius is non-negative and leaves the
   * 5-unit margin on all four sides, and the inner radius is half the outer.
   */
  lemma StarFitsBox(w: real, h: real)
    requires w >= 10.0 && h >= 10.0
    ensures var outer := Min(w / 2.0, h / 2.0) - Inset;
      && 0.0 <= outer / 2.0 <= outer
      && outer + Inset <= w / 2.0 && outer + Inset <= h / 2.0
      && w / 2.0 - outer >= Inset && h / 2.0 - outer >= Inset
  {
  }

  /**
   * The stroke never outshines the fill: for a palette-style colour, or no
   * colour at all, the stroke is again a colour and each of its channels is at
   * most the fill's.
   */
  lemma StrokeDarkerThanFill(shapeColor: Option<string>)
    requires !Truthy(shapeColor) || HexColor.IsHexColor(shapeColor.value)
    ensures HexColor.IsHexColor(FillColor(shapeColor)) && HexColor.IsHexColor(StrokeColor(shapeColor))
    ensures HexColor.Red(StrokeColor(shapeColor)) <= HexColor.Red(FillColor(shapeColor))
    ensures HexColor.Green(StrokeColor(shapeColor)) <= HexColor.Green(FillColor(shapeColor))
    ensures HexColor.Blue(StrokeColor(shapeColor)) <= HexColor.Blue(FillColor(shapeColor))
  {
    if Truthy(shapeColor) {
      HexColor.DarkenNeverBrightens(shapeColor.value, StrokeDarkenAmount);
    } else {
      assert DefaultFill == ['#', '0', '0', '7', 'A', 'F', 'F'];
      assert DefaultStroke == ['#', '0', '0', '5', '6', 'C', 'C'];
      assert HexColor.IsHexColor(DefaultFill) && HexColor.IsHexColor(DefaultStroke);
      assert DefaultFill[1..3] == ['0', '0'] && DefaultStroke[1..3] == ['0', '0'];
      assert DefaultFill[3..5] == ['7', 'A'] && DefaultStroke[3..5] == ['5', '6'];
      assert DefaultFill[5..7] == ['F', 'F'] && DefaultStroke[5..7] == ['C', 'C'];
      HexColor.HexValueOfTwo('0', '0');
      HexColor.HexValueOfTwo('7', 'A');
      HexColor.HexValueOfTwo('5', '6');
      HexColor.HexValueOfTwo('F', 'F');
      HexColor.HexValueOfTwo('C', 'C');
    }
  }
}
