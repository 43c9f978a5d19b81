/**
 * The local-space meshes the shapes are built from, and the whole-mesh
 * rewrites the shapes apply to them: recolouring, and placing the vertices
 * on an ellipse or a circle at an integer-degree angular step.
 */
module Meshes {
  import opened Geometry

  /** The `scale` constant of the procedural builders (`.1f`). */
  const SCALE: real := 0.1

  const SEGMENTS: nat := 32
  const VERTICES_PER_SEGMENT: nat := 3

  /** `MathF.PI * 2`. */
  const CIRCLE_RADIANS: real := PI * 2.0

  /** `CreateTriangle`: a small isosceles triangle, Red, Green, Blue. */
  function CreateTriangle(m: MathF): seq<Vertex> {
    var height := m.sqrt(0.75) * SCALE;
    [ Vertex(Vec2(-SCALE, -height / 2.0), RED),
      Vertex(Vec2(SCALE, -height / 2.0), GREEN),
      Vertex(Vec2(0.0, height), BLUE) ]
  }

  /** `CreateRectangle`: two triangles covering a small square. */
  function CreateRectangle(): seq<Vertex> {
    [ Vertex(Vec2(-SCALE, -SCALE), RED),
      Vertex(Vec2(SCALE, -SCALE), GREEN),
      Vertex(Vec2(-SCALE, SCALE), BLUE),
      Vertex(Vec2(SCALE, -SCALE), GREEN),
      Vertex(Vec2(SCALE, SCALE), RED),
      Vertex(Vec2(-SCALE, SCALE), BLUE) ]
  }

  /** The literal triangle handed to the base constructor by three of the shape constructors. */
  function UnitTriangle(): seq<Vertex> {
    [ Vertex(Vec2(-0.5, -0.5), RED),
      Vertex(Vec2(0.5, -0.5), GREEN),
      Vertex(Vec2(0.0, 0.5), BLUE) ]
  }

  /** The literal four-vertex quad handed to the base constructor by the sized rectangle. */
  function UnitQuad(): seq<Vertex> {
    [ Vertex(Vec2(-0.5, -0.5), RED),
      Vertex(Vec2(0.5, -0.5), GREEN),
      Vertex(Vec2(0.5, 0.5), BLUE),
      Vertex(Vec2(-0.5, 0.5), BLUE) ]
  }

  /** The literal one-vertex mesh handed to the base constructor by the sized circle. */
  function UnitDot(): seq<Vertex> {
    [ Vertex(Vec2(-0.5, -0.5), RED) ]
  }

  // ---------------------------------------------------------------------------
  // The circle fan
  // ---------------------------------------------------------------------------

  /** `circleRadians / numberOfSegments * i`: the angle at which segment `i` starts. */
  function SegmentAngle(i: nat): real {
    CIRCLE_RADIANS / (SEGMENTS as real) * (i as real)
  }

  /** The rim point at `angle`: `new Vector(Cos(angle), Sin(angle)) * scale`. */
  function RimPoint(m: MathF, angle: real): Vector {
    Vec2(m.cos(angle), m.sin(angle)).Times(SCALE)
  }

  /**
   * The vertex in slot `slot` of segment `i` of the fan: the centre (Blue),
   * the rim at the segment's first angle (Green), the rim at its last angle (Red).
   */
  function FanVertex(m: MathF, i: nat, slot: nat): Vertex
    requires slot < VERTICES_PER_SEGMENT
  {
    if slot == 0 then Vertex(ZERO, BLUE)
    else if slot == 1 then Vertex(RimPoint(m, SegmentAngle(i)), GREEN)
    else Vertex(RimPoint(m, SegmentAngle(i + 1)), RED)
  }

  /** The whole fan, segment after segment. */
  function CircleMesh(m: MathF): seq<Vertex> {
    seq(SEGMENTS * VERTICES_PER_SEGMENT, k requires 0 <= k < SEGMENTS * VERTICES_PER_SEGMENT =>
      FanVertex(m, k / VERTICES_PER_SEGMENT, k % VERTICES_PER_SEGMENT))
  }

  /** Slot `slot` of segment `i` sits at index `3 * i + slot` of the fan. */
  lemma CircleMeshAt(m: MathF, i: nat, slot: nat)
    requires i < SEGMENTS && slot < VERTICES_PER_SEGMENT
    ensures |CircleMesh(m)| == 96
    ensures CircleMesh(m)[3 * i + slot] == FanVertex(m, i, slot)
  {
    var k := 3 * i + slot;
    assert k / 3 == i && k % 3 == slot;
  }

  /**
   * `CreateCircle`: fills a fresh array of 32 * 3 vertices, carrying the
   * previous segment's angle from one iteration to the next.
   */
  method CreateCircle(m: MathF) returns (result: array<Vertex>)
    ensures fresh(result)
    ensures result[..] == CircleMesh(m)
  {
    result := new Vertex[SEGMENTS * VERTICES_PER_SEGMENT];
    var oldAngle := 0.0;
    for i := 0 to SEGMENTS
      invariant oldAngle == SegmentAngle(i)
      invariant forall k :: 0 <= k < VERTICES_PER_SEGMENT * i ==> result[k] == CircleMesh(m)[k]
    {
      var currentVertex := i * VERTICES_PER_SEGMENT;
      var newAngle := CIRCLE_RADIANS / (SEGMENTS as real) * ((i + 1) as real);
      result[currentVertex] := Vertex(ZERO, BLUE);
      currentVertex := currentVertex + 1;
      result[currentVertex] := Vertex(Vec2(m.cos(oldAngle), m.sin(oldAngle)).Times(SCALE), GREEN);
      currentVertex := currentVertex + 1;
      result[currentVertex] := Vertex(Vec2(m.cos(newAngle), m.sin(newAngle)).Times(SCALE), RED);
      oldAngle := newAngle;
      CircleMeshAt(m, i, 0);
      CircleMeshAt(m, i, 1);
      CircleMeshAt(m, i, 2);
    }
  }

  /**
   * The fan has 96 vertices; in segment `i` the first is the origin in Blue,
   * the second the rim in Green at the segment's first angle, the third the
   * rim in Red at angle `2 * PI / 32 * (i + 1)`.
   */
  lemma CircleMeshLayout(m: MathF, i: nat)
    requires i < SEGMENTS
    ensures |CircleMesh(m)| == SEGMENTS * VERTICES_PER_SEGMENT
    ensures CircleMesh(m)[3 * i] == Vertex(Vector(0.0, 0.0, 0.0), BLUE)
    ensures CircleMesh(m)[3 * i + 1].color == GREEN
    ensures CircleMesh(m)[3 * i + 1].position == RimPoint(m, CIRCLE_RADIANS / 32.0 * (i as real))
    ensures CircleMesh(m)[3 * i + 2].color == RED
    ensures CircleMesh(m)[3 * i + 2].position == RimPoint(m, CIRCLE_RADIANS / 32.0 * ((i + 1) as real))
  {
    CircleMeshAt(m, i, 0);
    CircleMeshAt(m, i, 1);
    CircleMeshAt(m, i, 2);
    assert SegmentAngle(i) == CIRCLE_RADIANS / 32.0 * (i as real);
    assert SegmentAngle(i + 1) == CIRCLE_RADIANS / 32.0 * ((i + 1) as real);
  }

  /**
   * Neighbouring segments share an edge: the Green vertex of segment `i + 1`
   * is where the Red vertex of segment `i` is.
   */
  lemma CircleMeshSeam(m: MathF, i: nat)
    requires i + 1 < SEGMENTS
    ensures CircleMesh(m)[3 * (i + 1) + 1].position == CircleMesh(m)[3 * i + 2].position
  {
    CircleMeshAt(m, i + 1, 1);
    CircleMeshAt(m, i, 2);
  }

  /**
   * The fan starts at angle 0 and its last rim vertex is at a full turn,
   * `2 * PI`.
   */
  lemma CircleMeshCloses(m: MathF)
    ensures CircleMesh(m)[1].position == RimPoint(m, 0.0)
    ensures CircleMesh(m)[95].position == RimPoint(m, CIRCLE_RADIANS)
  {
    CircleMeshAt(m, 0, 1);
    CircleMeshAt(m, 31, 2);
  }

  /**
   * The triangle mesh is Red, Green, Blue; its base vertices mirror each
   * other across the y axis, the apex is on that axis, and the base sits at
   * minus half the apex height, all in the plane z = 0.
   */
  lemma TriangleMeshShape(m: MathF)
    ensures |CreateTriangle(m)| == 3
    ensures CreateTriangle(m)[0].color == RED && CreateTriangle(m)[1].color == GREEN
    ensures CreateTriangle(m)[2].color == BLUE
    ensures CreateTriangle(m)[0].position.x == -CreateTriangle(m)[1].position.x == -SCALE
    ensures CreateTriangle(m)[0].position.y == CreateTriangle(m)[1].position.y
    ensures CreateTriangle(m)[2].position.x == 0.0
    ensures CreateTriangle(m)[0].position.y == -CreateTriangle(m)[2].position.y / 2.0
    ensures forall i :: 0 <= i < 3 ==> CreateTriangle(m)[i].position.z == 0.0
  {
  }

  /**
   * The rectangle mesh is two triangles, Red-Green-Blue and Green-Red-Blue,
   * that share their Green and Blue vertices (the diagonal) and between them
   * use the four corners of the square of half-side `SCALE`.
   */
  lemma RectangleMeshShape()
    ensures |CreateRectangle()| == 6
    ensures forall i :: 0 <= i < 6 ==>
      CreateRectangle()[i].color == [RED, GREEN, BLUE, GREEN, RED, BLUE][i]
    ensures CreateRectangle()[3] == CreateRectangle()[1]
    ensures CreateRectangle()[5] == CreateRectangle()[2]
    ensures (set i | 0 <= i < 6 :: CreateRectangle()[i].position)
         == {Vec2(-SCALE, -SCALE), Vec2(SCALE, -SCALE), Vec2(SCALE, SCALE), Vec2(-SCALE, SCALE)}
  {
    var r := CreateRectangle();
    assert r[0].position == Vec2(-SCALE, -SCALE);
    assert r[1].position == Vec2(SCALE, -SCALE);
    assert r[4].position == Vec2(SCALE, SCALE);
    assert r[2].position == Vec2(-SCALE, SCALE);
  }

  // ---------------------------------------------------------------------------
  // Whole-mesh rewrites
  // ---------------------------------------------------------------------------

  /** The mesh with every vertex's colour replaced by `c`. */
  function Recolored(vs: seq<Vertex>, c: Color): seq<Vertex> {
    seq(|vs|, i requires 0 <= i < |vs| => vs[i].(color := c))
  }

  /**
   * Recolouring paints every vertex `c` and keeps the length and every
   * position.
   */
  lemma RecoloredPaintsEveryVertex(vs: seq<Vertex>, c: Color)
    ensures |Recolored(vs, c)| == |vs|
    ensures forall i :: 0 <= i < |vs| ==>
      Recolored(vs, c)[i].color == c && Recolored(vs, c)[i].position == vs[i].position
  {
  }

  /** Only the last of two recolourings is visible, and recolouring is idempotent. */
  lemma RecolorLastWins(vs: seq<Vertex>, a: Color, b: Color)
    ensures Recolored(Recolored(vs, a), b) == Recolored(vs, b)
    ensures Recolored(Recolored(vs, b), b) == Recolored(vs, b)
  {
  }

  /** `360 / vertices.Length` in integer division: the angular step of a ring, in degrees. */
  function RingStep(n: nat): int
    requires n > 0
  {
    360 / n
  }

  /** The running `degrees` of a ring of `n` vertices at vertex `i`. */
  function RingDegrees(start: real, n: nat, i: nat): real
    requires n > 0
  {
    start + (i as real) * (RingStep(n) as real)
  }

  /** The vertex with its x and y replaced; z and colour are kept. */
  function PlaceXY(v: Vertex, x: real, y: real): Vertex {
    v.(position := v.position.(x := x, y := y))
  }

  /**
   * `SetVectorPositions(width, height, start)`: vertex `i` moved to
   * `(Cos(a) * width / 2, Sin(a) * height / 2)` at `a` = `RingDegrees(start, n, i)`.
   */
  function EllipseRing(vs: seq<Vertex>, width: real, height: real, start: real, m: MathF): seq<Vertex>
    requires |vs| > 0
  {
    seq(|vs|, i requires 0 <= i < |vs| => OnEllipse(vs[i], width, height, RingDegrees(start, |vs|, i), m))
  }

  /** The vertex moved to `(Cos(a) * width / 2, Sin(a) * height / 2)` at `degrees`. */
  function OnEllipse(v: Vertex, width: real, height: real, degrees: real, m: MathF): Vertex {
    PlaceXY(v, m.cos(Radians(degrees)) * width / 2.0, m.sin(Radians(degrees)) * height / 2.0)
  }

  /**
   * `SetVectorsCircle(radius)`: vertex `i` moved to
   * `(Cos(a) * radius, Sin(a) * radius)` at `a` = `RingDegrees(0, n, i)`.
   */
  function CircleRing(vs: seq<Vertex>, radius: real, m: MathF): seq<Vertex>
    requires |vs| > 0
  {
    seq(|vs|, i requires 0 <= i < |vs| => OnCircle(vs[i], radius, RingDegrees(0.0, |vs|, i), m))
  }

  /** The vertex moved to `(Cos(a) * radius, Sin(a) * radius)` at `degrees`. */
  function OnCircle(v: Vertex, radius: real, degrees: real, m: MathF): Vertex {
    PlaceXY(v, m.cos(Radians(degrees)) * radius, m.sin(Radians(degrees)) * radius)
  }

  /** Placing on an ellipse keeps the length, every colour and every z. */
  lemma EllipseRingKeepsColorAndDepth(vs: seq<Vertex>, width: real, height: real, start: real, m: MathF)
    requires |vs| > 0
    ensures |EllipseRing(vs, width, height, start, m)| == |vs|
    ensures forall i :: 0 <= i < |vs| ==>
      EllipseRing(vs, width, height, start, m)[i].color == vs[i].color &&
      EllipseRing(vs, width, height, start, m)[i].position.z == vs[i].position.z
  {
  }

  /**
   * The circle is the ellipse whose width and height are both the diameter,
   * started at 0 degrees.
   */
  lemma CircleRingIsEllipse(vs: seq<Vertex>, radius: real, m: MathF)
    requires |vs| > 0
    ensures CircleRing(vs, radius, m) == EllipseRing(vs, 2.0 * radius, 2.0 * radius, 0.0, m)
  {
  }

  /**
   * Integer division makes the ring fall short of a full turn by fewer than
   * `n` degrees, and close it exactly when `n` divides 360.
   */
  lemma RingStepShortfall(n: nat)
    requires n > 0
    ensures n * RingStep(n) <= 360 < n * RingStep(n) + n
    ensures (n * RingStep(n) == 360) <==> (360 % n == 0)
  {
  }

  /** Up to 360 vertices, the ring's angles strictly increase along the array. */
  lemma RingDegreesIncrease(start: real, n: nat, i: nat, j: nat)
    requires 0 < n <= 360 && i < j
    ensures RingDegrees(start, n, i) < RingDegrees(start, n, j)
  {
    assert RingStep(n) >= 1;
  }

  /**
   * With more than 360 vertices the step is 0 degrees, so every vertex of the
   * ellipse lands where the first one does.
   */
  lemma EllipseRingCollapses(vs: seq<Vertex>, width: real, height: real, start: real, m: MathF)
    requires |vs| > 360
    ensures forall i :: 0 <= i < |vs| ==>
      EllipseRing(vs, width, height, start, m)[i].position.x == EllipseRing(vs, width, height, start, m)[0].position.x &&
      EllipseRing(vs, width, height, start, m)[i].position.y == EllipseRing(vs, width, height, start, m)[0].position.y
  {
    assert RingStep(|vs|) == 0;
    forall i | 0 <= i < |vs|
      ensures RingDegrees(start, |vs|, i) == start
    {
    }
  }
}
