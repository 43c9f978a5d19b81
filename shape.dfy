/**
 * A renderable shape: a mutable vertex array in local space, the transform it
 * is drawn with, and a mass / inverse-mass pair. The four C# subclasses
 * (Triangle, Rectangle, Circle, Cone) become a `kind` tag and one factory
 * method per subclass constructor, each of which runs the base constructor
 * on the mesh the subclass passes to it and then the subclass body.
 */
module Shapes {
  import opened Geometry
  import opened Bounds
  import opened Meshes
  import opened Transforms

  /** A `float` that is finite or `+Infinity` (NaN and -Infinity are not modelled). */
  datatype ExtReal = Finite(value: real) | PosInf

  /**
   * The inverse mass the `Mass` setter stores: 0 for an infinite mass,
   * otherwise `1 / mass`, which for a zero mass is `+Infinity`.
   */
  function InverseOf(mass: ExtReal): ExtReal {
    match mass
    case PosInf => Finite(0.0)
    case Finite(m) => OneOver(m)
  }

  /** `1f / v`: `+Infinity` when `v` is 0. */
  function OneOver(v: real): ExtReal {
    if v == 0.0 then PosInf else Finite(1.0 / v)
  }

  /** The inverse mass is exactly 0 if and only if the mass is `+Infinity`. */
  lemma InverseIsZeroIffInfinite(mass: ExtReal)
    ensures InverseOf(mass) == Finite(0.0) <==> mass == PosInf
  {
  }

  /** For a finite non-zero mass the stored inverse times the mass is 1. */
  lemma InverseOfFiniteMass(m: real)
    requires m != 0.0
    ensures InverseOf(Finite(m)).Finite?
    ensures InverseOf(Finite(m)).value * m == 1.0
  {
  }

  /**
   * Over the reals, inverting twice gives the mass back (0 and `+Infinity`
   * swap). With `float` rounding, two masses can share one inverse.
   */
  lemma InverseIsInvolution(mass: ExtReal)
    ensures InverseOf(InverseOf(mass)) == mass
  {
  }

  /** Which C# subclass a shape was constructed as. */
  datatype Kind = TriangleShape | RectangleShape | CircleShape | ConeShape

  /** `Circle.Radius`, a constant property that the sized circle uses in place of its argument. */
  const CIRCLE_RADIUS: real := 0.1

  /** The points `apply(m, p)` of every vertex position `p`, in order. */
  function WorldPoints(m: Matrix, vs: seq<Vertex>, apply: (Matrix, Vector) -> Vector): seq<Vector> {
    seq(|vs|, i requires 0 <= i < |vs| => apply(m, vs[i].position))
  }

  class Shape {
    var vertices: array<Vertex>
    const transform: Transform
    const kind: Kind
    var mass: ExtReal
    var massInverse: ExtReal
    var gravityScale: real
    var velocity: Vector
    var linearForce: Vector

    /** The invariant the `Mass` setter keeps: the inverse is the inverse of the mass. */
    predicate MassConsistent()
      reads this
    {
      massInverse == InverseOf(mass)
    }

    /** The state the base constructor leaves every field but the mesh in. */
    predicate Initial()
      reads this, transform
    {
      mass == Finite(1.0) && massInverse == Finite(1.0) &&
      gravityScale == 1.0 && velocity == ZERO && linearForce == ZERO &&
      transform.position == ZERO && transform.rotation == ZERO &&
      transform.currentScale == Vector(1.0, 1.0, 1.0)
    }

    /** The `Mass` getter. */
    function Mass(): ExtReal
      reads this
    {
      mass
    }

    /** The `MassInverse` getter. */
    function MassInverse(): ExtReal
      reads this
    {
      massInverse
    }

    /** The world-space positions of the vertices under the current transform matrix. */
    function World(apply: (Matrix, Vector) -> Vector): seq<Vector>
      reads this, vertices, transform
    {
      WorldPoints(transform.Matrix(), vertices[..], apply)
    }

    /**
     * The base constructor: keeps the given array (not a copy), makes a new
     * transform, and starts with mass = inverse mass = 1 and gravity scale 1.
     */
    constructor (kind: Kind, vertices: array<Vertex>)
      ensures this.kind == kind && this.vertices == vertices
      ensures fresh(transform) && Initial() && MassConsistent()
    {
      this.kind := kind;
      this.vertices := vertices;
      mass := Finite(1.0);
      massInverse := Finite(1.0);
      gravityScale := 1.0;
      velocity := ZERO;
      linearForce := ZERO;
      transform := new Transform();
    }

    /** The `Mass` setter: stores the mass and its inverse together. */
    method SetMass(value: ExtReal)
      modifies this`mass, this`massInverse
      ensures mass == value && massInverse == InverseOf(value)
      ensures MassConsistent() && Mass() == value
    {
      mass := value;
      massInverse := if value.PosInf? then Finite(0.0) else OneOver(value.value);
    }

    /** Paints every vertex `color`, in place; positions and length are kept. */
    method SetColor(color: Color)
      modifies vertices
      ensures vertices[..] == Recolored(old(vertices[..]), color)
    {
      ghost var target := Recolored(vertices[..], color);
      for i := 0 to vertices.Length
        invariant forall k :: 0 <= k < i ==> vertices[k] == target[k]
        invariant forall k :: i <= k < vertices.Length ==> vertices[k] == old(vertices[k])
      {
        vertices[i] := vertices[i].(color := color);
      }
    }

    /**
     * The componentwise minimum of the transformed vertices, folded from
     * vertex 0 (which must exist) onward.
     */
    method GetMinBounds(apply: (Matrix, Vector) -> Vector) returns (min: Vector)
      requires vertices.Length > 0
      ensures min == MinOf(World(apply))
      ensures forall i :: 0 <= i < vertices.Length ==> Below(min, World(apply)[i])
      ensures Attained(min, World(apply))
    {
      ghost var ws := World(apply);
      min := apply(transform.Matrix(), vertices[0].position);
      var i := 1;
      while i < vertices.Length
        invariant 1 <= i <= vertices.Length
        invariant min == MinOf(ws[..i])
      {
        assert ws[..i + 1][..i] == ws[..i];
        min := Min(min, apply(transform.Matrix(), vertices[i].position));
        i := i + 1;
      }
      assert ws[..i] == ws;
      forall k | 0 <= k < vertices.Length
        ensures Below(min, ws[k])
      {
        MinOfIsLowerBound(ws, k);
      }
      MinOfIsAttained(ws);
    }

    /**
     * The componentwise maximum of the transformed vertices, folded from
     * vertex 0 (which must exist) onward.
     */
    method GetMaxBounds(apply: (Matrix, Vector) -> Vector) returns (max: Vector)
      requires vertices.Length > 0
      ensures max == MaxOf(World(apply))
      ensures forall i :: 0 <= i < vertices.Length ==> Below(World(apply)[i], max)
      ensures Attained(max, World(apply))
    {
      ghost var ws := World(apply);
      max := apply(transform.Matrix(), vertices[0].position);
      var i := 1;
      while i < vertices.Length
        invariant 1 <= i <= vertices.Length
        invariant max == MaxOf(ws[..i])
      {
        assert ws[..i + 1][..i] == ws[..i];
        max := Max(max, apply(transform.Matrix(), vertices[i].position));
        i := i + 1;
      }
      assert ws[..i] == ws;
      forall k | 0 <= k < vertices.Length
        ensures Below(ws[k], max)
      {
        MaxOfIsUpperBound(ws, k);
      }
      MaxOfIsAttained(ws);
    }

    /**
     * Builds a larger array of Blue vertices at the origin and discards it:
     * the shape's own array is neither replaced nor changed.
     */
    method AddVertices(numberToAdd: int)
      requires vertices.Length + numberToAdd >= 0
      ensures vertices == old(vertices) && vertices[..] == old(vertices[..])
    {
      var newVert := new Vertex[vertices.Length + numberToAdd];
      for i := 0 to vertices.Length + numberToAdd
        invariant forall k :: 0 <= k < i ==> newVert[k] == Vertex(Vec2(0.0, 0.0), BLUE)
      {
        newVert[i] := Vertex(Vec2(0.0, 0.0), BLUE);
      }
    }

    /**
     * Places vertex `i` on the ellipse of the given width and height at
     * `startDegree + i * (360 / Length)` degrees, the step in integer division.
     */
    method SetVectorPositions(width: real, height: real, startDegree: real, m: MathF)
      requires vertices.Length > 0
      modifies vertices
      ensures vertices[..] == EllipseRing(old(vertices[..]), width, height, startDegree, m)
    {
      var n := vertices.Length;
      var degreeIncrement := (360 / n) as real;
      var degrees := startDegree;
      ghost var target := EllipseRing(vertices[..], width, height, startDegree, m);
      for i := 0 to n
        invariant degrees == RingDegrees(startDegree, n, i)
        invariant forall k :: 0 <= k < i ==> vertices[k] == target[k]
        invariant forall k :: i <= k < n ==> vertices[k] == old(vertices[k])
      {
        var cos := m.cos((PI / 180.0) * degrees);
        var sin := m.sin((PI / 180.0) * degrees);
        vertices[i] := vertices[i].(position := vertices[i].position.(x := cos * width / 2.0));
        vertices[i] := vertices[i].(position := vertices[i].position.(y := sin * height / 2.0));
        degrees := degrees + degreeIncrement;
      }
    }

    /**
     * Places vertex `i` on the circle of the given radius at
     * `i * (360 / Length)` degrees, the step in integer division.
     */
    method SetVectorsCircle(radius: real, m: MathF)
      requires vertices.Length > 0
      modifies vertices
      ensures vertices[..] == CircleRing(old(vertices[..]), radius, m)
    {
      var n := vertices.Length;
      var degreeIncrement := (360 / n) as real;
      var degrees := 0.0;
      ghost var target := CircleRing(vertices[..], radius, m);
      for i := 0 to n
        invariant degrees == RingDegrees(0.0, n, i)
        invariant forall k :: 0 <= k < i ==> vertices[k] == target[k]
        invariant forall k :: i <= k < n ==> vertices[k] == old(vertices[k])
      {
        var cos := m.cos((PI / 180.0) * degrees);
        var sin := m.sin((PI / 180.0) * degrees);
        vertices[i] := vertices[i].(position := vertices[i].position.(x := cos * radius));
        vertices[i] := vertices[i].(position := vertices[i].position.(y := sin * radius));
        degrees := degrees + degreeIncrement;
      }
    }

    /**
     * `(GetMinBounds() + GetMaxBounds()) / 2`: componentwise between the two
     * bounds, and the transformed vertex itself for a one-vertex mesh.
     */
    method GetCenter(apply: (Matrix, Vector) -> Vector) returns (center: Vector)
      requires vertices.Length > 0
      ensures center == Midpoint(MinOf(World(apply)), MaxOf(World(apply)))
      ensures Below(MinOf(World(apply)), center) && Below(center, MaxOf(World(apply)))
      ensures vertices.Length == 1 ==> center == apply(transform.Matrix(), vertices[0].position)
    {
      var min := GetMinBounds(apply);
      var max := GetMaxBounds(apply);
      center := min.Add(max).Over(2.0);
      CenterIsWithinBounds(World(apply));
      if vertices.Length == 1 {
        assert World(apply) == [apply(transform.Matrix(), vertices[0].position)];
        SinglePointBounds(apply(transform.Matrix(), vertices[0].position));
      }
    }

    /** `Shape.Rotate` has an empty body: nothing changes. */
    method Rotate(rotation: real)
      ensures unchanged(this) && unchanged(transform) && unchanged(vertices)
    {
    }
  }

  /** A fresh array holding `s`. */
  method ToArray(s: seq<Vertex>) returns (a: array<Vertex>)
    ensures fresh(a) && a[..] == s
  {
    a := new Vertex[|s|](i requires 0 <= i < |s| => s[i]);
  }

  /** `new Triangle(material)`: the `CreateTriangle` mesh. */
  method NewTriangle(m: MathF) returns (s: Shape)
    ensures fresh(s) && fresh(s.vertices) && fresh(s.transform)
    ensures s.kind == TriangleShape && s.Initial() && s.MassConsistent()
    ensures s.vertices[..] == CreateTriangle(m)
  {
    var mesh := ToArray(CreateTriangle(m));
    s := new Shape(TriangleShape, mesh);
  }

  /** `new Triangle(vertices, material)`: the argument is ignored for a fixed triangle. */
  method NewTriangleFrom(vertices: array<Vertex>) returns (s: Shape)
    ensures fresh(s) && fresh(s.vertices) && fresh(s.transform)
    ensures s.kind == TriangleShape && s.Initial() && s.MassConsistent()
    ensures s.vertices != vertices && s.vertices[..] == UnitTriangle()
  {
    var mesh := ToArray(UnitTriangle());
    s := new Shape(TriangleShape, mesh);
  }

  /**
   * `new Triangle(width, height, position, material)`: the fixed triangle
   * placed on the width-by-height ellipse from 90 degrees; `position` does not
   * move the shape.
   */
  method NewSizedTriangle(width: real, height: real, position: Vector, m: MathF) returns (s: Shape)
    ensures fresh(s) && fresh(s.vertices) && fresh(s.transform)
    ensures s.kind == TriangleShape && s.Initial() && s.MassConsistent()
    ensures s.vertices[..] == EllipseRing(UnitTriangle(), width, height, 90.0, m)
  {
    var mesh := ToArray(UnitTriangle());
    s := new Shape(TriangleShape, mesh);
    s.SetVectorPositions(width, height, 90.0, m);
  }

  /** `new Rectangle(material)`: the `CreateRectangle` mesh. */
  method NewRectangle() returns (s: Shape)
    ensures fresh(s) && fresh(s.vertices) && fresh(s.transform)
    ensures s.kind == RectangleShape && s.Initial() && s.MassConsistent()
    ensures s.vertices[..] == CreateRectangle()
  {
    var mesh := ToArray(CreateRectangle());
    s := new Shape(RectangleShape, mesh);
  }

  /**
   * `new Rectangle(width, height, position, material)`: the four-vertex quad
   * placed on the width-by-height ellipse from 45 degrees; `position` does not
   * move the shape.
   */
  method NewSizedRectangle(width: real, height: real, position: Vector, m: MathF) returns (s: Shape)
    ensures fresh(s) && fresh(s.vertices) && fresh(s.transform)
    ensures s.kind == RectangleShape && s.Initial() && s.MassConsistent()
    ensures s.vertices[..] == EllipseRing(UnitQuad(), width, height, 45.0, m)
  {
    var mesh := ToArray(UnitQuad());
    s := new Shape(RectangleShape, mesh);
    s.SetVectorPositions(width, height, 45.0, m);
  }

  /** `new Circle(material)`: the 96-vertex `CreateCircle` fan. */
  method NewCircle(m: MathF) returns (s: Shape)
    ensures fresh(s) && fresh(s.vertices) && fresh(s.transform)
    ensures s.kind == CircleShape && s.Initial() && s.MassConsistent()
    ensures s.vertices[..] == CircleMesh(m)
  {
    var mesh := CreateCircle(m);
    s := new Shape(CircleShape, mesh);
  }

  /**
   * `new Circle(radius, position, material)`: `radius` is ignored for
   * `CIRCLE_RADIUS`, `AddVertices(16)` changes nothing, and the single Red
   * vertex is placed at angle 0 on the circle of that radius.
   */
  method NewSizedCircle(radius: real, position: Vector, m: MathF) returns (s: Shape)
    ensures fresh(s) && fresh(s.vertices) && fresh(s.transform)
    ensures s.kind == CircleShape && s.Initial() && s.MassConsistent()
    ensures s.vertices[..] == CircleRing(UnitDot(), CIRCLE_RADIUS, m)
    ensures s.vertices.Length == 1
    ensures s.vertices[0] == Vertex(Vector(m.cos(0.0) * CIRCLE_RADIUS, m.sin(0.0) * CIRCLE_RADIUS, 0.0), RED)
  {
    var mesh := ToArray(UnitDot());
    s := new Shape(CircleShape, mesh);
    s.AddVertices(16);
    s.SetVectorsCircle(CIRCLE_RADIUS, m);
    assert Radians(RingDegrees(0.0, 1, 0)) == 0.0;
  }

  /** `new Cone(radius, angle, position, material)`: the fixed triangle; the arguments shape nothing. */
  method NewCone(radius: real, angle: real, position: Vector) returns (s: Shape)
    ensures fresh(s) && fresh(s.vertices) && fresh(s.transform)
    ensures s.kind == ConeShape && s.Initial() && s.MassConsistent()
    ensures s.vertices[..] == UnitTriangle()
  {
    var mesh := ToArray(UnitTriangle());
    s := new Shape(ConeShape, mesh);
  }

  /**
   * The sized triangle's vertices sit at 90, 210 and 330 degrees and the
   * sized rectangle's at 45, 135, 225 and 315.
   */
  lemma SizedShapeAngles()
    ensures forall i :: 0 <= i < 3 ==> RingDegrees(90.0, 3, i) == [90.0, 210.0, 330.0][i]
    ensures forall i :: 0 <= i < 4 ==> RingDegrees(45.0, 4, i) == [45.0, 135.0, 225.0, 315.0][i]
  {
  }
}
