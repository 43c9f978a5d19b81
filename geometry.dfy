/**
 * Value types the engine's shapes are built from: 3-component vectors, RGBA
 * colours, vertices, and the 4x4 transform matrix, kept as the symbolic term
 * the engine builds (its numeric evaluation is supplied by the caller).
 *
 * Vector.cs, Color.cs, Vertex.cs and Matrix.cs are not part of this model; the
 * vector operations below are the componentwise ones the engine relies on.
 * `real` stands in for C#'s `float`.
 */
module Geometry {

  /** A 3-component vector; `Vec2(x, y)` is the two-argument constructor (z = 0). */
  datatype Vector = Vector(x: real, y: real, z: real) {

    /** Componentwise sum (`a + b`). */
    function Add(b: Vector): Vector {
      Vector(x + b.x, y + b.y, z + b.z)
    }

    /** Every component multiplied by a scalar (`v * k`). */
    function Times(k: real): Vector {
      Vector(x * k, y * k, z * k)
    }

    /** Every component divided by a non-zero scalar (`v / k`). */
    function Over(k: real): Vector
      requires k != 0.0
    {
      Vector(x / k, y / k, z / k)
    }
  }

  const ZERO: Vector := Vector(0.0, 0.0, 0.0)

  /** `new Vector(x, y)`: a point in the plane z = 0. */
  function Vec2(x: real, y: real): Vector {
    Vector(x, y, 0.0)
  }

  function MinReal(a: real, b: real): real {
    if a <= b then a else b
  }

  function MaxReal(a: real, b: real): real {
    if a >= b then a else b
  }

  /** `Vector.Min`: the componentwise minimum. */
  function Min(a: Vector, b: Vector): Vector {
    Vector(MinReal(a.x, b.x), MinReal(a.y, b.y), MinReal(a.z, b.z))
  }

  /** `Vector.Max`: the componentwise maximum. */
  function Max(a: Vector, b: Vector): Vector {
    Vector(MaxReal(a.x, b.x), MaxReal(a.y, b.y), MaxReal(a.z, b.z))
  }

  /** `a` lies componentwise at or below `b`. */
  predicate Below(a: Vector, b: Vector) {
    a.x <= b.x && a.y <= b.y && a.z <= b.z
  }

  /** An RGBA colour. */
  datatype Color = Color(r: real, g: real, b: real, a: real)

  const RED: Color := Color(1.0, 0.0, 0.0, 1.0)
  const GREEN: Color := Color(0.0, 1.0, 0.0, 1.0)
  const BLUE: Color := Color(0.0, 0.0, 1.0, 1.0)

  /** One mesh vertex: a local-space position and a colour. */
  datatype Vertex = Vertex(position: Vector, color: Color)

  /**
   * The transform matrix as the term it is built from: `Matrix.Translation`,
   * `Matrix.Rotation`, `Matrix.Scale` and the product `*`.
   */
  datatype Matrix =
    | Translation(offset: Vector)
    | Rotation(angles: Vector)
    | Scaling(factors: Vector)
    | Product(left: Matrix, right: Matrix)

  /**
   * The float maths the engine calls (`MathF.Cos`, `MathF.Sin`, `MathF.Sqrt`),
   * left uninterpreted: every operation that needs them takes them as an argument.
   */
  datatype MathF = MathF(cos: real -> real, sin: real -> real, sqrt: real -> real)

  /** `MathF.PI`, taken at its decimal value. */
  const PI: real := 3.14159265

  /** `(MathF.PI / 180) * degrees`: the engine's degree-to-radian conversion. */
  function Radians(degrees: real): real {
    (PI / 180.0) * degrees
  }
}
