# SharpEngine shapes and transforms, in Dafny

This project models the geometric core of SharpEngine, a small 2D OpenGL
engine written in C#: the per-shape vertex mesh and the transform it is drawn
with.

- **Shape** (`Shapes.Shape`) owns a mutable vertex array, a transform of its
  own, and a mass / inverse-mass pair. Its in-place operations are modelled as
  methods over the `array<Vertex>`, each proved against a function on
  sequences:
  - `SetColor` against `Recolored`;
  - `SetVectorPositions` against `EllipseRing`;
  - `SetVectorsCircle` against `CircleRing`.

  The bounds queries fold `Vector.Min` / `Vector.Max` over the transformed
  vertices. They are proved to give the componentwise infimum / supremum,
  with every component attained. `GetCenter` lies between the two bounds.
- **The subclasses** Triangle, Rectangle, Circle and Cone become a `Kind` tag.
  Each C# subclass constructor becomes a factory method. The factory runs the
  base constructor on the mesh the subclass hands it, then the subclass body.
  The model keeps the source's surprises:
  - `new Triangle(vertices, material)` ignores `vertices`.
  - The sized triangle, rectangle and circle ignore `position`; the `Move`
    calls are commented out.
  - The sized rectangle has 4 vertices, so as a triangle list it draws one
    triangle.
  - The sized circle ignores `radius` and uses the constant `Radius` (0.1).
    `AddVertices(16)` builds a larger array and throws it away, so the circle
    ends with a single Red vertex at angle 0.
  - `Shape.Rotate` does nothing.
- **The procedural meshes** are sequence-valued functions: `CreateTriangle`
  (3 vertices), `CreateRectangle` (6) and `CircleMesh` (32 segments of 3). The
  imperative `CreateCircle`, which carries `oldAngle` across its loop, is proved
  to fill its array with `CircleMesh`.
- **Transform** (`Transforms.Transform`) is a class with mutable `position`,
  `rotation` and `currentScale`. `Move`, `Scale` and `Rotate` each change one
  field. `Matrix()` is recomputed from the fields on every read, as
  `Translation * Rotation * Scale`.

Abstractions:
- `real` stands in for `float`, and float literals are taken at their decimal
  values (`0.1`, `MathF.PI` as `3.14159265`).
- `MathF.Cos`, `MathF.Sin` and `MathF.Sqrt` are not interpreted. Every operation
  that calls them takes a `MathF` record of the three functions as an argument.
- Matrix.cs is not part of this model. A matrix is kept as the term it is built
  from (`Translation`, `Rotation`, `Scaling`, `Product`). Matrix-times-vector
  is an argument `apply: (Matrix, Vector) -> Vector` to the bounds queries.
- Vector.cs and Color.cs are not part of this model. `+`, `*` by a scalar,
  `/` by a scalar, `Vector.Min` and `Vector.Max` are assumed componentwise.
  `new Vector(x, y)` is assumed to set z = 0. The colour values of Red, Green
  and Blue are assumed; only the fact that they differ matters.
- `360 / vertices.Length` is C# integer division. The length is positive, so it
  agrees with Dafny's `/`.

## Model

| member | source | states |
|---|---|---|
| `Shapes.Shape.constructor` | Shape.cs:15-39 | The base constructor keeps the given array, makes a new transform, and starts with mass = inverse mass = 1 (consistent), gravity scale 1, and zero velocity and force |
| `Shapes.Shape.Mass` | Shape.cs:19 | The `Mass` getter: the stored mass, as last set (1 initially) |
| `Shapes.Shape.MassInverse` | Shape.cs:26 | The `MassInverse` getter: the stored inverse mass, which nothing but the `Mass` setter writes |
| `Shapes.InverseOf` | Shape.cs:22 | The inverse the setter stores: 0 for +infinity, otherwise `1 / m`, which is +infinity for m = 0 |
| `Shapes.Shape.SetMass` | Shape.cs:18-24 | The `Mass` setter stores the mass and the matching inverse together: 0 for +infinity, otherwise 1/m. The mass then reads back as the value set |
| `Shapes.InverseIsZeroIffInfinite` | Shape.cs:22 | The stored inverse mass is exactly 0 if and only if the mass is +infinity |
| `Shapes.InverseOfFiniteMass` | Shape.cs:22 | For a finite non-zero mass m the inverse is finite and inverse * m = 1 |
| `Shapes.InverseIsInvolution` | Shape.cs:18-26 | In the real-number model, inverting the inverse gives the mass back (0 and +infinity swap). With `float` rounding, two masses can share one inverse |
| `Shapes.Shape.SetColor` | Shape.cs:41-47 | The array after the loop is the old array recoloured with the given colour |
| `Meshes.RecoloredPaintsEveryVertex` | Shape.cs:41-47 | After recolouring, every vertex has the new colour, and the length and every position are unchanged |
| `Meshes.RecolorLastWins` | Shape.cs:41-47 | Of two recolourings only the second is visible, and recolouring twice with one colour is the same as once |
| `Shapes.Shape.GetMinBounds` | Shape.cs:63-71 | On a non-empty mesh the result is the fold of `Vector.Min` over the transformed vertices. It is componentwise at or below every transformed vertex, and each component is that component of some transformed vertex |
| `Shapes.Shape.GetMaxBounds` | Shape.cs:73-82 | On a non-empty mesh the result is the fold of `Vector.Max`. It is componentwise at or above every transformed vertex, and each component is attained |
| `Bounds.MinOfIsLowerBound` | Shape.cs:63-71 | The folded minimum is componentwise at or below every point |
| `Bounds.MinOfIsAttained` | Shape.cs:63-71 | Each component of the folded minimum equals that component of some point |
| `Bounds.MinOfIsGreatest` | Shape.cs:63-71 | Any vector below every point is below the folded minimum, so it is the greatest lower bound |
| `Bounds.MaxOfIsUpperBound` | Shape.cs:73-82 | The folded maximum is componentwise at or above every point |
| `Bounds.MaxOfIsAttained` | Shape.cs:73-82 | Each component of the folded maximum equals that component of some point |
| `Bounds.MaxOfIsLeast` | Shape.cs:73-82 | Any vector above every point is above the folded maximum, so it is the least upper bound |
| `Shapes.Shape.GetCenter` | Shape.cs:128-131 | The centre is the midpoint of the two bounds and lies componentwise between them. For a one-vertex mesh it is that vertex's transformed position |
| `Bounds.CenterIsWithinBounds` | Shape.cs:128-131 | min <= max, and min <= (min + max) / 2 <= max, componentwise |
| `Bounds.SinglePointBounds` | Shape.cs:128-131 | For one point, min = max = centre = that point |
| `Shapes.Shape.AddVertices` | Shape.cs:84-92 | The shape's array is neither replaced nor changed: the enlarged array is local and discarded |
| `Shapes.Shape.SetVectorPositions` | Shape.cs:94-109 | On a non-empty mesh, vertex i ends at (cos(a)*W/2, sin(a)*H/2), with a = start + i*(360 / Length) degrees in integer division. Its z, its colour and the length are kept |
| `Shapes.Shape.SetVectorsCircle` | Shape.cs:111-126 | On a non-empty mesh, vertex i ends at (cos(a)*r, sin(a)*r), with a = i*(360 / Length) degrees. Its z, its colour and the length are kept |
| `Meshes.EllipseRingKeepsColorAndDepth` | Shape.cs:94-109 | Placing on the ellipse keeps the array length, every colour and every z |
| `Meshes.CircleRingIsEllipse` | Shape.cs:94-126 | `SetVectorsCircle(r)` places the vertices where `SetVectorPositions(2r, 2r, 0)` does |
| `Meshes.RingStepShortfall` | Shape.cs:96 | With the step in integer division, the ring falls short of 360 degrees by fewer than Length degrees. It closes exactly when Length divides 360 |
| `Meshes.RingDegreesIncrease` | Shape.cs:96-107 | Up to 360 vertices, the angles strictly increase along the array |
| `Meshes.EllipseRingCollapses` | Shape.cs:96-107 | With more than 360 vertices the step is 0, and every vertex lands where vertex 0 does |
| `Shapes.Shape.Rotate` | Shape.cs:148-151 | Nothing in the shape, its transform or its vertices changes |
| `Meshes.CreateTriangle` | Shape.cs:165-173 | The triangle builder's mesh: (-0.1, -h/2) Red, (0.1, -h/2) Green, (0, h) Blue, with h = Sqrt(0.75) * 0.1 |
| `Meshes.TriangleMeshShape` | Shape.cs:165-173 | Three vertices coloured Red, Green, Blue. The base vertices mirror each other across the y axis at x = -0.1 and 0.1, the apex is on that axis, and the base is at minus half the apex height. Every z is 0 |
| `Meshes.CreateRectangle` | Shape.cs:207-217 | The rectangle builder's mesh: the triangles (-0.1,-0.1) Red, (0.1,-0.1) Green, (-0.1,0.1) Blue and (0.1,-0.1) Green, (0.1,0.1) Red, (-0.1,0.1) Blue |
| `Meshes.RectangleMeshShape` | Shape.cs:207-217 | Six vertices coloured Red, Green, Blue, Green, Red, Blue. The two triangles share their Green and Blue vertices, and together they use exactly the four corners (+-0.1, +-0.1) |
| `Meshes.CreateCircle` | Shape.cs:245-266 | The loop that carries `oldAngle` fills a fresh array with exactly the 96-vertex fan |
| `Meshes.CircleMeshLayout` | Shape.cs:245-266 | 96 vertices. In segment i, vertex 3i is the origin in Blue, 3i+1 is Green on the rim at 2pi/32*i, and 3i+2 is Red on the rim at 2pi/32*(i+1) |
| `Meshes.CircleMeshSeam` | Shape.cs:252-262 | The Green vertex of segment i+1 is at the position of the Red vertex of segment i |
| `Meshes.CircleMeshCloses` | Shape.cs:251-262 | The fan's first rim vertex is at angle 0 and its last is at 2pi |
| `Shapes.NewTriangle` | Shape.cs:162-173 | A new Triangle has the `CreateTriangle` mesh and the base constructor's initial state |
| `Shapes.NewTriangleFrom` | Shape.cs:175-181 | The argument array is ignored. The shape gets a fresh copy of the fixed triangle (-0.5,-0.5) Red, (0.5,-0.5) Green, (0,0.5) Blue |
| `Shapes.NewSizedTriangle` | Shape.cs:183-193 | The fixed triangle is placed on the W-by-H ellipse starting at 90 degrees. `position` does not move the transform |
| `Shapes.NewRectangle` | Shape.cs:204-217 | A new Rectangle has the `CreateRectangle` mesh |
| `Shapes.NewSizedRectangle` | Shape.cs:220-232 | The fixed four-vertex quad is placed on the W-by-H ellipse starting at 45 degrees. `position` does not move the transform |
| `Shapes.SizedShapeAngles` | Shape.cs:183-232 | The sized triangle's vertices are at 90, 210 and 330 degrees; the sized rectangle's are at 45, 135, 225 and 315 |
| `Shapes.NewCircle` | Shape.cs:241-266 | A new Circle has the 96-vertex fan |
| `Shapes.NewSizedCircle` | Shape.cs:238-278 | `radius` is ignored. The shape ends with exactly one vertex, still Red, at (cos 0 * 0.1, sin 0 * 0.1, 0) |
| `Shapes.NewCone` | Shape.cs:289-297 | A Cone has the fixed triangle. Radius, angle and position shape nothing |
| `Transforms.Transform.constructor` | Transform.cs:11-14 | A new transform has scale (1,1,1), and zero position and rotation |
| `Transforms.Transform.Scale` | Transform.cs:16-19 | Every component of the scale is multiplied by k. Position and rotation are unchanged |
| `Transforms.Transform.Move` | Transform.cs:21-24 | Position becomes position + d. Rotation and scale are unchanged |
| `Transforms.Transform.Rotate` | Transform.cs:26-31 | Only rotation.z changes, by +r, with no wrap-around. x, y, position and scale are unchanged |
| `Transforms.MoveTwice` | Transform.cs:21-24 | `Move(a); Move(b)` leaves the transform as `Move(a + b)` would |
| `Transforms.ScaleTwice` | Transform.cs:16-19 | `Scale(a); Scale(b)` leaves the transform as `Scale(a * b)` would |
| `Transforms.RotateTwice` | Transform.cs:26-31 | `Rotate(a); Rotate(b)` leaves the transform as `Rotate(a + b)` would |
| `Transforms.Transform.Matrix` | Transform.cs:9 | The world matrix, rebuilt from the current fields on each read as the term `(Translation(position) * Rotation(rotation)) * Scale(currentScale)` |
| `Transforms.MatrixReadsCurrentFields` | Transform.cs:9 | The matrix is built from the current fields. When applying a product applies its right factor first, it scales a point, then rotates it, then translates it |

## Left out

- `LoadShapeIntoBuffer` and `Render`: OpenGL buffer creation and upload, and the
  draw call, are GPU I/O through foreign calls.
- The `material` reference and the subclasses' stored `Width`, `Height`,
  `Position`, `Radius` and `Angle` fields: they are never used for geometry.
  `Width` and `Height` are passed straight to `SetVectorPositions`.
- `velocity`, `linearForce` and `gravityScale` are modelled as fields only.
  Nothing in Shape.cs or Transform.cs updates them. The physics integrator and
  the scene are not part of this model.
- Program.cs: the window, the fixed-step loop driven by the clock, key polling,
  random numbers, and the `Lerp` / `Acos` demo logic.
- IEEE float behaviour: rounding, NaN, -Infinity and signed zero. The model does
  not prove that rim vertices lie at the radius, because the trigonometric
  functions are not interpreted.
- Shapes.Shape.GetMinBounds: requires a non-empty array. On an empty array the source reads index 0 and throws; that exception is not modelled.
- Shapes.Shape.GetMaxBounds: requires a non-empty array, for the same reason as `GetMinBounds`.
- Shapes.Shape.GetCenter: requires a non-empty array, because it calls both bounds queries.
- Shapes.Shape.SetVectorPositions: requires a non-empty array. On an empty array `360 / vertices.Length` divides by zero and throws; that exception is not modelled.
- Shapes.Shape.SetVectorsCircle: requires a non-empty array, for the same reason as `SetVectorPositions`.
- Shapes.Shape.AddVertices: requires that `vertices.Length + numberToAdd` is not negative. The source throws on a negative array size, and 32-bit overflow of the sum is not modelled.
- Transforms.Transform.Matrix: the numeric matrix entries and `Matrix * Vector` are not modelled; matrices stay symbolic terms.
