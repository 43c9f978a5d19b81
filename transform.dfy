/**
 * A shape's transform: a mutable record of position, rotation (only the z
 * component is ever changed) and scale, and the world matrix derived from
 * them on every read.
 */
module Transforms {
  import opened Geometry

  class Transform {
    var currentScale: Vector
    var position: Vector
    var rotation: Vector

    /**
     * The world matrix, rebuilt from the current fields on every read:
     * `Translation(position) * Rotation(rotation) * Scale(currentScale)`.
     */
    function Matrix(): Geometry.Matrix
      reads this
    {
      Product(Product(Translation(position), Rotation(rotation)), Scaling(currentScale))
    }

    /** A new transform has unit scale and (struct-default) zero position and rotation. */
    constructor ()
      ensures currentScale == Vector(1.0, 1.0, 1.0)
      ensures position == ZERO && rotation == ZERO
    {
      currentScale := Vector(1.0, 1.0, 1.0);
      position := ZERO;
      rotation := ZERO;
    }

    /** `CurrentScale *= multiplier`; position and rotation are left alone. */
    method Scale(multiplier: real)
      modifies this
      ensures currentScale == old(currentScale).Times(multiplier)
      ensures position == old(position) && rotation == old(rotation)
    {
      currentScale := currentScale.Times(multiplier);
    }

    /** `Position += direction`, unclamped; rotation and scale are left alone. */
    method Move(direction: Vector)
      modifies this
      ensures position == old(position).Add(direction)
      ensures rotation == old(rotation) && currentScale == old(currentScale)
    {
      position := position.Add(direction);
    }

    /**
     * `Rotation.z += rotation` through a copy of the rotation vector, with no
     * wrap-around; x, y, position and scale are left alone.
     */
    method Rotate(angle: real)
      modifies this
      ensures rotation == old(rotation).(z := old(rotation).z + angle)
      ensures position == old(position) && currentScale == old(currentScale)
    {
      var rotationT := rotation;
      rotationT := rotationT.(z := rotationT.z + angle);
      rotation := rotationT;
    }
  }

  /** Two moves in a row are one move by the sum of the two directions. */
  method MoveTwice(t: Transform, a: Vector, b: Vector)
    modifies t
    ensures t.position == old(t.position).Add(a.Add(b))
    ensures t.rotation == old(t.rotation) && t.currentScale == old(t.currentScale)
  {
    t.Move(a);
    t.Move(b);
  }

  /** Two scalings in a row are one scaling by the product of the two factors. */
  method ScaleTwice(t: Transform, a: real, b: real)
    modifies t
    ensures t.currentScale == old(t.currentScale).Times(a * b)
    ensures t.position == old(t.position) && t.rotation == old(t.rotation)
  {
    t.Scale(a);
    t.Scale(b);
  }

  /** Two rotations in a row are one rotation by the sum of the two angles. */
  method RotateTwice(t: Transform, a: real, b: real)
    modifies t
    ensures t.rotation == old(t.rotation).(z := old(t.rotation).z + (a + b))
    ensures t.position == old(t.position) && t.currentScale == old(t.currentScale)
  {
    t.Rotate(a);
    t.Rotate(b);
  }

  /**
   * The derived matrix reflects the fields as they are now, with nothing
   * cached; and whenever applying a product means applying its right factor
   * first, it scales a point first, then rotates it, then translates it.
   */
  lemma MatrixReadsCurrentFields(t: Transform, apply: (Geometry.Matrix, Vector) -> Vector, v: Vector)
    requires forall a, b, u :: apply(Product(a, b), u) == apply(a, apply(b, u))
    ensures apply(t.Matrix(), v)
         == apply(Translation(t.position), apply(Rotation(t.rotation), apply(Scaling(t.currentScale), v)))
  {
  }
}
