/**
 * Axis-aligned bounds of a non-empty list of world-space points, folded from
 * the first point onward exactly as `Shape.GetMinBounds` and `GetMaxBounds`
 * fold them, and the centre `GetCenter` takes between them.
 */
module Bounds {
  import opened Geometry

  /** The running `Vector.Min` over `ps`, starting from `ps[0]`. */
  function MinOf(ps: seq<Vector>): Vector
    requires |ps| > 0
    decreases |ps|
  {
    if |ps| == 1 then ps[0] else Min(MinOf(ps[..|ps| - 1]), ps[|ps| - 1])
  }

  /** The running `Vector.Max` over `ps`, starting from `ps[0]`. */
  function MaxOf(ps: seq<Vector>): Vector
    requires |ps| > 0
    decreases |ps|
  {
    if |ps| == 1 then ps[0] else Max(MaxOf(ps[..|ps| - 1]), ps[|ps| - 1])
  }

  /** `(min + max) / 2`. */
  function Midpoint(lo: Vector, hi: Vector): Vector {
    lo.Add(hi).Over(2.0)
  }

  /** Every component of `v` is the same component of some point of `ps`. */
  predicate Attained(v: Vector, ps: seq<Vector>) {
    (exists i :: 0 <= i < |ps| && v.x == ps[i].x) &&
    (exists i :: 0 <= i < |ps| && v.y == ps[i].y) &&
    (exists i :: 0 <= i < |ps| && v.z == ps[i].z)
  }

  /** The running minimum lies componentwise at or below every point. */
  lemma {:induction false} MinOfIsLowerBound(ps: seq<Vector>, i: int)
    requires 0 <= i < |ps|
    ensures Below(MinOf(ps), ps[i])
  {
    if |ps| > 1 && i < |ps| - 1 {
      MinOfIsLowerBound(ps[..|ps| - 1], i);
    }
  }

  /** The running maximum lies componentwise at or above every point. */
  lemma {:induction false} MaxOfIsUpperBound(ps: seq<Vector>, i: int)
    requires 0 <= i < |ps|
    ensures Below(ps[i], MaxOf(ps))
  {
    if |ps| > 1 && i < |ps| - 1 {
      MaxOfIsUpperBound(ps[..|ps| - 1], i);
    }
  }

  /** Each component of the running minimum is that component of some point. */
  lemma {:induction false} MinOfIsAttained(ps: seq<Vector>)
    requires |ps| > 0
    ensures Attained(MinOf(ps), ps)
  {
    if |ps| > 1 {
      var init := ps[..|ps| - 1];
      MinOfIsAttained(init);
      forall i | 0 <= i < |init|
        ensures init[i] == ps[i]
      {
      }
    }
  }

  /** Each component of the running maximum is that component of some point. */
  lemma {:induction false} MaxOfIsAttained(ps: seq<Vector>)
    requires |ps| > 0
    ensures Attained(MaxOf(ps), ps)
  {
    if |ps| > 1 {
      var init := ps[..|ps| - 1];
      MaxOfIsAttained(init);
      forall i | 0 <= i < |init|
        ensures init[i] == ps[i]
      {
      }
    }
  }

  /**
   * The running minimum is the greatest componentwise lower bound: any vector
   * below every point is below it as well.
   */
  lemma MinOfIsGreatest(ps: seq<Vector>, b: Vector)
    requires |ps| > 0
    requires forall i :: 0 <= i < |ps| ==> Below(b, ps[i])
    ensures Below(b, MinOf(ps))
  {
    MinOfIsAttained(ps);
  }

  /**
   * The running maximum is the least componentwise upper bound: any vector
   * above every point is above it as well.
   */
  lemma MaxOfIsLeast(ps: seq<Vector>, b: Vector)
    requires |ps| > 0
    requires forall i :: 0 <= i < |ps| ==> Below(ps[i], b)
    ensures Below(MaxOf(ps), b)
  {
    MaxOfIsAttained(ps);
  }

  /** The centre lies componentwise between the minimum and maximum bounds. */
  lemma CenterIsWithinBounds(ps: seq<Vector>)
    requires |ps| > 0
    ensures Below(MinOf(ps), MaxOf(ps))
    ensures Below(MinOf(ps), Midpoint(MinOf(ps), MaxOf(ps)))
    ensures Below(Midpoint(MinOf(ps), MaxOf(ps)), MaxOf(ps))
  {
    MinOfIsLowerBound(ps, 0);
    MaxOfIsUpperBound(ps, 0);
  }

  /** For a single point, minimum, maximum and centre all equal that point. */
  lemma SinglePointBounds(p: Vector)
    ensures MinOf([p]) == p && MaxOf([p]) == p
    ensures Midpoint(MinOf([p]), MaxOf([p])) == p
  {
  }
}
