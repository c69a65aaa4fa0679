/** The line segment of Assets/Scripts/Utils/Line.cs and the vector and box
    values it is built from. Unity's single-precision floats are modelled as
    reals. */
module Geometry {

  datatype Vec3 = Vec3(x: real, y: real, z: real)

  /** An axis-aligned box given by its least and greatest corner. */
  datatype AABox = AABox(min: Vec3, max: Vec3)

  /** A ray: a start point and a direction. */
  datatype Ray = Ray(origin: Vec3, direction: Vec3)

  datatype Line = Line(origin: Vec3, destination: Vec3)

  function Sub(a: Vec3, b: Vec3): Vec3 {
    Vec3(a.x - b.x, a.y - b.y, a.z - b.z)
  }

  /** `Vector3.sqrMagnitude`. */
  function SqrLength(v: Vec3): real {
    v.x * v.x + v.y * v.y + v.z * v.z
  }

  /** `System.Math.Min` and `System.Math.Max`. */
  function Min(a: real, b: real): real {
    if a <= b then a else b
  }

  function Max(a: real, b: real): real {
    if a >= b then a else b
  }

  /** The point lies inside the box or on its faces. */
  predicate Contains(b: AABox, p: Vec3) {
    && b.min.x <= p.x <= b.max.x
    && b.min.y <= p.y <= b.max.y
    && b.min.z <= p.z <= b.max.z
  }

  /** The lower corner is below the upper one on every axis. */
  predicate Ordered(b: AABox) {
    b.min.x <= b.max.x && b.min.y <= b.max.y && b.min.z <= b.max.z
  }

  /** `Line.SqrMagnitude`: the squared length of `Destination - Origin`. */
  function SqrMagnitude(l: Line): real {
    SqrLength(Sub(l.destination, l.origin))
  }

  /** `Line.GetBounds`: the axis-wise minimum and maximum of the two ends. */
  function GetBounds(l: Line): (b: AABox)
    ensures Ordered(b)
    ensures Contains(b, l.origin) && Contains(b, l.destination)
  {
    AABox(
      Vec3(Min(l.origin.x, l.destination.x), Min(l.origin.y, l.destination.y), Min(l.origin.z, l.destination.z)),
      Vec3(Max(l.origin.x, l.destination.x), Max(l.origin.y, l.destination.y), Max(l.origin.z, l.destination.z)))
  }

  /** `Line.GetRay`: from the origin towards the destination. `FastNormalize`
      (Assets/Scripts/Utils/MathUtils.cs) is not part of this model and is
      passed in. */
  function GetRay(l: Line, normalize: Vec3 -> Vec3): (r: Ray)
    ensures r.origin == l.origin
  {
    Ray(l.origin, normalize(Sub(l.destination, l.origin)))
  }

  /** The line with its two ends swapped. */
  function Reversed(l: Line): Line {
    Line(l.destination, l.origin)
  }

  /** The bounds are the smallest box holding both ends: any box that
      contains both ends contains the bounds. */
  lemma BoundsSmallest(l: Line, b: AABox)
    requires Contains(b, l.origin) && Contains(b, l.destination)
    ensures b.min.x <= GetBounds(l).min.x && GetBounds(l).max.x <= b.max.x
    ensures b.min.y <= GetBounds(l).min.y && GetBounds(l).max.y <= b.max.y
    ensures b.min.z <= GetBounds(l).min.z && GetBounds(l).max.z <= b.max.z
  {
  }

  /** Swapping the ends gives the same bounds. */
  lemma BoundsSymmetric(l: Line)
    ensures GetBounds(Reversed(l)) == GetBounds(l)
  {
  }

  /** The squared length is never negative, is zero for a line whose ends
      coincide, and does not depend on the direction. */
  lemma SqrMagnitudeProperties(l: Line)
    ensures SqrMagnitude(l) >= 0.0
    ensures l.origin == l.destination ==> SqrMagnitude(l) == 0.0
    ensures SqrMagnitude(Reversed(l)) == SqrMagnitude(l)
  {
    SquareNonNegative(l.destination.x - l.origin.x);
    SquareNonNegative(l.destination.y - l.origin.y);
    SquareNonNegative(l.destination.z - l.origin.z);
    NegSquare(l.destination.x - l.origin.x);
    NegSquare(l.destination.y - l.origin.y);
    NegSquare(l.destination.z - l.origin.z);
  }

  lemma SquareNonNegative(a: real)
    ensures a * a >= 0.0
  {
  }

  lemma NegSquare(a: real)
    ensures (-a) * (-a) == a * a
  {
  }
}
