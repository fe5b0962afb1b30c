/** The point-versus-plane classifier with its tolerance band (PlaneEx.cs). */
module PlaneEx {
  import opened Vectors

  datatype SideOfPlane = Up | Down | On

  /** The single-precision constant 0.0001f, taken as the exact rational 1/10000. */
  const Epsilon: real := 0.0001

  /** An engine plane: the points p with Dot(normal, p) + distance == 0. */
  datatype Plane = Plane(normal: Vector3, distance: real)

  /** The plane with normal n through point p, as the engine's Plane(inNormal, inPoint)
      builds it for a normal that is already of unit length. */
  function PlaneThrough(n: Vector3, p: Vector3): Plane {
    Plane(n, -Dot(n, p))
  }

  /** The value the classifier compares against the tolerance. */
  function SignedDistance(plane: Plane, pt: Vector3): real {
    Dot(plane.normal, pt) + plane.distance
  }

  /** Three-way classification of a point: strictly above the band, strictly below it, or in it. */
  function SideOf(plane: Plane, pt: Vector3): (side: SideOfPlane)
    ensures side == Up <==> SignedDistance(plane, pt) > Epsilon
    ensures side == Down <==> SignedDistance(plane, pt) < -Epsilon
    ensures side == On <==> -Epsilon <= SignedDistance(plane, pt) <= Epsilon
  {
    var result := Dot(plane.normal, pt) + plane.distance;
    if result > Epsilon then Up
    else if result < -Epsilon then Down
    else On
  }

  /** The same plane with the opposite orientation. */
  function Negated(plane: Plane): Plane {
    Plane(Neg(plane.normal), -plane.distance)
  }

  function Opposite(side: SideOfPlane): SideOfPlane {
    match side
    case Up => Down
    case Down => Up
    case On => On
  }

  /** Down < On < Up. */
  function Rank(side: SideOfPlane): nat {
    match side
    case Down => 0
    case On => 1
    case Up => 2
  }

  /** A point whose value lies exactly on either edge of the band is classified On:
      both comparisons are strict. */
  lemma BandEdgesAreOn(plane: Plane, pt: Vector3)
    requires SignedDistance(plane, pt) == Epsilon || SignedDistance(plane, pt) == -Epsilon
    ensures SideOf(plane, pt) == On
  {
  }

  /** Turning the plane around swaps Up and Down and keeps On. */
  lemma SideOfNegated(plane: Plane, pt: Vector3)
    ensures SignedDistance(Negated(plane), pt) == -SignedDistance(plane, pt)
    ensures SideOf(Negated(plane), pt) == Opposite(SideOf(plane, pt))
  {
  }

  /** The classification never decreases as the signed value grows. */
  lemma SideOfMonotone(plane: Plane, p: Vector3, q: Vector3)
    requires SignedDistance(plane, p) <= SignedDistance(plane, q)
    ensures Rank(SideOf(plane, p)) <= Rank(SideOf(plane, q))
  {
  }

  /** The point a plane is built through lies on it. */
  lemma PlaneThroughContainsPoint(n: Vector3, p: Vector3)
    ensures SignedDistance(PlaneThrough(n, p), p) == 0.0
    ensures SideOf(PlaneThrough(n, p), p) == On
  {
  }
}
