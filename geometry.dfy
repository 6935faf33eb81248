/** Vectors, placement directions and axis-aligned boxes.
    Coordinates are exact reals; the engine's single-precision rounding is not modelled. */
module Geometry {

  /** The three placement directions (the source's PlaceDirection): Right is x (width),
      Up is y (stack height), Depth is z. */
  datatype Axis = Right | Up | Depth

  datatype Vec3 = Vec3(x: real, y: real, z: real)

  /** The component of `v` along `a`. */
  function Coord(v: Vec3, a: Axis): real
  {
    match a
    case Right => v.x
    case Up => v.y
    case Depth => v.z
  }

  function Add(u: Vec3, v: Vec3): (w: Vec3)
    ensures forall a: Axis :: Coord(w, a) == Coord(u, a) + Coord(v, a)
  {
    Vec3(u.x + v.x, u.y + v.y, u.z + v.z)
  }

  /** The vector of length `d` along `a` and zero on the other two axes. */
  function Along(a: Axis, d: real): (v: Vec3)
    ensures Coord(v, a) == d
    ensures forall b: Axis :: b != a ==> Coord(v, b) == 0.0
  {
    match a
    case Right => Vec3(d, 0.0, 0.0)
    case Up => Vec3(0.0, d, 0.0)
    case Depth => Vec3(0.0, 0.0, d)
  }

  function Min(a: real, b: real): real { if a <= b then a else b }

  function Max(a: real, b: real): real { if a >= b then a else b }

  /** An axis-aligned box by its two corners, as the engine's Bounds keeps them
      (centre - extents and centre + extents). */
  datatype Box = Box(lo: Vec3, hi: Vec3)

  /** Bounds.size: the far corner minus the near corner. */
  function Size(b: Box): (s: Vec3)
    ensures forall a: Axis :: Coord(s, a) == Coord(b.hi, a) - Coord(b.lo, a)
  {
    Vec3(b.hi.x - b.lo.x, b.hi.y - b.lo.y, b.hi.z - b.lo.z)
  }

  /** `new Bounds()`: centre and extents zero. */
  const ZeroBox: Box := Box(Vec3(0.0, 0.0, 0.0), Vec3(0.0, 0.0, 0.0))

  /** Bounds.Encapsulate(point): grow the box to the componentwise min and max with the
      point, so each new corner coordinate is the old one or the point's. */
  function EncapsulatePoint(b: Box, p: Vec3): (r: Box)
    ensures forall a: Axis :: Coord(r.lo, a) <= Coord(b.lo, a) && Coord(r.lo, a) <= Coord(p, a)
    ensures forall a: Axis :: Coord(r.hi, a) >= Coord(b.hi, a) && Coord(r.hi, a) >= Coord(p, a)
    ensures forall a: Axis :: Coord(r.lo, a) == Coord(b.lo, a) || Coord(r.lo, a) == Coord(p, a)
    ensures forall a: Axis :: Coord(r.hi, a) == Coord(b.hi, a) || Coord(r.hi, a) == Coord(p, a)
  {
    Box(Vec3(Min(b.lo.x, p.x), Min(b.lo.y, p.y), Min(b.lo.z, p.z)),
        Vec3(Max(b.hi.x, p.x), Max(b.hi.y, p.y), Max(b.hi.z, p.z)))
  }

  /** Bounds.Encapsulate(bounds): encapsulate the other box's near corner, then its far corner. */
  function Encapsulate(b: Box, other: Box): Box
  {
    EncapsulatePoint(EncapsulatePoint(b, other.lo), other.hi)
  }

}
