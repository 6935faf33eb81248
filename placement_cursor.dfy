/** Placing one instance: it is centred on its footprint, and the cursor moves past
    it along one axis. */
module PlacementCursor {
  import opened Geometry
  import opened FitPredicates

  /** CalculateOriginPoint: half the size on every axis. */
  function OriginPoint(size: Vec3): (o: Vec3)
    ensures forall a: Axis :: Coord(o, a) == Coord(size, a) / 2.0
  {
    Vec3(size.x / 2.0, size.y / 2.0, size.z / 2.0)
  }

  /** CalculateNextInstanceOriginPoint: the centre of an object of `size` whose near
      corner is at `start`. */
  function NextInstanceOriginPoint(start: Vec3, size: Vec3): (p: Vec3)
    ensures forall a: Axis :: Coord(p, a) == Coord(start, a) + Coord(size, a) / 2.0
  {
    Add(start, OriginPoint(size))
  }

  /** What PlaceInstance computes: the position it gives the instance and the cursor it returns. */
  datatype Placed = Placed(origin: Vec3, next: Vec3)

  /** PlaceInstance without the write to the engine: the instance goes to the centre of
      its footprint and the cursor advances by the full size along `dir` only. */
  function PlaceInstance(size: Vec3, start: Vec3, dir: Axis): (r: Placed)
    ensures forall a: Axis :: Coord(r.origin, a) == Coord(start, a) + Coord(size, a) / 2.0
    ensures Coord(r.next, dir) == Coord(start, dir) + Coord(size, dir)
    ensures forall a: Axis :: a != dir ==> Coord(r.next, a) == Coord(start, a)
  {
    var origin := NextInstanceOriginPoint(start, size);
    var end := Vec3(start.x, start.y, start.z);
    match dir
    case Right => Placed(origin, Add(end, Vec3(size.x, 0.0, 0.0)))
    case Up => Placed(origin, Add(end, Vec3(0.0, size.y, 0.0)))
    case Depth => Placed(origin, Add(end, Vec3(0.0, 0.0, size.z)))
  }

  /** The cursor returned by PlaceInstance is where the object just placed ends, which is
      the far end of the box centred on its origin; so the fit check before a placement
      says exactly that the placed box ends strictly before the area's far edge. */
  lemma FitMeansPlacedInside(size: Vec3, start: Vec3, area: Area, dir: Axis)
    ensures Coord(PlaceInstance(size, start, dir).next, dir) == TotalSize(size, start, dir)
    ensures Coord(PlaceInstance(size, start, dir).origin, dir) + Coord(size, dir) / 2.0 == TotalSize(size, start, dir)
    ensures InstanceWillFit(size, start, area, dir) <==> Coord(PlaceInstance(size, start, dir).next, dir) < AreaSize(area, dir)
  {
  }

  /** Placing things one after another along `dir`: after placing `size` then `size'`,
      the cursor has moved by their sum along `dir` and not at all along the other axes. */
  lemma PlaceTwice(size: Vec3, size': Vec3, start: Vec3, dir: Axis)
    ensures var mid := PlaceInstance(size, start, dir).next;
      PlaceInstance(size', mid, dir).next == Add(start, Along(dir, Coord(size, dir) + Coord(size', dir)))
  {
    var mid := PlaceInstance(size, start, dir).next;
    var r := PlaceInstance(size', mid, dir).next;
    var w := Add(start, Along(dir, Coord(size, dir) + Coord(size', dir)));
    assert forall a: Axis :: Coord(r, a) == Coord(w, a);
    assert r.x == Coord(r, Right) && r.y == Coord(r, Up) && r.z == Coord(r, Depth);
    assert w.x == Coord(w, Right) && w.y == Coord(w, Up) && w.z == Coord(w, Depth);
  }

}
