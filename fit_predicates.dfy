/** The per-axis geometry helpers: the far edge of a placement area, the reach of an
    object or of the smallest or largest catalog item from a cursor, and the three
    strict fit checks. */
module FitPredicates {
  import opened Geometry
  import opened BoundsCache

  /** A placement area: `pivot` is the position of the area's parent transform (where
      filling starts) and `collider` the size of the area's collider bounds. */
  datatype Area = Area(pivot: Vec3, collider: Vec3)

  /** CalculateAreaSize: the absolute far edge of the area along `dir`, pivot plus
      collider size. */
  function AreaSize(area: Area, dir: Axis): real
  {
    Coord(area.collider, dir) + Coord(area.pivot, dir)
  }

  /** CalculateTotalSize: where an object of `size` placed at `pos` ends along `dir`. */
  function TotalSize(size: Vec3, pos: Vec3, dir: Axis): real
  {
    Coord(pos, dir) + Coord(size, dir)
  }

  /** CalculateMaxSeparationDistance: where the largest catalog item would end. */
  function MaxSeparationDistance(t: BoundsTable, pos: Vec3, dir: Axis): real
  {
    Coord(pos, dir) + Coord(t.maxSize, dir)
  }

  /** CalculateMinSeparationDistance: where the smallest catalog item would end. */
  function MinSeparationDistance(t: BoundsTable, pos: Vec3, dir: Axis): real
  {
    Coord(pos, dir) + Coord(t.minSize, dir)
  }

  /** CheckIfInstanceWillFit: this object, placed at `pos`, ends strictly before the far edge. */
  predicate InstanceWillFit(size: Vec3, pos: Vec3, area: Area, dir: Axis)
  {
    TotalSize(size, pos, dir) < AreaSize(area, dir)
  }

  /** CheckIfAnyInstanceWillFit: the smallest catalog item would end strictly before the far edge. */
  predicate AnyInstanceWillFit(t: BoundsTable, pos: Vec3, area: Area, dir: Axis)
  {
    MinSeparationDistance(t, pos, dir) < AreaSize(area, dir)
  }

  /** CheckIfLongestInstanceWillFit: the largest catalog item would end strictly before the far edge. */
  predicate LongestInstanceWillFit(t: BoundsTable, pos: Vec3, area: Area, dir: Axis)
  {
    MaxSeparationDistance(t, pos, dir) < AreaSize(area, dir)
  }

  /** CalculateShelfSpareSpace: the far edge along `dir` minus the cursor's x
      coordinate, whatever `dir` is. */
  function ShelfSpareSpace(pos: Vec3, area: Area, dir: Axis): real
  {
    AreaSize(area, dir) - pos.x
  }

  /** The checks are strict: an object whose far end lies exactly on the area's far
      edge does not fit, nor does the smallest or largest catalog item in that case. */
  lemma TouchingIsRejected(t: BoundsTable, size: Vec3, pos: Vec3, area: Area, dir: Axis)
    ensures TotalSize(size, pos, dir) == AreaSize(area, dir) ==> !InstanceWillFit(size, pos, area, dir)
    ensures MinSeparationDistance(t, pos, dir) == AreaSize(area, dir) ==> !AnyInstanceWillFit(t, pos, area, dir)
    ensures MaxSeparationDistance(t, pos, dir) == AreaSize(area, dir) ==> !LongestInstanceWillFit(t, pos, area, dir)
  {
  }

  /** Because every cached size lies between the global minimum and maximum of its
      axis: if the largest item fits then every catalog item fits, and if any catalog
      item fits then the smallest one does. */
  lemma FitChain(t: BoundsTable, p: Prefab, pos: Vec3, area: Area, dir: Axis)
    requires Valid(t) && p in t.order
    ensures p in t.sizeX && p in t.sizeY && p in t.sizeZ
    ensures LongestInstanceWillFit(t, pos, area, dir) ==> InstanceWillFit(TableSize(t, p), pos, area, dir)
    ensures InstanceWillFit(TableSize(t, p), pos, area, dir) ==> AnyInstanceWillFit(t, pos, area, dir)
  {
    TableBounds(t, p);
  }

  /** Along Right, the spare space is the room left before the far edge: an object
      fits exactly when its width is below the spare space, and some item can still
      start a column exactly when the smallest width is below it. */
  lemma SpareSpaceAlongRight(t: BoundsTable, size: Vec3, pos: Vec3, area: Area)
    ensures InstanceWillFit(size, pos, area, Right) <==> size.x < ShelfSpareSpace(pos, area, Right)
    ensures AnyInstanceWillFit(t, pos, area, Right) <==> t.minSize.x < ShelfSpareSpace(pos, area, Right)
  {
  }

  /** Along the other two axes the spare space still subtracts the x coordinate, so it
      differs from the room left on that axis unless the cursor's x equals its coordinate there. */
  lemma SpareSpaceIgnoresDirection(pos: Vec3, area: Area, dir: Axis)
    ensures ShelfSpareSpace(pos, area, dir) == AreaSize(area, dir) - Coord(pos, dir) <==> dir == Right || pos.x == Coord(pos, dir)
  {
  }

}
