/** What one iteration of the randomizer places, as functions of the bounds table,
    the placement areas and the two streams of random draws: the width loop over an
    area, the depth loop behind each face item and the stack loop on each depth slot.
    The imperative loops in ShelfRandomizer are proved to produce exactly these. */
module ShelfFill {
  import opened Wrappers
  import opened Geometry
  import opened BoundsCache
  import opened FitPredicates
  import opened PlacementCursor
  import opened CatalogSelector

  datatype Role = Face | DepthCopy | StackCopy

  /** One entry of the placement log: which prefab was emitted, where its centre was
      put, and which loop emitted it. */
  datatype Placement = Placement(prefab: Prefab, origin: Vec3, role: Role)

  /** The randomizer's public range settings. */
  datatype Settings = Settings(minDepth: real, maxDepth: real, minStack: real, maxStack: real)

  /** Random.Range(lo, hi) for the unit draw `t`. */
  function Range(lo: real, hi: real, t: real): (r: real)
    ensures 0.0 <= t <= 1.0 && lo <= hi ==> lo <= r <= hi
  {
    var r := lo + t * (hi - lo);
    assert 0.0 <= t <= 1.0 && lo <= hi ==> lo <= r <= hi by {
      if 0.0 <= t <= 1.0 && lo <= hi {
        NonNegativeProduct(t, hi - lo);
        NonNegativeProduct(1.0 - t, hi - lo);
        assert hi - r == (1.0 - t) * (hi - lo);
      }
    }
    r
  }

  lemma NonNegativeProduct(a: real, b: real)
    requires a >= 0.0 && b >= 0.0
    ensures a * b >= 0.0
  {
  }

  /** The size of an instance's own Renderer box; None when the prefab object has no
      Renderer (GetComponent returns null and reading its bounds throws). */
  function InstanceSize(p: Prefab): (s: Option<Vec3>)
    ensures s.Some? <==> p.root.Some?
    ensures s.Some? ==> s.value == Size(p.root.value)
  {
    match p.root
    case None => None
    case Some(b) => Some(Size(b))
  }

  /** The stack loop: while the object still fits upwards and fewer than `cap` have been
      stacked, emit a copy at the stack cursor and move the cursor up by its height. */
  function StackRun(p: Prefab, size: Vec3, pos: Vec3, count: nat, cap: real, area: Area): seq<Placement>
    decreases cap.Floor - count
  {
    if InstanceWillFit(size, pos, area, Up) && (count as real) < cap then
      var placed := PlaceInstance(size, pos, Up);
      [Placement(p, placed.origin, StackCopy)] + StackRun(p, size, placed.next, count + 1, cap, area)
    else []
  }

  /** A stretch of the log together with the position in the Random.Range stream after it. */
  datatype Run = Run(items: seq<Placement>, used: nat)

  /** The depth loop: while the object still fits in depth and fewer than `cap` copies
      stand behind the face, emit a copy at the depth cursor, move the cursor back by
      its depth, draw this slot's stack cap and run the stack loop from the slot's own
      start. `ranges(r)` is the next unused Random.Range draw. */
  function DepthRun(s: Settings, p: Prefab, size: Vec3, pos: Vec3, count: nat, cap: real, area: Area,
                    ranges: nat -> real, r: nat): Run
    decreases cap.Floor - count
  {
    if InstanceWillFit(size, pos, area, Depth) && (count as real) < cap then
      var placed := PlaceInstance(size, pos, Depth);
      var stack := StackRun(p, size, pos, 0, Range(s.minStack, s.maxStack, ranges(r)), area);
      var rest := DepthRun(s, p, size, placed.next, count + 1, cap, area, ranges, r + 1);
      Run([Placement(p, placed.origin, DepthCopy)] + stack + rest.items, rest.used)
    else Run([], r)
  }

  /** How one area's fill ended: the width guard failed, or the source would have thrown
      (no candidate at the drawn index, or a face item without its own Renderer). */
  datatype Halt = Finished | NoCandidate | MissingRenderer(prefab: Prefab)

  /** A stretch of the log, the positions in both draw streams after it, and how it ended. */
  datatype Fill = Fill(items: seq<Placement>, picks: nat, ranges: nat, halt: Halt)

  /** Every catalog prefab that has its own Renderer is strictly wider than zero,
      so each face placement moves the width cursor forward. */
  predicate PositiveWidths(catalog: seq<Prefab>)
  {
    forall i | 0 <= i < |catalog| :: catalog[i].root.Some? ==> Size(catalog[i].root.value).x > 0.0
  }

  function StepOf(p: Prefab): real
  {
    match p.root
    case None => 1.0
    case Some(b) => Size(b).x
  }

  /** The least width-cursor advance any catalog prefab can cause. */
  ghost function MinStep(catalog: seq<Prefab>): (r: real)
    requires |catalog| > 0 && PositiveWidths(catalog)
    ensures r > 0.0
    ensures forall i | 0 <= i < |catalog| :: catalog[i].root.Some? ==> Size(catalog[i].root.value).x >= r
  {
    var steps := seq(|catalog|, i requires 0 <= i < |catalog| => StepOf(catalog[i]));
    var r := MinOf(steps);
    MinOfSpec(steps);
    assert exists i :: 0 <= i < |steps| && steps[i] == r;
    assert forall i | 0 <= i < |catalog| :: steps[i] == StepOf(catalog[i]);
    r
  }

  /** How many more least advances fit before the far edge: bounds the width loop. */
  ghost function WidthMeasure(t: BoundsTable, area: Area, pos: Vec3): int
    requires |t.order| > 0 && PositiveWidths(t.order)
  {
    ((AreaSize(area, Right) - pos.x) / MinStep(t.order)).Floor
  }

  lemma FloorStep(d: real, a: real, step: real)
    requires step > 0.0 && a >= step && d >= 0.0
    ensures 0 <= (d / step).Floor
    ensures ((d - a) / step).Floor < (d / step).Floor
  {
    assert (d - a) / step == d / step - a / step;
    assert a / step >= 1.0;
  }

  /** Under the width guard, placing a catalog prefab moves the width cursor by at least
      the least advance, so the measure is not negative and goes down. */
  lemma WidthProgress(t: BoundsTable, area: Area, pos: Vec3, p: Prefab)
    requires |t.order| > 0 && PositiveWidths(t.order) && t.minSize.x >= 0.0
    requires AnyInstanceWillFit(t, pos, area, Right)
    requires p in t.order && p.root.Some?
    ensures 0 <= WidthMeasure(t, area, pos)
    ensures WidthMeasure(t, area, PlaceInstance(Size(p.root.value), pos, Right).next) < WidthMeasure(t, area, pos)
  {
    var size := Size(p.root.value);
    var next := PlaceInstance(size, pos, Right).next;
    assert next.x == pos.x + size.x by {
      assert Coord(next, Right) == Coord(pos, Right) + Coord(size, Right);
    }
    assert AreaSize(area, Right) - next.x == (AreaSize(area, Right) - pos.x) - size.x;
    FloorStep(AreaSize(area, Right) - pos.x, size.x, MinStep(t.order));
  }

  /** What the width loop relies on: every key has its three sizes, the catalog is not
      empty, every catalog item with a Renderer of its own is wider than zero, and the
      smallest cached width is not negative. */
  predicate Sound(t: BoundsTable)
  {
    Keyed(t) && |t.order| > 0 && PositiveWidths(t.order) && t.minSize.x >= 0.0
  }

  /** A table built by awaking is sound once its catalog has positive widths. */
  lemma ValidSound(t: BoundsTable)
    requires Valid(t) && PositiveWidths(t.order)
    ensures Sound(t)
  {
    TableBounds(t, t.order[0]);
  }

  /** The width loop over one area from the cursor `pos`: while the narrowest catalog item
      would still fit, pick a face item for the space left, place it along Right, draw the
      column's depth cap and run the depth loop from the face item's own start.
      `picks(pk)` is the next unused index draw and `ranges(rk)` the next Random.Range draw. */
  function WidthRun(t: BoundsTable, s: Settings, area: Area, pos: Vec3,
                    picks: nat -> real, pk: nat, ranges: nat -> real, rk: nat): Fill
    requires Sound(t)
    decreases WidthMeasure(t, area, pos)
  {
    if !AnyInstanceWillFit(t, pos, area, Right) then Fill([], pk, rk, Finished)
    else
      var space := ShelfSpareSpace(pos, area, Right);
      match RandProduct(t, space, picks(pk))
      case None => Fill([], pk + 1, rk, NoCandidate)
      case Some(p) =>
        match InstanceSize(p)
        case None => Fill([], pk + 1, rk, MissingRenderer(p))
        case Some(size) =>
          var placed := PlaceInstance(size, pos, Right);
          var column := DepthRun(s, p, size, pos, 0, Range(s.minDepth, s.maxDepth, ranges(rk)), area, ranges, rk + 1);
          WidthProgress(t, area, pos, p);
          var rest := WidthRun(t, s, area, placed.next, picks, pk + 1, ranges, column.used);
          Fill([Placement(p, placed.origin, Face)] + column.items + rest.items, rest.picks, rest.ranges, rest.halt)
  }

  /** One iteration over all placement areas in discovery order, each filled from its
      pivot; a halt other than Finished ends the iteration (the exception propagates). */
  function AreasRun(t: BoundsTable, s: Settings, areas: seq<Area>,
                    picks: nat -> real, pk: nat, ranges: nat -> real, rk: nat): Fill
    requires Sound(t)
    decreases |areas|
  {
    if areas == [] then Fill([], pk, rk, Finished)
    else
      var f := WidthRun(t, s, areas[0], areas[0].pivot, picks, pk, ranges, rk);
      if f.halt != Finished then f
      else
        var rest := AreasRun(t, s, areas[1..], picks, f.picks, ranges, f.ranges);
        Fill(f.items + rest.items, rest.picks, rest.ranges, rest.halt)
  }

}
