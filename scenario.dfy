/** A worked instance of the fill: a 10 x 10 x 10 area at the origin, a catalog of one
    2 x 2 x 2 item, and every range set to 1. */
module ShelfScenario {
  import opened Wrappers
  import opened Geometry
  import opened BoundsCache
  import opened FitPredicates
  import opened PlacementCursor
  import opened CatalogSelector
  import opened ShelfFill
  import opened FillProperties

  const Cube := Box(Vec3(0.0, 0.0, 0.0), Vec3(2.0, 2.0, 2.0))
  const Region := Area(Vec3(0.0, 0.0, 0.0), Vec3(10.0, 10.0, 10.0))
  const Ones := Settings(1.0, 1.0, 1.0, 1.0)
  const Two := Vec3(2.0, 2.0, 2.0)

  /** A prefab whose own Renderer and whose union of child Renderers both measure 2 x 2 x 2. */
  predicate TwoCube(item: Prefab)
  {
    item.root.Some? && Size(item.root.value) == Two && CachedSizeOf(item) == Two
  }

  /** A prefab with the cube as its one Renderer is such a prefab. */
  lemma CubePrefab(id: nat)
    ensures TwoCube(Prefab(id, Some(Cube), [Cube]))
  {
    assert UnionBox([Cube]) == Encapsulate(ZeroBox, Cube) by {
      assert [Cube][..0] == [];
    }
    var e := Encapsulate(ZeroBox, Cube);
    assert e.lo == Cube.lo && e.hi == Cube.hi;
    var c := Size(Cube);
    assert c.x == Coord(c, Right) && c.y == Coord(c, Up) && c.z == Coord(c, Depth);
  }

  /** Awaking on a one-item catalog succeeds, with a valid table over that catalog. */
  lemma OneItemTable(item: Prefab)
    ensures BuildTable([item]).Ok?
    ensures Valid(BuildTable([item]).table) && BuildTable([item]).table.order == [item]
  {
    BuildTableSpec([item]);
    BuildTableValid([item]);
  }

  /** In a valid table over a one-item catalog of a 2 x 2 x 2 item, every width, minimum
      and maximum is 2. */
  lemma OneItemSizes(t: BoundsTable, item: Prefab)
    requires TwoCube(item) && Valid(t) && t.order == [item]
    ensures Keyed(t) && item in t.sizeX
    ensures t.sizeX[item] == 2.0 && t.minSize.x == 2.0 && t.maxSize.x == 2.0
  {
    TableBounds(t, item);
    assert Column(t.order, t.sizeX) == [2.0];
  }

  /** Such a table is sound: its one item is 2 wide. */
  lemma OneItemSound(t: BoundsTable, item: Prefab)
    requires TwoCube(item) && Keyed(t) && t.order == [item] && t.minSize.x == 2.0
    ensures Sound(t)
  {
  }

  /** Behind a face item at width `x`: one depth copy and one copy stacked on it, both
      centred on the face item's centre; two range draws are used. */
  lemma OneColumn(item: Prefab, x: real, ranges: nat -> real, r: nat)
    ensures DepthRun(Ones, item, Two, Vec3(x, 0.0, 0.0), 0, 1.0, Region, ranges, r)
      == Run([Placement(item, Vec3(x + 1.0, 1.0, 1.0), DepthCopy), Placement(item, Vec3(x + 1.0, 1.0, 1.0), StackCopy)], r + 1)
  {
    var pos := Vec3(x, 0.0, 0.0);
    assert Range(1.0, 1.0, ranges(r)) == 1.0;
    assert StackRun(item, Two, pos, 0, 1.0, Region) == [Placement(item, Vec3(x + 1.0, 1.0, 1.0), StackCopy)] by {
      assert StackRun(item, Two, Vec3(x, 2.0, 0.0), 1, 1.0, Region) == [];
    }
    assert DepthRun(Ones, item, Two, Vec3(x, 0.0, 2.0), 1, 1.0, Region, ranges, r + 1) == Run([], r + 1);
  }

  /** While the cursor is below 8 the narrowest item still fits. */
  lemma RoomLeft(t: BoundsTable, x: real)
    requires t.minSize.x == 2.0 && 0.0 <= x < 8.0
    ensures AnyInstanceWillFit(t, Vec3(x, 0.0, 0.0), Region, Right)
  {
  }

  /** Whatever the draw, the one item is picked while the cursor is below 8. */
  lemma OnlyCandidate(t: BoundsTable, item: Prefab, x: real, u: real)
    requires Keyed(t) && t.order == [item] && item in t.sizeX && t.sizeX[item] == 2.0 && t.maxSize.x == 2.0
    requires 0.0 <= u < 1.0 && 0.0 <= x < 8.0
    ensures RandProduct(t, ShelfSpareSpace(Vec3(x, 0.0, 0.0), Region, Right), u) == Some(item)
  {
    var space := ShelfSpareSpace(Vec3(x, 0.0, 0.0), Region, Right);
    PickIndexInRange(u, 1);
    assert Candidates(t, space) == [item];
  }

  lemma FaceAt(x: real)
    ensures PlaceInstance(Two, Vec3(x, 0.0, 0.0), Right) == Placed(Vec3(x + 1.0, 1.0, 1.0), Vec3(x + 2.0, 0.0, 0.0))
  {
  }

  /** The face item at width `x`, its depth copy and its stacked copy, all centred at x + 1. */
  function ColumnAt(item: Prefab, x: real): seq<Placement>
  {
    var c := Vec3(x + 1.0, 1.0, 1.0);
    [Placement(item, c, Face), Placement(item, c, DepthCopy), Placement(item, c, StackCopy)]
  }

  /** The fill `F` with `items` logged before its own entries. */
  function Behind(items: seq<Placement>, F: Fill): Fill
  {
    F.(items := items + F.items)
  }

  /** One step of the width loop at cursor width `x` < 8: a face item centred at x + 1 and
      its column, then the loop again from x + 2. */
  lemma OneStep(t: BoundsTable, item: Prefab, x: real, picks: nat -> real, pk: nat, ranges: nat -> real, rk: nat)
    requires TwoCube(item) && Valid(t) && t.order == [item]
    requires UnitDraws(picks) && 0.0 <= x < 8.0
    ensures Sound(t)
    ensures WidthRun(t, Ones, Region, Vec3(x, 0.0, 0.0), picks, pk, ranges, rk)
      == Behind(ColumnAt(item, x), WidthRun(t, Ones, Region, Vec3(x + 2.0, 0.0, 0.0), picks, pk + 1, ranges, rk + 2))
  {
    OneItemSizes(t, item);
    OneItemSound(t, item);
    var pos := Vec3(x, 0.0, 0.0);
    RoomLeft(t, x);
    OnlyCandidate(t, item, x, picks(pk));
    WidthStep(t, Ones, Region, pos, picks, pk, ranges, rk, item, Two);
    var c := Vec3(x + 1.0, 1.0, 1.0);
    var placed := PlaceInstance(Two, pos, Right);
    assert placed == Placed(c, Vec3(x + 2.0, 0.0, 0.0)) by {
      FaceAt(x);
    }
    var column := DepthRun(Ones, item, Two, pos, 0, Range(1.0, 1.0, ranges(rk)), Region, ranges, rk + 1);
    assert column == Run([Placement(item, c, DepthCopy), Placement(item, c, StackCopy)], rk + 2) by {
      assert Range(1.0, 1.0, ranges(rk)) == 1.0;
      OneColumn(item, x, ranges, rk + 1);
    }
    ThreeInColumn(Placement(item, c, Face), column.items, Placement(item, c, DepthCopy), Placement(item, c, StackCopy));
  }

  lemma ThreeInColumn(f: Placement, C: seq<Placement>, d: Placement, e: Placement)
    requires C == [d, e]
    ensures [f] + C == [f, d, e]
  {
  }

  /** At width 8 the narrowest item would end exactly on the far edge, which the strict
      check rejects, so the loop ends there: with the cursor stepping by 2 from the pivot,
      the shelf takes four face items, not five. */
  lemma FillEnd(t: BoundsTable, item: Prefab, picks: nat -> real, pk: nat, ranges: nat -> real, rk: nat)
    requires TwoCube(item) && Valid(t) && t.order == [item]
    ensures Sound(t)
    ensures WidthRun(t, Ones, Region, Vec3(8.0, 0.0, 0.0), picks, pk, ranges, rk) == Fill([], pk, rk, Finished)
  {
    OneItemSizes(t, item);
    OneItemSound(t, item);
  }
}
