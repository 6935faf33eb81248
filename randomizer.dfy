/** The randomizer object: its public settings, the bounds table it caches when it
    awakes, and one iteration's placements, each written as the loop the source runs
    and proved to produce what the functions of ShelfFill describe. */
module ShelfRandomizer {
  import opened Wrappers
  import opened Geometry
  import opened BoundsCache
  import opened FitPredicates
  import opened PlacementCursor
  import opened CatalogSelector
  import opened ShelfFill
  import opened FillProperties

  class ShelfPlacementRandomizer {
    /** The catalog, in the order of its categories. */
    var prefabs: seq<Prefab>
    var minDepth: real
    var maxDepth: real
    var minStack: real
    var maxStack: real

    /** The three size dictionaries; `order` is their common key order. */
    var order: seq<Prefab>
    var sizeX: map<Prefab, real>
    var sizeY: map<Prefab, real>
    var sizeZ: map<Prefab, real>
    var minBounds: Vec3
    var maxBounds: Vec3

    /** Every instance positioned since the pool was last reset, in placement order. */
    var placed: seq<Placement>

    /** The index selector's uniform samples and Random.Range's unit draws, with the
        position of the next unused one in each. */
    const indexDraws: nat -> real
    const rangeDraws: nat -> real
    var pk: nat
    var rk: nat

    constructor(prefabs: seq<Prefab>, settings: Settings, indexDraws: nat -> real, rangeDraws: nat -> real)
      ensures this.prefabs == prefabs && Config() == settings
      ensures this.indexDraws == indexDraws && this.rangeDraws == rangeDraws
      ensures order == [] && sizeX == map[] && sizeY == map[] && sizeZ == map[]
      ensures placed == [] && pk == 0 && rk == 0
    {
      this.prefabs := prefabs;
      minDepth, maxDepth := settings.minDepth, settings.maxDepth;
      minStack, maxStack := settings.minStack, settings.maxStack;
      this.indexDraws, this.rangeDraws := indexDraws, rangeDraws;
      order, sizeX, sizeY, sizeZ := [], map[], map[], map[];
      minBounds, maxBounds := Vec3(0.0, 0.0, 0.0), Vec3(0.0, 0.0, 0.0);
      placed, pk, rk := [], 0, 0;
    }

    /** The cached bounds table. */
    function Table(): BoundsTable
      reads this`order, this`sizeX, this`sizeY, this`sizeZ, this`minBounds, this`maxBounds
    {
      BoundsTable(order, sizeX, sizeY, sizeZ, minBounds, maxBounds)
    }

    /** The four range settings. */
    function Config(): Settings
      reads this`minDepth, this`maxDepth, this`minStack, this`maxStack
    {
      Settings(minDepth, maxDepth, minStack, maxStack)
    }

    /** OnAwake: empty dictionaries, CalculateProductsLength, then the per-axis Max and Min
        of the dictionaries' values, which throw on an empty dictionary. The table is
        exactly what BuildTable describes, and so is the error. */
    method Awake() returns (error: Option<BuildError>)
      modifies this`order, this`sizeX, this`sizeY, this`sizeZ, this`minBounds, this`maxBounds
      ensures BuildTable(prefabs) == if error.Some? then Fail(error.value) else Ok(Table())
    {
      var built := BuildBounds(prefabs);
      match built
      case Fail(e) =>
        error := Some(e);
      case Ok(t) =>
        order, sizeX, sizeY, sizeZ := t.order, t.sizeX, t.sizeY, t.sizeZ;
        minBounds, maxBounds := t.minSize, t.maxSize;
        error := None;
    }

    /** PlaceInstance: move the instance's centre to the cursor plus half its size and
        return the cursor advanced by its size along `dir`. */
    method Place(p: Prefab, size: Vec3, start: Vec3, dir: Axis, role: Role) returns (next: Vec3)
      modifies this`placed
      ensures placed == old(placed) + [Placement(p, PlaceInstance(size, start, dir).origin, role)]
      ensures next == PlaceInstance(size, start, dir).next
      ensures Table() == old(Table()) && Config() == old(Config())
    {
      var at := PlaceInstance(size, start, dir);
      placed := placed + [Placement(p, at.origin, role)];
      next := at.next;
    }

    /** Random.Range(lo, hi) on the next unit draw. */
    method NextRange(lo: real, hi: real) returns (v: real)
      modifies this`rk
      ensures v == Range(lo, hi, rangeDraws(old(rk))) && rk == old(rk) + 1
      ensures Table() == old(Table()) && Config() == old(Config())
    {
      v := Range(lo, hi, rangeDraws(rk));
      rk := rk + 1;
    }

    /** RandProduct: sample the index selector once and pick from the candidates; None
        where the source indexes outside the list. */
    method DrawProduct(maxWidth: real) returns (r: Option<Prefab>)
      requires Keyed(Table())
      modifies this`pk
      ensures r == RandProduct(Table(), maxWidth, indexDraws(old(pk))) && pk == old(pk) + 1
      ensures Table() == old(Table()) && Config() == old(Config())
    {
      r := RandProduct(Table(), maxWidth, indexDraws(pk));
      pk := pk + 1;
    }

    /** The stack loop on one depth slot, from the slot's own start. */
    method FillStack(p: Prefab, size: Vec3, start: Vec3, cap: real, area: Area)
      modifies this`placed
      ensures placed == old(placed) + StackRun(p, size, start, 0, cap, area)
      ensures Table() == old(Table()) && Config() == old(Config())
    {
      var count: nat := 0;
      var pos := start;
      while InstanceWillFit(size, pos, area, Up) && (count as real) < cap
        invariant old(placed) + StackRun(p, size, start, 0, cap, area) == placed + StackRun(p, size, pos, count, cap, area)
        decreases cap.Floor - count
      {
        ghost var before, from := placed, pos;
        count := count + 1;
        pos := Place(p, size, pos, Up, StackCopy);
        assert before + StackRun(p, size, from, count - 1, cap, area) == placed + StackRun(p, size, pos, count, cap, area);
      }
    }

    /** The depth loop behind one face item, from the face item's own start: each slot
        places a depth copy, draws its stack cap and runs the stack loop from the slot's start. */
    method FillDepth(p: Prefab, size: Vec3, start: Vec3, cap: real, area: Area)
      modifies this`placed, this`rk
      ensures var run := DepthRun(Config(), p, size, start, 0, cap, area, rangeDraws, old(rk));
        placed == old(placed) + run.items && rk == run.used
      ensures Table() == old(Table()) && Config() == old(Config())
    {
      ghost var t, s := Table(), Config();
      ghost var whole := DepthRun(s, p, size, start, 0, cap, area, rangeDraws, rk);
      var count: nat := 0;
      var pos := start;
      while InstanceWillFit(size, pos, area, Depth) && (count as real) < cap
        invariant Table() == t && Config() == s
        invariant old(placed) + whole.items == placed + DepthRun(s, p, size, pos, count, cap, area, rangeDraws, rk).items
        invariant whole.used == DepthRun(s, p, size, pos, count, cap, area, rangeDraws, rk).used
        decreases cap.Floor - count
      {
        ghost var before, from, r, k := placed, pos, rk, count;
        count := count + 1;
        var stackPos := pos;
        pos := Place(p, size, pos, Depth, DepthCopy);
        var stackCap := NextRange(minStack, maxStack);
        assert stackCap == Range(s.minStack, s.maxStack, rangeDraws(r));
        FillStack(p, size, stackPos, stackCap, area);
        DepthSlot(old(placed), whole, before, placed, s, p, size, from, k, cap, area, rangeDraws, r);
      }
    }

    /** One pass of the width loop's body once the face item is known: place it at the
        cursor, draw the column's depth cap and fill the column from the face item's start. */
    method FillColumn(p: Prefab, size: Vec3, pos: Vec3, area: Area) returns (next: Vec3)
      modifies this`placed, this`rk
      ensures var column := DepthRun(Config(), p, size, pos, 0, Range(minDepth, maxDepth, rangeDraws(old(rk))), area, rangeDraws, old(rk) + 1);
        && placed == old(placed) + [Placement(p, PlaceInstance(size, pos, Right).origin, Face)] + column.items
        && rk == column.used
      ensures next == PlaceInstance(size, pos, Right).next
      ensures Table() == old(Table()) && Config() == old(Config())
    {
      var depthInstancePos := pos;
      next := Place(p, size, pos, Right, Face);
      var maxDepthCount := NextRange(minDepth, maxDepth);
      FillDepth(p, size, depthInstancePos, maxDepthCount, area);
    }

    /** One pass of the width loop's body once the index draw `k` has picked `p` and `p`
        has its own Renderer: place `p` as the face item at the cursor and fill its column.
        The log then holds this pass, and the rest of the loop starts from the advanced
        cursor, which is closer to the far edge. */
    method FillSlot(area: Area, pos: Vec3, ghost k: nat, p: Prefab, size: Vec3) returns (next: Vec3)
      requires Sound(Table()) && AnyInstanceWillFit(Table(), pos, area, Right)
      requires RandProduct(Table(), ShelfSpareSpace(pos, area, Right), indexDraws(k)) == Some(p)
      requires InstanceSize(p) == Some(size) && pk == k + 1
      modifies this`placed, this`rk
      ensures 0 <= WidthMeasure(Table(), area, pos) && WidthMeasure(Table(), area, next) < WidthMeasure(Table(), area, pos)
      ensures Logged(old(placed), WidthRun(Table(), Config(), area, pos, indexDraws, k, rangeDraws, old(rk)),
                     placed, WidthRun(Table(), Config(), area, next, indexDraws, pk, rangeDraws, rk))
      ensures Table() == old(Table()) && Config() == old(Config())
    {
      ghost var t, s, before, r := Table(), Config(), placed, rk;
      assert minDepth == s.minDepth && maxDepth == s.maxDepth;
      next := FillColumn(p, size, pos, area);
      ghost var column := DepthRun(s, p, size, pos, 0, Range(s.minDepth, s.maxDepth, rangeDraws(r)), area, rangeDraws, r + 1);
      assert Table() == t && Config() == s && rk == column.used;
      WidthSlot(before, placed, t, s, area, pos, indexDraws, k, rangeDraws, r, p, size);
    }

    /** The width loop over one area, from its pivot: while the narrowest item still fits,
        pick a face item for the width left, read its own Renderer's size and fill one slot.
        A pick outside the candidate list or a face item without a Renderer ends the fill
        where the source throws. */
    method FillArea(area: Area) returns (halt: Halt)
      requires Sound(Table())
      modifies this`placed, this`pk, this`rk
      ensures var f := WidthRun(Table(), Config(), area, area.pivot, indexDraws, old(pk), rangeDraws, old(rk));
        placed == old(placed) + f.items && pk == f.picks && rk == f.ranges && halt == f.halt
      ensures Table() == old(Table()) && Config() == old(Config())
    {
      ghost var t, s := Table(), Config();
      ghost var whole := WidthRun(t, s, area, area.pivot, indexDraws, pk, rangeDraws, rk);
      var pos := area.pivot;
      while AnyInstanceWillFit(Table(), pos, area, Right)
        invariant Table() == t && Config() == s
        invariant Logged(old(placed), whole, placed, WidthRun(t, s, area, pos, indexDraws, pk, rangeDraws, rk))
        decreases WidthMeasure(t, area, pos)
      {
        ghost var before, rest, k := placed, WidthRun(t, s, area, pos, indexDraws, pk, rangeDraws, rk), pk;
        var space := ShelfSpareSpace(pos, area, Right);
        var product := DrawProduct(space);
        if product.None? {
          WidthRunNoCandidate(t, s, area, pos, indexDraws, k, rangeDraws, rk);
          return NoCandidate;
        }
        var p := product.value;
        var size := InstanceSize(p);
        if size.None? {
          WidthRunNoRenderer(t, s, area, pos, indexDraws, k, rangeDraws, rk, p);
          return MissingRenderer(p);
        }
        var next := FillSlot(area, pos, k, p, size.value);
        LoggedChain(old(placed), whole, before, rest, placed, WidthRun(t, s, area, next, indexDraws, pk, rangeDraws, rk));
        pos := next;
      }
      WidthRunEnds(t, s, area, pos, indexDraws, pk, rangeDraws, rk);
      halt := Finished;
    }

    /** OnIterationStart: fill every placement area in turn, each from its own pivot; a
        throw in one area ends the iteration there. */
    method IterationStart(areas: seq<Area>) returns (halt: Halt)
      requires Sound(Table())
      modifies this`placed, this`pk, this`rk
      ensures var f := AreasRun(Table(), Config(), areas, indexDraws, old(pk), rangeDraws, old(rk));
        placed == old(placed) + f.items && pk == f.picks && rk == f.ranges && halt == f.halt
      ensures Table() == old(Table()) && Config() == old(Config())
    {
      ghost var t, s := Table(), Config();
      ghost var whole := AreasRun(t, s, areas, indexDraws, pk, rangeDraws, rk);
      for i := 0 to |areas|
        invariant Table() == t && Config() == s
        invariant Logged(old(placed), whole, placed, AreasRun(t, s, areas[i..], indexDraws, pk, rangeDraws, rk))
      {
        ghost var before, rest, k, r := placed, AreasRun(t, s, areas[i..], indexDraws, pk, rangeDraws, rk), pk, rk;
        halt := FillArea(areas[i]);
        AreaSlot(before, placed, t, s, areas, i, indexDraws, k, rangeDraws, r);
        if halt != Finished {
          return;
        }
        LoggedChain(old(placed), whole, before, rest, placed, AreasRun(t, s, areas[i + 1..], indexDraws, pk, rangeDraws, rk));
      }
      assert areas[|areas|..] == [];
      halt := Finished;
    }

    /** OnIterationEnd: every pooled instance goes back to the pool, so nothing is placed. */
    method IterationEnd()
      modifies this`placed
      ensures placed == []
      ensures Table() == old(Table()) && Config() == old(Config())
    {
      placed := [];
    }
  }

  /** CalculateProductsLength: for each catalog entry in turn, encapsulate its renderer
      boxes into a fresh box and add its size to the three dictionaries, whose common key
      order is `keys`. Dictionary.Add throws on a prefab already present: `repeat` is that
      prefab, and the dictionaries then hold the entries before it. */
  method CalculateProductsLength(catalog: seq<Prefab>)
    returns (keys: seq<Prefab>, xs: map<Prefab, real>, ys: map<Prefab, real>, zs: map<Prefab, real>, repeat: Option<Prefab>)
    ensures RepeatFrom(catalog, 0).Some? ==>
      repeat == Some(catalog[RepeatFrom(catalog, 0).value]) && keys == catalog[..RepeatFrom(catalog, 0).value]
    ensures RepeatFrom(catalog, 0).None? ==> repeat == None && keys == catalog
    ensures xs == SizeMap(keys, Right) && ys == SizeMap(keys, Up) && zs == SizeMap(keys, Depth)
  {
    var i := 0;
    keys, xs, ys, zs := [], map[], map[], map[];
    while i < |catalog|
      invariant 0 <= i <= |catalog| && keys == catalog[..i]
      invariant RepeatFrom(catalog, 0) == RepeatFrom(catalog, i)
      invariant xs == SizeMap(keys, Right) && ys == SizeMap(keys, Up) && zs == SizeMap(keys, Depth)
    {
      var prefab := catalog[i];
      var totalBounds := TotalBounds(prefab.renderers);
      AddStep(catalog, i, xs, ys, zs);
      if prefab in xs {
        return keys, xs, ys, zs, Some(prefab);
      }
      var size := Size(totalBounds);
      xs, ys, zs := xs[prefab := size.x], ys[prefab := size.y], zs[prefab := size.z];
      keys := keys + [prefab];
      i := i + 1;
    }
    FullPrefix(catalog);
    repeat := None;
  }

  /** The body of OnAwake on values: CalculateProductsLength, then the per-axis Max and
      Min of the dictionaries' values, which throw on an empty dictionary. */
  method BuildBounds(catalog: seq<Prefab>) returns (built: Built)
    ensures built == BuildTable(catalog)
  {
    var keys, xs, ys, zs, repeat := CalculateProductsLength(catalog);
    AwakeOutcome(catalog, keys, repeat);
    if repeat.Some? {
      return Fail(DuplicatePrefab(repeat.value));
    }
    if |keys| == 0 {
      return Fail(EmptyCatalog);
    }
    var lo, hi := Extremes(keys, xs, ys, zs);
    built := Ok(BoundsTable(keys, xs, ys, zs, lo, hi));
  }

  /** What awaking yields once CalculateProductsLength has stopped at `repeat` with the
      keys `keys`: the repeated prefab, the empty catalog, or the table over `keys`. */
  lemma AwakeOutcome(catalog: seq<Prefab>, keys: seq<Prefab>, repeat: Option<Prefab>)
    requires RepeatFrom(catalog, 0).Some? ==> repeat == Some(catalog[RepeatFrom(catalog, 0).value])
    requires RepeatFrom(catalog, 0).None? ==> repeat == None && keys == catalog
    ensures repeat.Some? ==> BuildTable(catalog) == Fail(DuplicatePrefab(repeat.value))
    ensures repeat.None? && |keys| == 0 ==> BuildTable(catalog) == Fail(EmptyCatalog)
    ensures repeat.None? && |keys| > 0 ==> BuildTable(catalog) == Ok(TableOf(keys))
  {
  }

  /** The per-axis Min and Max of the three dictionaries' values, in key order. */
  method Extremes(keys: seq<Prefab>, xs: map<Prefab, real>, ys: map<Prefab, real>, zs: map<Prefab, real>)
    returns (lo: Vec3, hi: Vec3)
    requires |keys| > 0 && xs == SizeMap(keys, Right) && ys == SizeMap(keys, Up) && zs == SizeMap(keys, Depth)
    ensures TableOf(keys) == BoundsTable(keys, xs, ys, zs, lo, hi)
  {
    var cx, cy, cz := Column(keys, xs), Column(keys, ys), Column(keys, zs);
    hi := Vec3(MaxOf(cx), MaxOf(cy), MaxOf(cz));
    lo := Vec3(MinOf(cx), MinOf(cy), MinOf(cz));
  }

  /** One entry of CalculateProductsLength: the dictionaries hold the sizes of the entries
      before `i`, so the entry at `i` is the first repeat exactly when Add finds it present;
      otherwise adding its size along each axis gives the dictionaries one entry further on. */
  lemma AddStep(prefabs: seq<Prefab>, i: nat, sx: map<Prefab, real>, sy: map<Prefab, real>, sz: map<Prefab, real>)
    requires i < |prefabs|
    requires sx == SizeMap(prefabs[..i], Right) && sy == SizeMap(prefabs[..i], Up) && sz == SizeMap(prefabs[..i], Depth)
    ensures prefabs[i] in sx ==> RepeatFrom(prefabs, i) == Some(i)
    ensures prefabs[i] !in sx ==> RepeatFrom(prefabs, i) == RepeatFrom(prefabs, i + 1)
    ensures prefabs[..i + 1] == prefabs[..i] + [prefabs[i]]
    ensures var size := CachedSizeOf(prefabs[i]);
      && sx[prefabs[i] := size.x] == SizeMap(prefabs[..i + 1], Right)
      && sy[prefabs[i] := size.y] == SizeMap(prefabs[..i + 1], Up)
      && sz[prefabs[i] := size.z] == SizeMap(prefabs[..i + 1], Depth)
  {
    assert prefabs[..i + 1] == prefabs[..i] + [prefabs[i]];
    SizeMapAppend(prefabs[..i], prefabs[i], Right);
    SizeMapAppend(prefabs[..i], prefabs[i], Up);
    SizeMapAppend(prefabs[..i], prefabs[i], Depth);
  }

  lemma FullPrefix(s: seq<Prefab>)
    ensures s[..|s|] == s
  {
  }

  /** How one area extends the iteration's log: its width loop's entries, then either the
      end of the iteration, where that loop halted, or the remaining areas. */
  lemma AreaSlot(before: seq<Placement>, after: seq<Placement>, t: BoundsTable, s: Settings, areas: seq<Area>, i: nat,
                 picks: nat -> real, pk: nat, ranges: nat -> real, rk: nat)
    requires Sound(t) && i < |areas|
    requires after == before + WidthRun(t, s, areas[i], areas[i].pivot, picks, pk, ranges, rk).items
    ensures var f := WidthRun(t, s, areas[i], areas[i].pivot, picks, pk, ranges, rk);
      f.halt != Finished ==> AreasRun(t, s, areas[i..], picks, pk, ranges, rk) == f
    ensures var f := WidthRun(t, s, areas[i], areas[i].pivot, picks, pk, ranges, rk);
      f.halt == Finished ==> Logged(before, AreasRun(t, s, areas[i..], picks, pk, ranges, rk),
                                    after, AreasRun(t, s, areas[i + 1..], picks, f.picks, ranges, f.ranges))
  {
    assert areas[i..][0] == areas[i] && areas[i..][1..] == areas[i + 1..];
  }

  /** How one slot of the depth loop extends the log: the depth copy, its stack, then the
      rest of the loop from the advanced cursor, with the next range draw. */
  lemma DepthSlot(start: seq<Placement>, whole: Run, before: seq<Placement>, after: seq<Placement>,
                  s: Settings, p: Prefab, size: Vec3, pos: Vec3,
                  count: nat, cap: real, area: Area, ranges: nat -> real, r: nat)
    requires InstanceWillFit(size, pos, area, Depth) && (count as real) < cap
    requires start + whole.items == before + DepthRun(s, p, size, pos, count, cap, area, ranges, r).items
    requires whole.used == DepthRun(s, p, size, pos, count, cap, area, ranges, r).used
    requires after == before + [Placement(p, PlaceInstance(size, pos, Depth).origin, DepthCopy)]
      + StackRun(p, size, pos, 0, Range(s.minStack, s.maxStack, ranges(r)), area)
    ensures var rest := DepthRun(s, p, size, PlaceInstance(size, pos, Depth).next, count + 1, cap, area, ranges, r + 1);
      start + whole.items == after + rest.items && whole.used == rest.used
  {
  }

  /** `log` is `start` followed by the whole fill exactly when it is `now` followed by
      the rest of it, and the rest ends where the whole does. */
  predicate Logged(start: seq<Placement>, whole: Fill, now: seq<Placement>, rest: Fill)
  {
    start + whole.items == now + rest.items
    && whole.picks == rest.picks && whole.ranges == rest.ranges && whole.halt == rest.halt
  }

  /** The width loop stops with nothing more placed once the guard fails. */
  lemma WidthRunEnds(t: BoundsTable, s: Settings, area: Area, pos: Vec3,
                     picks: nat -> real, pk: nat, ranges: nat -> real, rk: nat)
    requires Sound(t) && !AnyInstanceWillFit(t, pos, area, Right)
    ensures WidthRun(t, s, area, pos, picks, pk, ranges, rk) == Fill([], pk, rk, Finished)
  {
  }

  /** A pick outside the candidate list uses one index draw, places nothing and ends the fill. */
  lemma WidthRunNoCandidate(t: BoundsTable, s: Settings, area: Area, pos: Vec3,
                            picks: nat -> real, pk: nat, ranges: nat -> real, rk: nat)
    requires Sound(t) && AnyInstanceWillFit(t, pos, area, Right)
    requires RandProduct(t, ShelfSpareSpace(pos, area, Right), picks(pk)).None?
    ensures WidthRun(t, s, area, pos, picks, pk, ranges, rk) == Fill([], pk + 1, rk, NoCandidate)
  {
  }

  /** A face item without a Renderer of its own uses one index draw, is not positioned and
      ends the fill. */
  lemma WidthRunNoRenderer(t: BoundsTable, s: Settings, area: Area, pos: Vec3,
                           picks: nat -> real, pk: nat, ranges: nat -> real, rk: nat, p: Prefab)
    requires Sound(t) && AnyInstanceWillFit(t, pos, area, Right)
    requires RandProduct(t, ShelfSpareSpace(pos, area, Right), picks(pk)) == Some(p) && InstanceSize(p).None?
    ensures WidthRun(t, s, area, pos, picks, pk, ranges, rk) == Fill([], pk + 1, rk, MissingRenderer(p))
  {
  }

  /** How one face item of the width loop extends the log: the face item, its column,
      then the rest of the loop from the advanced cursor, which is closer to the far edge. */
  lemma WidthSlot(before: seq<Placement>, after: seq<Placement>, t: BoundsTable, s: Settings, area: Area, pos: Vec3,
                  picks: nat -> real, pk: nat, ranges: nat -> real, rk: nat, p: Prefab, size: Vec3)
    requires Sound(t)
    requires AnyInstanceWillFit(t, pos, area, Right)
    requires RandProduct(t, ShelfSpareSpace(pos, area, Right), picks(pk)) == Some(p)
    requires InstanceSize(p) == Some(size)
    requires after == before + [Placement(p, PlaceInstance(size, pos, Right).origin, Face)]
      + DepthRun(s, p, size, pos, 0, Range(s.minDepth, s.maxDepth, ranges(rk)), area, ranges, rk + 1).items
    ensures 0 <= WidthMeasure(t, area, pos)
    ensures WidthMeasure(t, area, PlaceInstance(size, pos, Right).next) < WidthMeasure(t, area, pos)
    ensures var column := DepthRun(s, p, size, pos, 0, Range(s.minDepth, s.maxDepth, ranges(rk)), area, ranges, rk + 1);
      Logged(before, WidthRun(t, s, area, pos, picks, pk, ranges, rk),
             after, WidthRun(t, s, area, PlaceInstance(size, pos, Right).next, picks, pk + 1, ranges, column.used))
  {
    WidthStep(t, s, area, pos, picks, pk, ranges, rk, p, size);
    var column := DepthRun(s, p, size, pos, 0, Range(s.minDepth, s.maxDepth, ranges(rk)), area, ranges, rk + 1);
    var rest := WidthRun(t, s, area, PlaceInstance(size, pos, Right).next, picks, pk + 1, ranges, column.used);
    AppendFace(before, Placement(p, PlaceInstance(size, pos, Right).origin, Face), column.items, rest.items);
  }

  lemma AppendFace(before: seq<Placement>, face: Placement, C: seq<Placement>, R: seq<Placement>)
    ensures before + ([face] + C + R) == (before + [face] + C) + R
  {
  }

  lemma LoggedChain(start: seq<Placement>, whole: Fill, mid: seq<Placement>, F: Fill, now: seq<Placement>, rest: Fill)
    requires Logged(start, whole, mid, F) && Logged(mid, F, now, rest)
    ensures Logged(start, whole, now, rest)
  {
  }
}
