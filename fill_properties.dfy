/** Properties of the fill: where every copy lands, how many copies the sampled caps
    allow, that the far edges are respected, that whole columns use one prefab, and
    that the width loop never runs out of candidates. */
module FillProperties {
  import opened Wrappers
  import opened Geometry
  import opened BoundsCache
  import opened FitPredicates
  import opened PlacementCursor
  import opened CatalogSelector
  import opened ShelfFill

  /** The cursor after `k` equal steps of length `d` along `a`. */
  function Stepped(pos: Vec3, a: Axis, k: nat, d: real): Vec3
  {
    Add(pos, Along(a, k as real * d))
  }

  lemma SteppedZero(pos: Vec3, a: Axis, d: real)
    ensures Stepped(pos, a, 0, d) == pos
  {
    var q := Stepped(pos, a, 0, d);
    assert forall b: Axis :: Coord(q, b) == Coord(pos, b);
    assert q.x == Coord(q, Right) && q.y == Coord(q, Up) && q.z == Coord(q, Depth);
  }

  lemma SteppedSucc(pos: Vec3, a: Axis, k: nat, d: real)
    ensures Stepped(PlaceInstance(Along(a, d), pos, a).next, a, k, d) == Stepped(pos, a, k + 1, d)
  {
    var kd := k as real * d;
    assert (k + 1) as real * d == d + kd;
    match a
    case Right =>
      assert PlaceInstance(Along(a, d), pos, a).next == Vec3(pos.x + d, pos.y, pos.z);
    case Up =>
      assert PlaceInstance(Along(a, d), pos, a).next == Vec3(pos.x, pos.y + d, pos.z);
    case Depth =>
      assert PlaceInstance(Along(a, d), pos, a).next == Vec3(pos.x, pos.y, pos.z + d);
  }

  /** Placing along `a` only looks at the size's component along `a` for the cursor. */
  lemma NextOnlyUsesAxis(size: Vec3, pos: Vec3, a: Axis)
    ensures PlaceInstance(size, pos, a).next == PlaceInstance(Along(a, Coord(size, a)), pos, a).next
  {
    var l := PlaceInstance(size, pos, a).next;
    var r := PlaceInstance(Along(a, Coord(size, a)), pos, a).next;
    assert forall b: Axis :: Coord(l, b) == Coord(r, b);
    assert l.x == Coord(l, Right) && l.y == Coord(l, Up) && l.z == Coord(l, Depth);
    assert r.x == Coord(r, Right) && r.y == Coord(r, Up) && r.z == Coord(r, Depth);
  }

  /** The stack loop exactly: the i-th copy is centred on the footprint that starts i
      heights above the slot's start; every step had both the cap and the fit check
      true; it stopped at the first step where one of them failed. So the first copy
      shares the slot's own origin, the cap is a ceiling (the count ends below cap + 1,
      and nothing is stacked when cap <= the starting count), and each copy ends strictly
      below the area's top edge. */
  lemma {:induction false} StackRunSpec(p: Prefab, size: Vec3, pos: Vec3, count: nat, cap: real, area: Area)
    ensures var S := StackRun(p, size, pos, count, cap, area);
      && (forall i | 0 <= i < |S| :: S[i] == Placement(p, NextInstanceOriginPoint(Stepped(pos, Up, i, size.y), size), StackCopy))
      && (forall i | 0 <= i < |S| :: InstanceWillFit(size, Stepped(pos, Up, i, size.y), area, Up))
      && (|S| > 0 ==> ((count + |S| - 1) as real) < cap)
      && !(((count + |S|) as real) < cap && InstanceWillFit(size, Stepped(pos, Up, |S|, size.y), area, Up))
    decreases cap.Floor - count
  {
    var S := StackRun(p, size, pos, count, cap, area);
    SteppedZero(pos, Up, size.y);
    if InstanceWillFit(size, pos, area, Up) && (count as real) < cap {
      var next := PlaceInstance(size, pos, Up).next;
      var R := StackRun(p, size, next, count + 1, cap, area);
      assert S == [Placement(p, PlaceInstance(size, pos, Up).origin, StackCopy)] + R;
      StackRunSpec(p, size, next, count + 1, cap, area);
      NextOnlyUsesAxis(size, pos, Up);
      forall k: nat ensures Stepped(next, Up, k, size.y) == Stepped(pos, Up, k + 1, size.y) {
        SteppedSucc(pos, Up, k, size.y);
      }
      forall i | 0 <= i < |S|
        ensures S[i] == Placement(p, NextInstanceOriginPoint(Stepped(pos, Up, i, size.y), size), StackCopy)
        ensures InstanceWillFit(size, Stepped(pos, Up, i, size.y), area, Up)
      {
        if i > 0 {
          assert S[i] == R[i - 1];
          assert Stepped(next, Up, i - 1, size.y) == Stepped(pos, Up, i, size.y);
        } else {
          assert PlaceInstance(size, pos, Up).origin == NextInstanceOriginPoint(pos, size);
        }
      }
    }
  }

  /** Consequences of StackRunSpec for the counts and the far edges. */
  lemma StackRunBounds(p: Prefab, size: Vec3, pos: Vec3, count: nat, cap: real, area: Area)
    ensures var S := StackRun(p, size, pos, count, cap, area);
      && (|S| == 0 || ((count + |S|) as real) < cap + 1.0)
      && (cap <= count as real ==> S == [])
      && (forall i | 0 <= i < |S| :: S[i].prefab == p && S[i].role == StackCopy)
      && (forall i | 0 <= i < |S| :: S[i].origin.x == pos.x + size.x / 2.0 && S[i].origin.z == pos.z + size.z / 2.0)
      && (forall i | 0 <= i < |S| :: S[i].origin.y + size.y / 2.0 < AreaSize(area, Up))
      && (S != [] ==> S[0].origin == NextInstanceOriginPoint(pos, size))
  {
    var S := StackRun(p, size, pos, count, cap, area);
    StackRunSpec(p, size, pos, count, cap, area);
    SteppedZero(pos, Up, size.y);
    forall i | 0 <= i < |S|
      ensures S[i].origin.x == pos.x + size.x / 2.0 && S[i].origin.z == pos.z + size.z / 2.0
      ensures S[i].origin.y + size.y / 2.0 < AreaSize(area, Up)
    {
      var q := Stepped(pos, Up, i, size.y);
      var o := NextInstanceOriginPoint(q, size);
      assert Coord(o, Right) == Coord(q, Right) + Coord(size, Right) / 2.0;
      assert Coord(o, Depth) == Coord(q, Depth) + Coord(size, Depth) / 2.0;
      assert Coord(o, Up) == Coord(q, Up) + Coord(size, Up) / 2.0;
      assert Coord(q, Right) == pos.x && Coord(q, Depth) == pos.z;
    }
  }


  /** What every entry emitted by the depth loop for a column satisfies: it is a copy of
      the column's prefab (never a face item), it sits on the column's x centre, its box
      ends strictly before the area's back edge, and a stacked copy's box ends strictly
      below the area's top edge. */
  predicate DepthItem(q: Placement, p: Prefab, size: Vec3, x: real, area: Area)
  {
    && q.prefab == p && q.role != Face
    && q.origin.x == x + size.x / 2.0
    && q.origin.z + size.z / 2.0 < AreaSize(area, Depth)
    && (q.role == StackCopy ==> q.origin.y + size.y / 2.0 < AreaSize(area, Up))
  }

  /** The depth loop: it draws one stack cap per depth slot, so the slots are the draws it
      used; it stops below cap + 1 slots and emits nothing when cap <= the starting count;
      every entry is a DepthItem; the first entry is the depth copy on the starting
      cursor's centre; and in every slot, a stacked copy that follows its depth copy
      stands on that depth copy's own centre. */
  lemma {:induction false} DepthRunSpec(s: Settings, p: Prefab, size: Vec3, pos: Vec3, count: nat, cap: real,
                                        area: Area, ranges: nat -> real, r: nat)
    ensures var D := DepthRun(s, p, size, pos, count, cap, area, ranges, r);
      && D.used >= r
      && (D.used == r <==> D.items == [])
      && (D.used == r || ((count + D.used - r) as real) < cap + 1.0)
      && (cap <= count as real ==> D == Run([], r))
      && (forall i | 0 <= i < |D.items| :: DepthItem(D.items[i], p, size, pos.x, area))
      && (D.items != [] ==> D.items[0] == Placement(p, NextInstanceOriginPoint(pos, size), DepthCopy))
      && StackStartsAtSlot(D.items)
    decreases cap.Floor - count
  {
    var D := DepthRun(s, p, size, pos, count, cap, area, ranges, r);
    if InstanceWillFit(size, pos, area, Depth) && (count as real) < cap {
      var placed := PlaceInstance(size, pos, Depth);
      var S := StackRun(p, size, pos, 0, Range(s.minStack, s.maxStack, ranges(r)), area);
      var rest := DepthRun(s, p, size, placed.next, count + 1, cap, area, ranges, r + 1);
      var copy := Placement(p, placed.origin, DepthCopy);
      assert D.items == [copy] + S + rest.items;
      DepthRunSpec(s, p, size, placed.next, count + 1, cap, area, ranges, r + 1);
      StackRunBounds(p, size, pos, 0, Range(s.minStack, s.maxStack, ranges(r)), area);
      assert placed.next.x == pos.x by {
        assert Coord(placed.next, Right) == Coord(pos, Right);
      }
      assert placed.origin == NextInstanceOriginPoint(pos, size);
      assert DepthItem(copy, p, size, pos.x, area) by {
        assert Coord(placed.origin, Right) == Coord(pos, Right) + Coord(size, Right) / 2.0;
        assert Coord(placed.origin, Depth) == Coord(pos, Depth) + Coord(size, Depth) / 2.0;
      }
      forall i | 0 <= i < |D.items| ensures DepthItem(D.items[i], p, size, pos.x, area) {
        if 1 <= i <= |S| {
          assert D.items[i] == S[i - 1];
        } else if i > |S| {
          assert D.items[i] == rest.items[i - 1 - |S|];
        }
      }
      forall i | 0 <= i < |D.items| - 1
        ensures D.items[i].role == DepthCopy && D.items[i + 1].role == StackCopy
                ==> D.items[i + 1].origin == D.items[i].origin
      {
        if i == 0 {
          if S == [] {
            assert D.items[1] == rest.items[0];
          } else {
            assert D.items[1] == S[0];
          }
        } else if i <= |S| {
          assert D.items[i] == S[i - 1];
        } else {
          assert D.items[i] == rest.items[i - 1 - |S|];
          assert D.items[i + 1] == rest.items[i - |S|];
        }
      }
    }
  }


  /** Every copy in the log repeats the prefab of the entry before it, so a column's
      depth and stack copies all use the prefab of the face item that opened it. */
  predicate CopiesFollowFace(items: seq<Placement>)
  {
    forall i | 0 < i < |items| :: items[i].role != Face ==> items[i].prefab == items[i - 1].prefab
  }

  /** The first depth copy behind a face item stands on the face item's own centre. */
  predicate DepthStartsAtFace(items: seq<Placement>)
  {
    forall i | 0 <= i < |items| - 1 :: items[i].role == Face && items[i + 1].role == DepthCopy ==> items[i + 1].origin == items[i].origin
  }

  /** A stacked copy that directly follows a depth copy stands on that depth copy's own
      centre: each slot's stack starts from the slot's own start. */
  predicate StackStartsAtSlot(items: seq<Placement>)
  {
    forall i | 0 <= i < |items| - 1 :: items[i].role == DepthCopy && items[i + 1].role == StackCopy ==> items[i + 1].origin == items[i].origin
  }

  /** Every entry of the log is a copy of a catalog prefab. */
  predicate FromCatalog(items: seq<Placement>, order: seq<Prefab>)
  {
    forall i | 0 <= i < |items| :: items[i].prefab in order
  }

  /** The shape of a width loop's log: it opens with a face item, holds only catalog
      prefabs, its copies follow their face item, a column's first depth copy starts on
      its face item's centre, and each slot's first stacked copy on its depth copy's. */
  predicate OrderedLog(items: seq<Placement>, order: seq<Prefab>)
  {
    && (items != [] ==> items[0].role == Face)
    && FromCatalog(items, order)
    && CopiesFollowFace(items)
    && DepthStartsAtFace(items)
    && StackStartsAtSlot(items)
  }

  /** Draws that lie in [0, 1), as the index sampler's UniformSampler(0, 1) promises. */
  ghost predicate UnitDraws(picks: nat -> real)
  {
    forall k: nat :: 0.0 <= picks(k) < 1.0
  }

  /** One step of the width loop: the face item at the cursor, its column, then the loop
      again from the cursor advanced past the face item, which is closer to the far edge. */
  lemma WidthStep(t: BoundsTable, s: Settings, area: Area, pos: Vec3,
                  picks: nat -> real, pk: nat, ranges: nat -> real, rk: nat, p: Prefab, size: Vec3)
    requires Sound(t)
    requires AnyInstanceWillFit(t, pos, area, Right)
    requires RandProduct(t, ShelfSpareSpace(pos, area, Right), picks(pk)) == Some(p)
    requires InstanceSize(p) == Some(size)
    ensures p in t.order
    ensures 0 <= WidthMeasure(t, area, pos)
    ensures WidthMeasure(t, area, PlaceInstance(size, pos, Right).next) < WidthMeasure(t, area, pos)
    ensures var placed := PlaceInstance(size, pos, Right);
      var column := DepthRun(s, p, size, pos, 0, Range(s.minDepth, s.maxDepth, ranges(rk)), area, ranges, rk + 1);
      var rest := WidthRun(t, s, area, placed.next, picks, pk + 1, ranges, column.used);
      && column.used > rk
      && WidthRun(t, s, area, pos, picks, pk, ranges, rk)
        == Fill([Placement(p, placed.origin, Face)] + column.items + rest.items, rest.picks, rest.ranges, rest.halt)
  {
    DepthRunSpec(s, p, size, pos, 0, Range(s.minDepth, s.maxDepth, ranges(rk)), area, ranges, rk + 1);
    WidthProgress(t, area, pos, p);
  }

  /** The width loop's log over one area: it consumes at least its own draws; nothing is
      placed when the smallest item does not fit; the log starts with a face item, holds
      only catalog prefabs, and its copies follow their face item and start on its centre. */
  lemma {:induction false} WidthRunLog(t: BoundsTable, s: Settings, area: Area, pos: Vec3,
                                       picks: nat -> real, pk: nat, ranges: nat -> real, rk: nat)
    requires Sound(t)
    ensures OrderedLog(WidthRun(t, s, area, pos, picks, pk, ranges, rk).items, t.order)
    decreases WidthMeasure(t, area, pos)
  {
    var F := WidthRun(t, s, area, pos, picks, pk, ranges, rk);
    if AnyInstanceWillFit(t, pos, area, Right) {
      var space := ShelfSpareSpace(pos, area, Right);
      match RandProduct(t, space, picks(pk))
      case None => {}
      case Some(p) => {
        match InstanceSize(p)
        case None => {}
        case Some(size) => {
          var placed := PlaceInstance(size, pos, Right);
          var cap := Range(s.minDepth, s.maxDepth, ranges(rk));
          var column := DepthRun(s, p, size, pos, 0, cap, area, ranges, rk + 1);
          WidthStep(t, s, area, pos, picks, pk, ranges, rk, p, size);
          var rest := WidthRun(t, s, area, placed.next, picks, pk + 1, ranges, column.used);
          WidthRunLog(t, s, area, placed.next, picks, pk + 1, ranges, column.used);
          ColumnThenRest(s, p, size, pos, cap, area, ranges, rk + 1, rest.items, t.order);
          assert F.items == [Placement(p, placed.origin, Face)] + column.items + rest.items;
        }
      }
    }
  }

  /** The width loop over one area moves both draw streams forward only, and places
      nothing when the smallest catalog item does not fit at the starting cursor. */
  lemma {:induction false} WidthRunDraws(t: BoundsTable, s: Settings, area: Area, pos: Vec3,
                                         picks: nat -> real, pk: nat, ranges: nat -> real, rk: nat)
    requires Sound(t)
    ensures var F := WidthRun(t, s, area, pos, picks, pk, ranges, rk);
      && F.picks >= pk && F.ranges >= rk
      && (!AnyInstanceWillFit(t, pos, area, Right) ==> F == Fill([], pk, rk, Finished))
    decreases WidthMeasure(t, area, pos)
  {
    if AnyInstanceWillFit(t, pos, area, Right) {
      var space := ShelfSpareSpace(pos, area, Right);
      match RandProduct(t, space, picks(pk))
      case None => {}
      case Some(p) => {
        match InstanceSize(p)
        case None => {}
        case Some(size) => {
          var placed := PlaceInstance(size, pos, Right);
          var cap := Range(s.minDepth, s.maxDepth, ranges(rk));
          var column := DepthRun(s, p, size, pos, 0, cap, area, ranges, rk + 1);
          WidthStep(t, s, area, pos, picks, pk, ranges, rk, p, size);
          WidthRunDraws(t, s, area, placed.next, picks, pk + 1, ranges, column.used);
        }
      }
    }
  }

  /** How the width loop over one area can end: a missing Renderer is reported for a
      catalog prefab that has none, and with index draws in [0, 1) the loop never reaches
      an empty candidate list. */
  lemma {:induction false} WidthRunHalt(t: BoundsTable, s: Settings, area: Area, pos: Vec3,
                                        picks: nat -> real, pk: nat, ranges: nat -> real, rk: nat)
    requires Valid(t) && Sound(t)
    ensures var F := WidthRun(t, s, area, pos, picks, pk, ranges, rk);
      && (F.halt.MissingRenderer? ==> F.halt.prefab in t.order && F.halt.prefab.root.None?)
      && (UnitDraws(picks) ==> F.halt != NoCandidate)
    decreases WidthMeasure(t, area, pos)
  {
    var F := WidthRun(t, s, area, pos, picks, pk, ranges, rk);
    if AnyInstanceWillFit(t, pos, area, Right) {
      var space := ShelfSpareSpace(pos, area, Right);
      CandidatesSpec(t, space);
      match RandProduct(t, space, picks(pk))
      case None => {
        if UnitDraws(picks) {
          WidthGuardPicksFitting(t, pos, area, picks(pk));
        }
      }
      case Some(p) => {
        assert p in t.order;
        match InstanceSize(p)
        case None => {
          assert F == Fill([], pk + 1, rk, MissingRenderer(p));
        }
        case Some(size) => {
          var placed := PlaceInstance(size, pos, Right);
          var cap := Range(s.minDepth, s.maxDepth, ranges(rk));
          var column := DepthRun(s, p, size, pos, 0, cap, area, ranges, rk + 1);
          TableBounds(t, t.order[0]);
          WidthProgress(t, area, pos, p);
          WidthRunHalt(t, s, area, placed.next, picks, pk + 1, ranges, column.used);
        }
      }
    }
  }

  /** A face item placed at `pos`, the depth loop run behind it, then the rest of the
      width loop's log: the facts of WidthRunLog carry over from the parts to the whole. */
  lemma ColumnThenRest(s: Settings, p: Prefab, size: Vec3, pos: Vec3, cap: real, area: Area,
                       ranges: nat -> real, r: nat, R: seq<Placement>, order: seq<Prefab>)
    requires p in order
    requires OrderedLog(R, order)
    ensures DepthRun(s, p, size, pos, 0, cap, area, ranges, r).used >= r
    ensures OrderedLog([Placement(p, PlaceInstance(size, pos, Right).origin, Face)]
                       + DepthRun(s, p, size, pos, 0, cap, area, ranges, r).items + R, order)
  {
    DepthRunSpec(s, p, size, pos, 0, cap, area, ranges, r);
    var face := Placement(p, PlaceInstance(size, pos, Right).origin, Face);
    assert face.origin == NextInstanceOriginPoint(pos, size);
    LogConcat(face, DepthRun(s, p, size, pos, 0, cap, area, ranges, r).items, R, size, pos.x, area, order);
  }

  /** A face item, the copies of its column and then the rest of the width loop's log:
      the log facts carry over from the parts to the whole. */
  lemma LogConcat(face: Placement, C: seq<Placement>, R: seq<Placement>,
                       size: Vec3, x: real, area: Area, order: seq<Prefab>)
    requires face.role == Face && face.prefab in order
    requires forall i | 0 <= i < |C| :: DepthItem(C[i], face.prefab, size, x, area)
    requires C != [] ==> C[0].origin == face.origin
    requires StackStartsAtSlot(C)
    requires OrderedLog(R, order)
    ensures OrderedLog([face] + C + R, order)
  {
    var L := [face] + C + R;
    var p := face.prefab;
    forall i | 0 <= i < |L| ensures L[i].prefab in order {
      if 1 <= i <= |C| {
        assert L[i] == C[i - 1];
      } else if i > |C| {
        assert L[i] == R[i - 1 - |C|];
      }
    }
    forall i | 0 < i < |L|
      ensures L[i].role != Face ==> L[i].prefab == L[i - 1].prefab
    {
      if i <= |C| {
        assert L[i] == C[i - 1];
        assert DepthItem(C[i - 1], p, size, x, area);
        if i > 1 {
          assert L[i - 1] == C[i - 2];
          assert DepthItem(C[i - 2], p, size, x, area);
        }
      } else if i == |C| + 1 {
        assert L[i] == R[0];
      } else {
        assert L[i] == R[i - 1 - |C|];
        assert L[i - 1] == R[i - 2 - |C|];
      }
    }
    forall i | 0 <= i < |L| - 1
      ensures L[i].role == Face && L[i + 1].role == DepthCopy ==> L[i + 1].origin == L[i].origin
    {
      if i == 0 {
        if C == [] {
          assert L[1] == R[0];
        } else {
          assert L[1] == C[0];
        }
      } else if i <= |C| {
        assert L[i] == C[i - 1];
        assert DepthItem(C[i - 1], p, size, x, area);
      } else {
        assert L[i] == R[i - 1 - |C|];
        assert L[i + 1] == R[i - |C|];
      }
    }
    forall i | 0 <= i < |L| - 1
      ensures L[i].role == DepthCopy && L[i + 1].role == StackCopy ==> L[i + 1].origin == L[i].origin
    {
      if 1 <= i < |C| {
        assert L[i] == C[i - 1] && L[i + 1] == C[i];
      } else if i == |C| && i > 0 {
        assert L[i + 1] == R[0];
      } else if i > |C| {
        assert L[i] == R[i - 1 - |C|];
        assert L[i + 1] == R[i - |C|];
      }
    }
  }


  /** The instance size of every catalog prefab is its cached size: the prefab has its own
      Renderer and that Renderer's box has the size of the union of its child Renderers. */
  ghost predicate SizesAgree(t: BoundsTable)
  {
    forall i | 0 <= i < |t.order| :: t.order[i].root.Some? && Size(t.order[i].root.value) == CachedSizeOf(t.order[i])
  }

  /** A placed entry ends strictly before the far edges it was checked against: every
      entry before the right edge, a copy also before the back edge, a stacked copy also
      below the top edge (the half size beyond the centre is where its box ends). */
  predicate InsideArea(q: Placement, area: Area)
  {
    && q.prefab.root.Some?
    && var size := Size(q.prefab.root.value);
    && q.origin.x + size.x / 2.0 < AreaSize(area, Right)
    && (q.role != Face ==> q.origin.z + size.z / 2.0 < AreaSize(area, Depth))
    && (q.role == StackCopy ==> q.origin.y + size.y / 2.0 < AreaSize(area, Up))
  }

  /** A face item, its column and the rest of the log: when the face item ends before the
      right edge and so does the rest, so does the whole. */
  lemma ColumnInside(s: Settings, p: Prefab, pos: Vec3, cap: real, area: Area,
                     ranges: nat -> real, r: nat, R: seq<Placement>)
    requires p.root.Some?
    requires pos.x + Size(p.root.value).x < AreaSize(area, Right)
    requires forall i | 0 <= i < |R| :: InsideArea(R[i], area)
    ensures var size := Size(p.root.value);
      var L := [Placement(p, PlaceInstance(size, pos, Right).origin, Face)]
               + DepthRun(s, p, size, pos, 0, cap, area, ranges, r).items + R;
      forall i | 0 <= i < |L| :: InsideArea(L[i], area)
  {
    var size := Size(p.root.value);
    var C := DepthRun(s, p, size, pos, 0, cap, area, ranges, r).items;
    var face := Placement(p, PlaceInstance(size, pos, Right).origin, Face);
    DepthRunSpec(s, p, size, pos, 0, cap, area, ranges, r);
    assert InsideArea(face, area) by {
      assert Coord(face.origin, Right) == Coord(pos, Right) + Coord(size, Right) / 2.0;
    }
    var L := [face] + C + R;
    forall i | 0 <= i < |L| ensures InsideArea(L[i], area) {
      if 1 <= i <= |C| {
        assert L[i] == C[i - 1];
        assert DepthItem(C[i - 1], p, size, pos.x, area);
      } else if i > |C| {
        assert L[i] == R[i - 1 - |C|];
      }
    }
  }

  /** When instance sizes agree with the cached sizes, every entry the width loop places
      ends strictly before the area's far edges it was checked against, no face item lacks
      a Renderer, and with index draws in [0, 1) the loop ends only when the smallest
      catalog item no longer fits. */
  lemma {:induction false} WidthRunInside(t: BoundsTable, s: Settings, area: Area, pos: Vec3,
                                          picks: nat -> real, pk: nat, ranges: nat -> real, rk: nat)
    requires Valid(t) && Sound(t) && SizesAgree(t)
    ensures var F := WidthRun(t, s, area, pos, picks, pk, ranges, rk);
      && (forall i | 0 <= i < |F.items| :: InsideArea(F.items[i], area))
      && !F.halt.MissingRenderer?
      && (UnitDraws(picks) ==> F.halt == Finished)
    decreases WidthMeasure(t, area, pos)
  {
    if AnyInstanceWillFit(t, pos, area, Right) {
      var space := ShelfSpareSpace(pos, area, Right);
      WidthRunHalt(t, s, area, pos, picks, pk, ranges, rk);
      match RandProduct(t, space, picks(pk))
      case None => {}
      case Some(p) => {
        CandidatesSpec(t, space);
        TableBounds(t, p);
        assert p.root.Some? && Size(p.root.value) == CachedSizeOf(p) by {
          var j :| 0 <= j < |t.order| && t.order[j] == p;
        }
        var size := InstanceSize(p).value;
        assert pos.x + size.x < AreaSize(area, Right);
        var placed := PlaceInstance(size, pos, Right);
        var cap := Range(s.minDepth, s.maxDepth, ranges(rk));
        var column := DepthRun(s, p, size, pos, 0, cap, area, ranges, rk + 1);
        WidthStep(t, s, area, pos, picks, pk, ranges, rk, p, size);
        var rest := WidthRun(t, s, area, placed.next, picks, pk + 1, ranges, column.used);
        WidthRunInside(t, s, area, placed.next, picks, pk + 1, ranges, column.used);
        ColumnInside(s, p, pos, cap, area, ranges, rk + 1, rest.items);
      }
    }
  }

  /** One iteration over all placement areas moves both draw streams forward only. */
  lemma {:induction false} AreasRunDraws(t: BoundsTable, s: Settings, areas: seq<Area>,
                                         picks: nat -> real, pk: nat, ranges: nat -> real, rk: nat)
    requires Sound(t)
    ensures var F := AreasRun(t, s, areas, picks, pk, ranges, rk);
      F.picks >= pk && F.ranges >= rk
    decreases |areas|
  {
    if areas != [] {
      var f := WidthRun(t, s, areas[0], areas[0].pivot, picks, pk, ranges, rk);
      WidthRunDraws(t, s, areas[0], areas[0].pivot, picks, pk, ranges, rk);
      if f.halt == Finished {
        AreasRunDraws(t, s, areas[1..], picks, f.picks, ranges, f.ranges);
      }
    }
  }

  /** Every entry one iteration places is a catalog prefab. */
  lemma {:induction false} AreasRunLog(t: BoundsTable, s: Settings, areas: seq<Area>,
                                       picks: nat -> real, pk: nat, ranges: nat -> real, rk: nat)
    requires Sound(t)
    ensures FromCatalog(AreasRun(t, s, areas, picks, pk, ranges, rk).items, t.order)
    decreases |areas|
  {
    if areas != [] {
      var f := WidthRun(t, s, areas[0], areas[0].pivot, picks, pk, ranges, rk);
      WidthRunLog(t, s, areas[0], areas[0].pivot, picks, pk, ranges, rk);
      if f.halt == Finished {
        var rest := AreasRun(t, s, areas[1..], picks, f.picks, ranges, f.ranges);
        AreasRunLog(t, s, areas[1..], picks, f.picks, ranges, f.ranges);
        var L := f.items + rest.items;
        forall i | 0 <= i < |L| ensures L[i].prefab in t.order {
          if i >= |f.items| {
            assert L[i] == rest.items[i - |f.items|];
          } else {
            assert L[i] == f.items[i];
          }
        }
      }
    }
  }

  /** How one iteration can end: a missing Renderer is reported only for a catalog prefab
      without one; with index draws in [0, 1) no area runs out of candidates; and when
      instance sizes also agree with the cached sizes, every area is filled to the end. */
  lemma {:induction false} AreasRunHalt(t: BoundsTable, s: Settings, areas: seq<Area>,
                                        picks: nat -> real, pk: nat, ranges: nat -> real, rk: nat)
    requires Valid(t) && Sound(t)
    ensures var F := AreasRun(t, s, areas, picks, pk, ranges, rk);
      && (F.halt.MissingRenderer? ==> F.halt.prefab in t.order && F.halt.prefab.root.None?)
      && (UnitDraws(picks) ==> F.halt != NoCandidate)
      && (UnitDraws(picks) && SizesAgree(t) ==> F.halt == Finished)
    decreases |areas|
  {
    if areas != [] {
      var f := WidthRun(t, s, areas[0], areas[0].pivot, picks, pk, ranges, rk);
      WidthRunHalt(t, s, areas[0], areas[0].pivot, picks, pk, ranges, rk);
      if SizesAgree(t) {
        WidthRunInside(t, s, areas[0], areas[0].pivot, picks, pk, ranges, rk);
      }
      if f.halt == Finished {
        AreasRunHalt(t, s, areas[1..], picks, f.picks, ranges, f.ranges);
      }
    }
  }

}
