/** The bounds table that the randomizer builds once when it awakes: the size of
    every catalog prefab along each axis, and the smallest and largest size per axis. */
module BoundsCache {
  import opened Wrappers
  import opened Geometry

  /** A catalog prefab. `root` is the box of the Renderer on the prefab object
      itself, if it has one (what GetComponent<Renderer>() finds); `renderers` are
      the boxes of every Renderer on it and its children (GetComponentsInChildren).
      Two catalog entries are the same prefab exactly when these values are equal. */
  datatype Prefab = Prefab(id: nat, root: Option<Box>, renderers: seq<Box>)

  /** The accumulated `totalBounds`: the zero box grown by each renderer box in turn. */
  function UnionBox(rs: seq<Box>): Box
    decreases |rs|
  {
    if rs == [] then ZeroBox else Encapsulate(UnionBox(rs[..|rs| - 1]), rs[|rs| - 1])
  }

  /** The size a prefab gets in the table. */
  function CachedSizeOf(p: Prefab): Vec3
  {
    Size(UnionBox(p.renderers))
  }

  /** A corner coordinate the union can take: the origin's, or a corner coordinate of
      one of the renderer boxes. */
  predicate CornerValue(rs: seq<Box>, a: Axis, v: real)
  {
    v == 0.0 || exists i | 0 <= i < |rs| :: v == Coord(rs[i].lo, a) || v == Coord(rs[i].hi, a)
  }

  /** The union box is the least box that holds the origin and both corners of every
      renderer box: it holds them all, and each of its corner coordinates is one of them. */
  lemma {:induction false} UnionBoxCovers(rs: seq<Box>)
    ensures forall a: Axis :: Coord(UnionBox(rs).lo, a) <= 0.0 <= Coord(UnionBox(rs).hi, a)
    ensures forall i, a: Axis | 0 <= i < |rs| ::
      Coord(UnionBox(rs).lo, a) <= Coord(rs[i].lo, a) && Coord(UnionBox(rs).lo, a) <= Coord(rs[i].hi, a) &&
      Coord(rs[i].lo, a) <= Coord(UnionBox(rs).hi, a) && Coord(rs[i].hi, a) <= Coord(UnionBox(rs).hi, a)
    ensures forall a: Axis :: CornerValue(rs, a, Coord(UnionBox(rs).lo, a)) && CornerValue(rs, a, Coord(UnionBox(rs).hi, a))
    decreases |rs|
  {
    if rs != [] {
      var init := rs[..|rs| - 1];
      var last := rs[|rs| - 1];
      UnionBoxCovers(init);
      assert forall i | 0 <= i < |init| :: rs[i] == init[i];
      var u := UnionBox(init);
      var mid := EncapsulatePoint(u, last.lo);
      assert UnionBox(rs) == EncapsulatePoint(mid, last.hi);
      forall a: Axis
        ensures CornerValue(rs, a, Coord(UnionBox(rs).lo, a)) && CornerValue(rs, a, Coord(UnionBox(rs).hi, a))
      {
        CornerValueGrows(init, rs, a, Coord(u.lo, a));
        CornerValueGrows(init, rs, a, Coord(u.hi, a));
        assert Coord(last.lo, a) == Coord(rs[|rs| - 1].lo, a);
        assert Coord(last.hi, a) == Coord(rs[|rs| - 1].hi, a);
      }
    }
  }

  /** A corner value of a prefix of the renderers is a corner value of all of them. */
  lemma CornerValueGrows(init: seq<Box>, rs: seq<Box>, a: Axis, v: real)
    requires init <= rs
    requires CornerValue(init, a, v)
    ensures CornerValue(rs, a, v)
  {
    if v != 0.0 {
      var i :| 0 <= i < |init| && (v == Coord(init[i].lo, a) || v == Coord(init[i].hi, a));
      assert rs[i] == init[i];
    }
  }

  /** Every cached size is at least zero, and at least the extent of each of the
      prefab's renderer boxes, along every axis. */
  lemma CachedSizeDominates(p: Prefab)
    ensures forall a: Axis :: Coord(CachedSizeOf(p), a) >= 0.0
    ensures forall i, a: Axis | 0 <= i < |p.renderers| ::
      Coord(CachedSizeOf(p), a) >= Coord(Size(p.renderers[i]), a)
  {
    UnionBoxCovers(p.renderers);
  }

  /** The smallest element of a non-empty sequence (Enumerable.Min). */
  function MinOf(s: seq<real>): real
    requires |s| > 0
  {
    if |s| == 1 then s[0] else Min(s[0], MinOf(s[1..]))
  }

  /** The largest element of a non-empty sequence (Enumerable.Max). */
  function MaxOf(s: seq<real>): real
    requires |s| > 0
  {
    if |s| == 1 then s[0] else Max(s[0], MaxOf(s[1..]))
  }

  /** MinOf is an element of the sequence and no element is below it. */
  lemma {:induction false} MinOfSpec(s: seq<real>)
    requires |s| > 0
    ensures exists i :: 0 <= i < |s| && s[i] == MinOf(s)
    ensures forall i :: 0 <= i < |s| ==> MinOf(s) <= s[i]
  {
    if |s| > 1 {
      MinOfSpec(s[1..]);
      assert forall i :: 1 <= i < |s| ==> s[i] == s[1..][i - 1];
      var j :| 0 <= j < |s[1..]| && s[1..][j] == MinOf(s[1..]);
      if s[0] <= MinOf(s[1..]) {
        assert s[0] == MinOf(s);
      } else {
        assert s[j + 1] == MinOf(s);
      }
    } else {
      assert s[0] == MinOf(s);
    }
  }

  /** MaxOf is an element of the sequence and no element is above it. */
  lemma {:induction false} MaxOfSpec(s: seq<real>)
    requires |s| > 0
    ensures exists i :: 0 <= i < |s| && s[i] == MaxOf(s)
    ensures forall i :: 0 <= i < |s| ==> s[i] <= MaxOf(s)
  {
    if |s| > 1 {
      MaxOfSpec(s[1..]);
      assert forall i :: 1 <= i < |s| ==> s[i] == s[1..][i - 1];
      var j :| 0 <= j < |s[1..]| && s[1..][j] == MaxOf(s[1..]);
      if s[0] >= MaxOf(s[1..]) {
        assert s[0] == MaxOf(s);
      } else {
        assert s[j + 1] == MaxOf(s);
      }
    } else {
      assert s[0] == MaxOf(s);
    }
  }

  predicate Distinct(s: seq<Prefab>)
  {
    forall i, j | 0 <= i < j < |s| :: s[i] != s[j]
  }

  /** The first index from `i` on whose prefab already occurs earlier: the entry
      on which Dictionary.Add throws. */
  function RepeatFrom(s: seq<Prefab>, i: nat): (r: Option<nat>)
    requires i <= |s|
    ensures r.Some? ==> i <= r.value < |s| && s[r.value] in s[..r.value]
    decreases |s| - i
  {
    if i == |s| then None
    else if s[i] in s[..i] then Some(i)
    else RepeatFrom(s, i + 1)
  }

  /** No entry repeats an earlier one exactly when the sequence has no duplicates;
      a repeat found is a genuine first repeat. */
  lemma {:induction false} RepeatFromSpec(s: seq<Prefab>, i: nat)
    requires i <= |s|
    requires Distinct(s[..i])
    ensures RepeatFrom(s, i) == None <==> Distinct(s)
    ensures RepeatFrom(s, i).Some? ==> Distinct(s[..RepeatFrom(s, i).value])
    decreases |s| - i
  {
    if i == |s| {
      assert s[..i] == s;
    } else if s[i] in s[..i] {
      var j :| 0 <= j < i && s[..i][j] == s[i];
      assert s[j] == s[i];
    } else {
      var pre := s[..i + 1];
      assert pre == s[..i] + [s[i]];
      assert Distinct(pre);
      RepeatFromSpec(s, i + 1);
    }
  }

  /** One of the three size dictionaries: `axis`-size of every prefab in `keys`. */
  function SizeMap(keys: seq<Prefab>, axis: Axis): map<Prefab, real>
  {
    map q | q in keys :: Coord(CachedSizeOf(q), axis)
  }

  /** Adding one more prefab to a dictionary's keys adds its own size and nothing else. */
  lemma SizeMapAppend(keys: seq<Prefab>, p: Prefab, axis: Axis)
    ensures SizeMap(keys + [p], axis) == SizeMap(keys, axis)[p := Coord(CachedSizeOf(p), axis)]
  {
    var m, m' := SizeMap(keys + [p], axis), SizeMap(keys, axis)[p := Coord(CachedSizeOf(p), axis)];
    forall q ensures q in m <==> q in m' {
      assert q in keys + [p] <==> q in keys || q == p;
    }
    assert m == m';
  }

  /** The dictionary's values in enumeration (insertion) order. */
  function Column(keys: seq<Prefab>, m: map<Prefab, real>): (c: seq<real>)
    requires forall i | 0 <= i < |keys| :: keys[i] in m
    ensures |c| == |keys|
    ensures forall i | 0 <= i < |keys| :: c[i] == m[keys[i]]
  {
    seq(|keys|, i requires 0 <= i < |keys| => m[keys[i]])
  }

  /** The randomizer's cached state after a successful awake. `order` is the
      dictionaries' common key order (insertion order: they only ever see Add). */
  datatype BoundsTable = BoundsTable(
    order: seq<Prefab>,
    sizeX: map<Prefab, real>, sizeY: map<Prefab, real>, sizeZ: map<Prefab, real>,
    minSize: Vec3, maxSize: Vec3)

  /** Every key of the table has an entry in all three dictionaries. */
  predicate Keyed(t: BoundsTable)
  {
    forall i | 0 <= i < |t.order| :: t.order[i] in t.sizeX && t.order[i] in t.sizeY && t.order[i] in t.sizeZ
  }

  /** `t` is what awaking on the catalog `t.order` produces. */
  ghost predicate Valid(t: BoundsTable)
  {
    && Keyed(t)
    && |t.order| > 0
    && Distinct(t.order)
    && t.sizeX == SizeMap(t.order, Right)
    && t.sizeY == SizeMap(t.order, Up)
    && t.sizeZ == SizeMap(t.order, Depth)
    && t.minSize == Vec3(MinOf(Column(t.order, t.sizeX)), MinOf(Column(t.order, t.sizeY)), MinOf(Column(t.order, t.sizeZ)))
    && t.maxSize == Vec3(MaxOf(Column(t.order, t.sizeX)), MaxOf(Column(t.order, t.sizeY)), MaxOf(Column(t.order, t.sizeZ)))
  }

  /** The table's size of a catalog prefab along all three axes. */
  function TableSize(t: BoundsTable, p: Prefab): Vec3
    requires p in t.sizeX && p in t.sizeY && p in t.sizeZ
  {
    Vec3(t.sizeX[p], t.sizeY[p], t.sizeZ[p])
  }

  /** Along one axis: a catalog prefab's entry lies between the minimum and the
      maximum of the dictionary's values, and the minimum is not negative. */
  lemma {:induction false} ColumnBounds(keys: seq<Prefab>, axis: Axis, p: Prefab)
    requires |keys| > 0 && p in keys
    ensures p in SizeMap(keys, axis)
    ensures MinOf(Column(keys, SizeMap(keys, axis))) <= SizeMap(keys, axis)[p] <= MaxOf(Column(keys, SizeMap(keys, axis)))
    ensures MinOf(Column(keys, SizeMap(keys, axis))) >= 0.0
  {
    var m := SizeMap(keys, axis);
    var c := Column(keys, m);
    var i :| 0 <= i < |keys| && keys[i] == p;
    assert c[i] == m[p];
    MinOfSpec(c);
    MaxOfSpec(c);
    var j :| 0 <= j < |c| && c[j] == MinOf(c);
    CachedSizeDominates(keys[j]);
  }

  /** In a valid table, every cached size lies between the global minimum and maximum
      of its axis, and no global minimum is negative. */
  lemma TableBounds(t: BoundsTable, p: Prefab)
    requires Valid(t)
    requires p in t.order
    ensures p in t.sizeX && p in t.sizeY && p in t.sizeZ
    ensures TableSize(t, p) == CachedSizeOf(p)
    ensures t.minSize.x <= t.sizeX[p] <= t.maxSize.x
    ensures t.minSize.y <= t.sizeY[p] <= t.maxSize.y
    ensures t.minSize.z <= t.sizeZ[p] <= t.maxSize.z
    ensures t.minSize.x >= 0.0 && t.minSize.y >= 0.0 && t.minSize.z >= 0.0
  {
    ColumnBounds(t.order, Right, p);
    ColumnBounds(t.order, Up, p);
    ColumnBounds(t.order, Depth, p);
  }

  /** The global minimum width is attained by some catalog prefab. */
  lemma MinWidthAttained(t: BoundsTable) returns (p: Prefab)
    requires Valid(t)
    ensures p in t.order && p in t.sizeX && t.sizeX[p] == t.minSize.x
  {
    var c := Column(t.order, t.sizeX);
    MinOfSpec(c);
    var j :| 0 <= j < |c| && c[j] == t.minSize.x;
    p := t.order[j];
  }

  datatype BuildError = DuplicatePrefab(prefab: Prefab) | EmptyCatalog

  datatype Built = Ok(table: BoundsTable) | Fail(error: BuildError)

  /** OnAwake: fill the three dictionaries in catalog order (Add throws on a
      prefab already present), then take the per-axis Max and Min (which throw on
      an empty dictionary). */
  function BuildTable(catalog: seq<Prefab>): Built
  {
    match RepeatFrom(catalog, 0)
    case Some(k) => Fail(DuplicatePrefab(catalog[k]))
    case None =>
      if |catalog| == 0 then Fail(EmptyCatalog) else Ok(TableOf(catalog))
  }

  /** The dictionaries and per-axis extremes over a non-empty catalog. */
  function TableOf(catalog: seq<Prefab>): BoundsTable
    requires |catalog| > 0
  {
    var sx, sy, sz := SizeMap(catalog, Right), SizeMap(catalog, Up), SizeMap(catalog, Depth);
    BoundsTable(catalog, sx, sy, sz,
      Vec3(MinOf(Column(catalog, sx)), MinOf(Column(catalog, sy)), MinOf(Column(catalog, sz))),
      Vec3(MaxOf(Column(catalog, sx)), MaxOf(Column(catalog, sy)), MaxOf(Column(catalog, sz))))
  }

  lemma TableOfValid(catalog: seq<Prefab>)
    requires |catalog| > 0 && Distinct(catalog)
    ensures Valid(TableOf(catalog)) && TableOf(catalog).order == catalog
  {
    var t := TableOf(catalog);
    assert Keyed(t) by {
      forall i | 0 <= i < |catalog|
        ensures catalog[i] in t.sizeX && catalog[i] in t.sizeY && catalog[i] in t.sizeZ
      {
      }
    }
  }

  /** Awaking succeeds exactly on a non-empty catalog without repeated prefabs; a
      repeated prefab fails with that prefab, and an empty catalog fails as such. */
  lemma BuildTableSpec(catalog: seq<Prefab>)
    ensures BuildTable(catalog).Ok? <==> |catalog| > 0 && Distinct(catalog)
    ensures BuildTable(catalog) == Fail(EmptyCatalog) <==> |catalog| == 0
    ensures BuildTable(catalog).Fail? && BuildTable(catalog).error.DuplicatePrefab? ==>
      !Distinct(catalog) && BuildTable(catalog).error.prefab in catalog
    ensures BuildTable(catalog).Fail? && BuildTable(catalog).error.DuplicatePrefab? ==>
      exists i, j | 0 <= i < j < |catalog| ::
        && catalog[i] == catalog[j] == BuildTable(catalog).error.prefab
        && Distinct(catalog[..j])
  {
    assert catalog[..0] == [];
    RepeatFromSpec(catalog, 0);
    match RepeatFrom(catalog, 0)
    case None =>
    case Some(j) =>
      var i :| 0 <= i < j && catalog[..j][i] == catalog[j];
      assert catalog[i] == catalog[j] == BuildTable(catalog).error.prefab;
  }

  /** A successful awake yields a valid table over the catalog in its own order. */
  lemma BuildTableValid(catalog: seq<Prefab>)
    ensures BuildTable(catalog).Ok? ==> Valid(BuildTable(catalog).table) && BuildTable(catalog).table.order == catalog
  {
    BuildTableSpec(catalog);
    if BuildTable(catalog).Ok? {
      TableOfValid(catalog);
    }
  }

  /** The inner loop of CalculateProductsLength: encapsulate each renderer box in
      turn into a box that starts as `new Bounds()`. */
  method TotalBounds(renderers: seq<Box>) returns (total: Box)
    ensures total == UnionBox(renderers)
  {
    total := ZeroBox;
    for i := 0 to |renderers|
      invariant total == UnionBox(renderers[..i])
    {
      assert renderers[..i + 1][..i] == renderers[..i];
      total := Encapsulate(total, renderers[i]);
    }
    assert renderers[..|renderers|] == renderers;
  }

}
