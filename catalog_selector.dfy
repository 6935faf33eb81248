/** Choosing the next face item: filter the catalog by the width left on the shelf and
    pick an index from a uniform draw. */
module CatalogSelector {
  import opened Wrappers
  import opened Geometry
  import opened BoundsCache
  import opened FitPredicates

  /** Mathf.Round: the nearest integer, ties going to the even neighbour. */
  function RoundHalfEven(x: real): (k: int)
    ensures x - 0.5 <= k as real <= x + 0.5
    ensures (k as real - x == 0.5 || x - k as real == 0.5) ==> k % 2 == 0
  {
    var f := x.Floor;
    var d := x - f as real;
    if d < 0.5 then f
    else if d > 0.5 then f + 1
    else if f % 2 == 0 then f
    else f + 1
  }

  /** The index RandProduct computes from a draw `u` for `n` candidates: round(u*n - 0.5). */
  function PickIndex(u: real, n: nat): int
  {
    RoundHalfEven(u * n as real - 0.5)
  }

  /** A draw in [0, 1) scaled by a positive count, less one half, lies in [-1/2, n - 1/2). */
  lemma ScaledDraw(u: real, n: nat) returns (x: real)
    requires 0.0 <= u < 1.0 && n >= 1
    ensures x == u * n as real - 0.5
    ensures -0.5 <= x < n as real - 0.5
  {
    x := u * n as real - 0.5;
    assert (n as real) - u * n as real == (1.0 - u) * n as real;
  }

  /** The arithmetic behind PickIndexInRange, for any `k` that rounds `x` to the nearest
      integer with ties to even, where `x` lies in [-1/2, n - 1/2). */
  lemma RoundedBucket(x: real, n: nat, k: int)
    requires -0.5 <= x < n as real - 0.5
    requires x - 0.5 <= k as real <= x + 0.5
    requires (k as real - x == 0.5 || x - k as real == 0.5) ==> k % 2 == 0
    ensures 0 <= k < n
    ensures x == -0.5 ==> k == 0
    ensures x > n as real - 1.5 ==> k == n - 1
  {
  }

  /** For a draw in [0, 1) and at least one candidate the index is in range; it is the
      bucket of width 1 that holds u*n, so it is 0 at u = 0 and n - 1 once u*n exceeds n - 1. */
  lemma PickIndexInRange(u: real, n: nat)
    requires 0.0 <= u < 1.0 && n >= 1
    ensures 0 <= PickIndex(u, n) < n
    ensures PickIndex(u, n) as real <= u * n as real <= (PickIndex(u, n) + 1) as real
    ensures u == 0.0 ==> PickIndex(u, n) == 0
    ensures u * n as real > (n - 1) as real ==> PickIndex(u, n) == n - 1
  {
    var x := ScaledDraw(u, n);
    RoundedBucket(x, n, RoundHalfEven(x));
  }

  /** With no candidates the index is 0, which is outside the empty list. */
  lemma PickIndexOnEmpty(u: real)
    requires 0.0 <= u < 1.0
    ensures PickIndex(u, 0) == 0
  {
  }

  /** FindShorterObjects: the keys whose size is strictly below `length`, in key order. */
  function FindShorterObjects(keys: seq<Prefab>, sizes: map<Prefab, real>, length: real): seq<Prefab>
    requires forall i | 0 <= i < |keys| :: keys[i] in sizes
  {
    if keys == [] then []
    else (if sizes[keys[0]] < length then [keys[0]] else []) + FindShorterObjects(keys[1..], sizes, length)
  }

  /** The filter keeps exactly the keys whose size is below `length`, and repeats none
      when the keys repeat none. */
  lemma {:induction false} FindShorterSpec(keys: seq<Prefab>, sizes: map<Prefab, real>, length: real)
    requires forall i | 0 <= i < |keys| :: keys[i] in sizes
    ensures |FindShorterObjects(keys, sizes, length)| <= |keys|
    ensures forall q :: q in FindShorterObjects(keys, sizes, length) <==> q in keys && q in sizes && sizes[q] < length
    ensures Distinct(keys) ==> Distinct(FindShorterObjects(keys, sizes, length))
  {
    if keys != [] {
      FindShorterSpec(keys[1..], sizes, length);
      assert forall q :: q in keys <==> q == keys[0] || q in keys[1..];
      assert Distinct(keys) ==> keys[0] !in keys[1..] && Distinct(keys[1..]);
    }
  }

  /** FindShorterObjects keeps the dictionary's enumeration order: filtering two stretches
      of keys one after the other gives the two filtered stretches one after the other. */
  lemma {:induction false} FindShorterConcat(a: seq<Prefab>, b: seq<Prefab>, sizes: map<Prefab, real>, length: real)
    requires forall i | 0 <= i < |a| :: a[i] in sizes
    requires forall i | 0 <= i < |b| :: b[i] in sizes
    ensures forall i | 0 <= i < |a + b| :: (a + b)[i] in sizes
    ensures FindShorterObjects(a + b, sizes, length)
      == FindShorterObjects(a, sizes, length) + FindShorterObjects(b, sizes, length)
  {
    if a == [] {
      assert a + b == b;
    } else {
      FindShorterConcat(a[1..], b, sizes, length);
      assert (a + b)[0] == a[0] && (a + b)[1..] == a[1..] + b;
    }
  }

  /** A single key is kept exactly when its size is below `length`. */
  lemma FindShorterSingle(q: Prefab, sizes: map<Prefab, real>, length: real)
    requires q in sizes
    ensures FindShorterObjects([q], sizes, length) == if sizes[q] < length then [q] else []
  {
    assert [q][1..] == [];
  }

  /** The candidate list RandProduct draws from: the filtered keys when the width left is
      at most the largest width, otherwise every key. */
  function Candidates(t: BoundsTable, maxWidth: real): seq<Prefab>
    requires Keyed(t)
  {
    if maxWidth <= t.maxSize.x then FindShorterObjects(t.order, t.sizeX, maxWidth) else t.order
  }

  /** Both ways of building the candidate list give exactly the catalog items narrower
      than the width left, without repeats; above the largest width it is the catalog itself. */
  lemma CandidatesSpec(t: BoundsTable, maxWidth: real)
    requires Valid(t)
    ensures maxWidth > t.maxSize.x ==> Candidates(t, maxWidth) == t.order
    ensures forall q :: q in Candidates(t, maxWidth) <==> q in t.order && q in t.sizeX && t.sizeX[q] < maxWidth
    ensures Distinct(Candidates(t, maxWidth))
  {
    var c := Candidates(t, maxWidth);
    if maxWidth <= t.maxSize.x {
      assert c == FindShorterObjects(t.order, t.sizeX, maxWidth);
      FindShorterSpec(t.order, t.sizeX, maxWidth);
    } else {
      forall q | q in t.order ensures q in t.sizeX && t.sizeX[q] < maxWidth {
        TableBounds(t, q);
      }
    }
  }

  /** RandProduct: the candidate at the drawn index, or None where the source would index
      outside the list. */
  function RandProduct(t: BoundsTable, maxWidth: real, u: real): (r: Option<Prefab>)
    requires Keyed(t)
    ensures r.Some? ==> r.value in Candidates(t, maxWidth) && r.value in t.order
  {
    FindShorterSpec(t.order, t.sizeX, maxWidth);
    var c := Candidates(t, maxWidth);
    var k := PickIndex(u, |c|);
    if 0 <= k < |c| then Some(c[k]) else None
  }

  /** Whenever the width loop's guard holds, some catalog item is narrower than the space
      left, so for a draw in [0, 1) RandProduct succeeds, and the item it picks ends
      strictly before the far edge when placed at the cursor. */
  lemma WidthGuardPicksFitting(t: BoundsTable, pos: Vec3, area: Area, u: real)
    requires Valid(t) && 0.0 <= u < 1.0
    requires AnyInstanceWillFit(t, pos, area, Right)
    ensures |Candidates(t, ShelfSpareSpace(pos, area, Right))| > 0
    ensures RandProduct(t, ShelfSpareSpace(pos, area, Right), u).Some?
    ensures var p := RandProduct(t, ShelfSpareSpace(pos, area, Right), u).value;
      p in t.order && p in t.sizeX && pos.x + t.sizeX[p] < AreaSize(area, Right)
  {
    var space := ShelfSpareSpace(pos, area, Right);
    CandidatesSpec(t, space);
    var m := MinWidthAttained(t);
    assert m in Candidates(t, space);
    PickIndexInRange(u, |Candidates(t, space)|);
  }

}
