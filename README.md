# Shelf placement randomizer — a Dafny model

This project models the core of `ShelfPlacementRandomizer`, a Unity Perception randomizer
that fills shelves with product prefabs on every iteration of a synthetic-data scenario.

- **Awaking** (`OnAwake`, `CalculateProductsLength`). The randomizer measures every catalog
  prefab once. It starts from an empty `Bounds`, encapsulates the bounds of each child
  Renderer, and adds the resulting size to three dictionaries, one per axis. Then it keeps
  the per-axis minimum and maximum of those sizes.
  - `Dictionary.Add` throws on a repeated prefab, and `Values.Min()` throws on an empty
    catalog. Both failures become the model's `BuildError`.
  - Because the union starts from the zero box, a cached size always spans the world
    origin, since `Renderer.bounds` are in world coordinates. The model keeps that too.
- **Geometry helpers**. A placement area's far edge along an axis is its collider size plus
  its pivot's coordinate. An object "will fit" when its far end lies *strictly* before that
  edge. The "any" and "longest" checks do the same with the smallest and largest cached
  sizes. The shelf's spare space is always the far edge minus the cursor's `x`.
- **Placing** (`PlaceInstance` and the origin helpers). An instance is centred on the
  footprint that starts at the cursor. The returned cursor advances only along the
  placement direction, by the instance's size.
- **Choosing a face item** (`RandProduct`, `FindShorterObjects`).
  - When the space left is at most the largest width, the candidates are the keys strictly
    narrower than that space, in key order. Otherwise every key is a candidate.
  - The index is `Mathf.Round(u * n - 0.5)` for a uniform sample `u`, with ties going to
    the even neighbour.
- **Filling** (`OnIterationStart`). Each area is filled in discovery order from its pivot,
  with three nested loops:
  - The width loop runs while the narrowest item fits.
  - Behind each face item, the depth loop runs up to a `Random.Range(minDepth, maxDepth)`
    cap.
  - On each depth slot, the stack loop runs up to a `Random.Range(minStack, maxStack)` cap.
    It starts from that slot's own start.
- **Resetting** (`OnIterationEnd`). Every pooled instance is returned, so nothing is placed
  any more.

The modules follow that structure:

- `Geometry`, `BoundsCache`, `FitPredicates`, `PlacementCursor` and `CatalogSelector` hold the
  pure helpers and their properties.
- `ShelfFill` states, as functions, exactly what one iteration places. It works from the
  bounds table and two streams of random draws: index samples and `Random.Range` unit draws.
- `FillProperties` proves what those functions guarantee: where every copy lands, how the
  caps bound the counts, how a fill can end, and that every entry lies inside its area.
- `ShelfRandomizer` is the randomizer object. It is a class whose fields are the settings,
  the cached dictionaries and extremes, the log of placed instances and the positions in
  the two draw streams.
  - Its methods run the source's loops imperatively.
  - Each method is proved to leave exactly the state that the `ShelfFill` functions
    describe.
- `ShelfScenario` works one case through: a 10 × 10 × 10 area, a single 2 × 2 × 2 product
  and unit ranges.

Two consequences of the code are worth stating on their own:

- **Filter condition**: `RandProduct` filters when the space left is *at most* the largest
  width (`<=`). It offers the whole catalog only when the space left is strictly larger.
- **Strict guard**: a 10-wide shelf of 2-wide items takes four face items, not five. The
  width guard is strict, so the width loop stops at `x = 8` (`ShelfScenario.FillEnd`).

## Model

| member | source | states |
|---|---|---|
| Geometry.Add | Assets/Randomizers/ShelfPlacementRandomizerTag.cs:242-245 | each coordinate of the sum is the sum of the coordinates |
| Geometry.Along | Assets/Randomizers/ShelfPlacementRandomizerTag.cs:223-225 | the offset vector has the length on its axis and zero on the other two |
| Geometry.Size | Assets/Randomizers/ShelfPlacementRandomizerTag.cs:266-268 | a box's size on every axis is its far corner minus its near corner |
| Geometry.EncapsulatePoint | Assets/Randomizers/ShelfPlacementRandomizerTag.cs:263 | the grown box contains the old box and the point on every axis, and each new corner coordinate is the old one or the point's, so it is the least such box |
| BoundsCache.UnionBoxCovers | Assets/Randomizers/ShelfPlacementRandomizerTag.cs:259-264 | the accumulated bounds hold the origin and both corners of every renderer box, and each of their corner coordinates is the origin's or a renderer box's corner coordinate, so they are the least box holding them |
| BoundsCache.CachedSizeDominates | Assets/Randomizers/ShelfPlacementRandomizerTag.cs:259-268 | a cached size is never negative and is at least the extent of each child renderer on every axis |
| BoundsCache.TotalBounds | Assets/Randomizers/ShelfPlacementRandomizerTag.cs:260-264 | the inner encapsulation loop yields the union of the zero box and all renderer boxes |
| BoundsCache.MinOfSpec | Assets/Randomizers/ShelfPlacementRandomizerTag.cs:59 | the minimum is an element of the values and no value is below it |
| BoundsCache.MaxOfSpec | Assets/Randomizers/ShelfPlacementRandomizerTag.cs:58 | the maximum is an element of the values and no value is above it |
| BoundsCache.RepeatFrom | Assets/Randomizers/ShelfPlacementRandomizerTag.cs:266 | the reported entry is one whose prefab already occurs earlier in the catalog |
| BoundsCache.RepeatFromSpec | Assets/Randomizers/ShelfPlacementRandomizerTag.cs:266 | `Add` never throws exactly when the catalog has no repeated prefab; before the first repeat the keys are distinct |
| BoundsCache.SizeMapAppend | Assets/Randomizers/ShelfPlacementRandomizerTag.cs:266-268 | adding one prefab adds its own size under its key and changes no other entry |
| BoundsCache.Column | Assets/Randomizers/ShelfPlacementRandomizerTag.cs:58-63 | `Values` lists one value per key, in key order, each the key's entry |
| BoundsCache.ColumnBounds | Assets/Randomizers/ShelfPlacementRandomizerTag.cs:58-63 | every key's entry lies between its dictionary's Min and Max, and the Min is not negative |
| BoundsCache.TableBounds | Assets/Randomizers/ShelfPlacementRandomizerTag.cs:58-63 | after awaking, every catalog prefab has all three sizes, those are its measured size, and each lies between that axis's minimum and maximum |
| BoundsCache.MinWidthAttained | Assets/Randomizers/ShelfPlacementRandomizerTag.cs:59 | some catalog prefab has exactly the minimum width |
| BoundsCache.TableOfValid | Assets/Randomizers/ShelfPlacementRandomizerTag.cs:57-63 | the dictionaries and extremes over a non-empty catalog form a valid table in catalog order |
| BoundsCache.BuildTableSpec | Assets/Randomizers/ShelfPlacementRandomizerTag.cs:45-64 | awaking succeeds if and only if the catalog is non-empty and has no repeats; it fails on an empty catalog if and only if it is empty; a reported duplicate occurs twice in the catalog, and its second occurrence is the first entry whose prefab was already added |
| BoundsCache.BuildTableValid | Assets/Randomizers/ShelfPlacementRandomizerTag.cs:45-64 | a successful awake yields a valid table whose key order is the catalog order |
| FitPredicates.TouchingIsRejected | Assets/Randomizers/ShelfPlacementRandomizerTag.cs:147-166 | all three fit checks reject an object whose far end lies exactly on the far edge |
| FitPredicates.FitChain | Assets/Randomizers/ShelfPlacementRandomizerTag.cs:154-166 | if the longest item fits, every catalog item fits; if a catalog item fits, the smallest fits |
| FitPredicates.SpareSpaceAlongRight | Assets/Randomizers/ShelfPlacementRandomizerTag.cs:117-120 | along Right, an object fits if and only if its width is below the spare space, and the guard holds if and only if the minimum width is below it |
| FitPredicates.SpareSpaceIgnoresDirection | Assets/Randomizers/ShelfPlacementRandomizerTag.cs:117-120 | the spare space is the room left along the direction if and only if the direction is Right or the cursor's x equals its coordinate on that axis |
| PlacementCursor.OriginPoint | Assets/Randomizers/ShelfPlacementRandomizerTag.cs:248-251 | the origin point is half the size on every axis |
| PlacementCursor.NextInstanceOriginPoint | Assets/Randomizers/ShelfPlacementRandomizerTag.cs:239-246 | the instance's centre is the cursor plus half the size on every axis |
| PlacementCursor.PlaceInstance | Assets/Randomizers/ShelfPlacementRandomizerTag.cs:213-228 | the instance is centred on its footprint; the cursor moves by the size along the direction and stays put on the other axes |
| PlacementCursor.FitMeansPlacedInside | Assets/Randomizers/ShelfPlacementRandomizerTag.cs:213-228 | the returned cursor is the far end the fit check measures, so an object fits if and only if the returned cursor lies before the far edge |
| PlacementCursor.PlaceTwice | Assets/Randomizers/ShelfPlacementRandomizerTag.cs:213-228 | two placements in a row move the cursor by the sum of the two sizes along the direction and not at all on the other axes |
| CatalogSelector.RoundHalfEven | Assets/Randomizers/ShelfPlacementRandomizerTag.cs:128 | the result is within one half of the input, and a tie rounds to an even integer |
| CatalogSelector.PickIndexInRange | Assets/Randomizers/ShelfPlacementRandomizerTag.cs:128-129 | for a draw in [0, 1) and n ≥ 1 candidates, the index is in range and is the unit bucket holding u·n: 0 at u = 0 and n − 1 at the top |
| CatalogSelector.PickIndexOnEmpty | Assets/Randomizers/ShelfPlacementRandomizerTag.cs:128-129 | with no candidates the index is 0, outside the empty list |
| CatalogSelector.FindShorterSpec | Assets/Randomizers/ShelfPlacementRandomizerTag.cs:140-145 | the filter keeps a key if and only if its size is strictly below the length, is no longer than the keys, and has no repeats when the keys have none |
| CatalogSelector.FindShorterConcat | Assets/Randomizers/ShelfPlacementRandomizerTag.cs:140-145 | the filter keeps key order: filtering two stretches of keys in a row gives the two filtered stretches in a row |
| CatalogSelector.FindShorterSingle | Assets/Randomizers/ShelfPlacementRandomizerTag.cs:142 | a single key is kept if and only if its size is below the length |
| CatalogSelector.CandidatesSpec | Assets/Randomizers/ShelfPlacementRandomizerTag.cs:124-126 | above the largest width the candidates are the whole catalog; in every case they are exactly the catalog items strictly narrower than the space left, with no repeats |
| CatalogSelector.RandProduct | Assets/Randomizers/ShelfPlacementRandomizerTag.cs:122-130 | a pick is always a candidate and a catalog prefab |
| CatalogSelector.WidthGuardPicksFitting | Assets/Randomizers/ShelfPlacementRandomizerTag.cs:122-130 | under the width guard and for a draw in [0, 1), the candidate list is non-empty, the pick succeeds, and the picked item ends before the far edge |
| ShelfFill.Range | Assets/Randomizers/ShelfPlacementRandomizerTag.cs:86 | for a unit draw in [0, 1] and lo ≤ hi, the sampled cap lies in [lo, hi] |
| ShelfFill.InstanceSize | Assets/Randomizers/ShelfPlacementRandomizerTag.cs:84 | an instance has a size if and only if its prefab has its own Renderer, and then the size is that Renderer's size |
| ShelfFill.WidthProgress | Assets/Randomizers/ShelfPlacementRandomizerTag.cs:76-85 | under the width guard, placing a catalog item moves the width cursor forward by at least the least catalog width, so the width loop ends |
| FillProperties.StackRunSpec | Assets/Randomizers/ShelfPlacementRandomizerTag.cs:98-104 | the i-th stacked copy is centred i heights above the slot start; each step had the cap and the fit check true; the loop stopped at the first step where either failed |
| FillProperties.StackRunBounds | Assets/Randomizers/ShelfPlacementRandomizerTag.cs:98-104 | the count stays below cap + 1; nothing is stacked when the cap is not above the count; every copy sits over the slot's footprint and ends below the top edge; the first shares the slot's own centre |
| FillProperties.DepthRunSpec | Assets/Randomizers/ShelfPlacementRandomizerTag.cs:88-105 | the depth loop uses one stack draw per slot and emits nothing exactly when it uses none; it stays below cap + 1 slots; the first entry is the depth copy on the face item's centre, and in every slot a stacked copy that follows its depth copy shares that depth copy's centre |
| FillProperties.WidthStep | Assets/Randomizers/ShelfPlacementRandomizerTag.cs:76-106 | one pass of the width loop: the face item at the cursor, its column, then the loop again from the advanced cursor, which is nearer the far edge |
| FillProperties.WidthRunLog | Assets/Randomizers/ShelfPlacementRandomizerTag.cs:76-106 | an area's log opens with a face item and holds only catalog prefabs; every copy repeats its face item's prefab; a column's first depth copy starts on its face item's centre, and each slot's first stacked copy on its depth copy's centre |
| FillProperties.WidthRunDraws | Assets/Randomizers/ShelfPlacementRandomizerTag.cs:76-106 | both draw streams only move forward, and nothing is placed when the smallest item does not fit at the start |
| FillProperties.WidthRunHalt | Assets/Randomizers/ShelfPlacementRandomizerTag.cs:82-84 | a missing Renderer is reported only for a catalog prefab that has none, and with draws in [0, 1) no pick falls outside the candidates |
| FillProperties.WidthRunInside | Assets/Randomizers/ShelfPlacementRandomizerTag.cs:76-106 | when instance sizes equal the cached sizes, every entry ends before the far edges it was checked against, and with draws in [0, 1) the loop ends only when the narrowest item no longer fits |
| FillProperties.AreasRunDraws | Assets/Randomizers/ShelfPlacementRandomizerTag.cs:71-107 | over all areas, both draw streams only move forward |
| FillProperties.AreasRunLog | Assets/Randomizers/ShelfPlacementRandomizerTag.cs:71-107 | every entry of an iteration is a catalog prefab |
| FillProperties.AreasRunHalt | Assets/Randomizers/ShelfPlacementRandomizerTag.cs:71-107 | an iteration halts on a missing Renderer only for a catalog prefab without one, never runs out of candidates for draws in [0, 1), and fills every area when instance sizes also equal the cached sizes |
| ShelfRandomizer.ShelfPlacementRandomizer.constructor | Assets/Randomizers/ShelfPlacementRandomizerTag.cs:23-43 | the settings, catalog and draw streams are as given; the dictionaries and the log are empty |
| ShelfRandomizer.ShelfPlacementRandomizer.Awake | Assets/Randomizers/ShelfPlacementRandomizerTag.cs:45-64 | the error reported is the build failure; without an error, the cached fields are the built table |
| ShelfRandomizer.CalculateProductsLength | Assets/Randomizers/ShelfPlacementRandomizerTag.cs:253-270 | the loop stops at the first repeated prefab, with the keys before it; without one, the keys are the whole catalog; the three dictionaries hold each key's measured size |
| ShelfRandomizer.BuildBounds | Assets/Randomizers/ShelfPlacementRandomizerTag.cs:57-63 | measuring, then taking per-axis Min and Max, yields exactly the awake outcome |
| ShelfRandomizer.AwakeOutcome | Assets/Randomizers/ShelfPlacementRandomizerTag.cs:57-63 | a repeat is a duplicate failure, no keys is the empty-catalog failure, otherwise the table over the keys |
| ShelfRandomizer.Extremes | Assets/Randomizers/ShelfPlacementRandomizerTag.cs:58-63 | the per-axis minima and maxima are those of the dictionaries' values |
| ShelfRandomizer.AddStep | Assets/Randomizers/ShelfPlacementRandomizerTag.cs:266-268 | `Add` throws at an entry if and only if its prefab is already a key; otherwise each dictionary gains the entry's size |
| ShelfRandomizer.ShelfPlacementRandomizer.Place | Assets/Randomizers/ShelfPlacementRandomizerTag.cs:213-228 | the log gains the instance at its centre, and the returned cursor is the one PlaceInstance gives |
| ShelfRandomizer.ShelfPlacementRandomizer.NextRange | Assets/Randomizers/ShelfPlacementRandomizerTag.cs:86 | Random.Range consumes exactly one unit draw |
| ShelfRandomizer.ShelfPlacementRandomizer.DrawProduct | Assets/Randomizers/ShelfPlacementRandomizerTag.cs:122-130 | the pick is RandProduct on the next index sample, and exactly one sample is used |
| ShelfRandomizer.ShelfPlacementRandomizer.FillStack | Assets/Randomizers/ShelfPlacementRandomizerTag.cs:98-104 | the log gains exactly the stack loop's copies |
| ShelfRandomizer.ShelfPlacementRandomizer.FillDepth | Assets/Randomizers/ShelfPlacementRandomizerTag.cs:88-105 | the log gains exactly the depth loop's entries, and the range stream advances by the draws it used |
| ShelfRandomizer.ShelfPlacementRandomizer.FillColumn | Assets/Randomizers/ShelfPlacementRandomizerTag.cs:85-105 | the log gains the face item and its column; the depth cap is the next draw, and the cursor moves past the face item |
| ShelfRandomizer.ShelfPlacementRandomizer.FillSlot | Assets/Randomizers/ShelfPlacementRandomizerTag.cs:78-105 | one pass of the width loop extends the log as the width function's step says, and the width measure goes down |
| ShelfRandomizer.ShelfPlacementRandomizer.FillArea | Assets/Randomizers/ShelfPlacementRandomizerTag.cs:73-106 | the log gains exactly the width loop's entries for the area; both streams end where that fill ends, and so does the halt |
| ShelfRandomizer.ShelfPlacementRandomizer.IterationStart | Assets/Randomizers/ShelfPlacementRandomizerTag.cs:66-108 | the log gains exactly the iteration's entries over all areas in order, stopping at the first halt |
| ShelfRandomizer.ShelfPlacementRandomizer.IterationEnd | Assets/Randomizers/ShelfPlacementRandomizerTag.cs:272-275 | no instance stays placed, and the cached table and settings are unchanged |
| ShelfRandomizer.AreaSlot | Assets/Randomizers/ShelfPlacementRandomizerTag.cs:71-107 | one area extends the iteration's log by its width loop's entries, then the iteration either stops with that halt or goes on with the next area |
| ShelfRandomizer.DepthSlot | Assets/Randomizers/ShelfPlacementRandomizerTag.cs:88-105 | one depth slot extends the log by its depth copy, its stack, then the rest of the depth loop |
| ShelfRandomizer.WidthSlot | Assets/Randomizers/ShelfPlacementRandomizerTag.cs:76-106 | one face item extends the log by itself, its column, then the rest of the width loop |
| ShelfRandomizer.WidthRunEnds | Assets/Randomizers/ShelfPlacementRandomizerTag.cs:76 | once the guard fails, the width loop places nothing more and ends normally |
| ShelfRandomizer.WidthRunNoCandidate | Assets/Randomizers/ShelfPlacementRandomizerTag.cs:128-129 | an index outside the candidates uses one sample, places nothing and ends the iteration |
| ShelfRandomizer.WidthRunNoRenderer | Assets/Randomizers/ShelfPlacementRandomizerTag.cs:84 | a face item without its own Renderer uses one sample, places nothing and ends the iteration |
| ShelfScenario.CubePrefab | Assets/Randomizers/ShelfPlacementRandomizerTag.cs:259-268 | a prefab with one 2 × 2 × 2 renderer at the origin measures 2 × 2 × 2 |
| ShelfScenario.OneItemTable | Assets/Randomizers/ShelfPlacementRandomizerTag.cs:45-64 | awaking on a one-item catalog succeeds with a valid table over it |
| ShelfScenario.OneItemSizes | Assets/Randomizers/ShelfPlacementRandomizerTag.cs:58-63 | with one 2-wide item, its width, the minimum and the maximum are all 2 |
| ShelfScenario.OneColumn | Assets/Randomizers/ShelfPlacementRandomizerTag.cs:88-104 | with unit caps, a column is one depth copy and one stacked copy on the face item's centre, using two range draws |
| ShelfScenario.RoomLeft | Assets/Randomizers/ShelfPlacementRandomizerTag.cs:154-159 | while the cursor is below 8, the narrowest item still fits |
| ShelfScenario.OnlyCandidate | Assets/Randomizers/ShelfPlacementRandomizerTag.cs:122-130 | with one item and the cursor below 8, every draw picks that item |
| ShelfScenario.FaceAt | Assets/Randomizers/ShelfPlacementRandomizerTag.cs:213-228 | a 2-cube placed at x is centred at x + 1, and the cursor moves to x + 2 |
| ShelfScenario.OneStep | Assets/Randomizers/ShelfPlacementRandomizerTag.cs:76-106 | below x = 8, one pass places face, depth and stack copies centred at x + 1 and continues from x + 2 |
| ShelfScenario.FillEnd | Assets/Randomizers/ShelfPlacementRandomizerTag.cs:76 | at x = 8 the strict guard stops the shelf, after four face items |

## Left out

- Unity plumbing is not modelled: the `Objects` container, the `GameObjectOneWayCache` pool, parenting transforms and the tag query. Placing an instance is appending a `Placement` to the log; returning the pool's instances empties the log. The placement areas come in as a sequence, in the order the tag query yields them.
- The engine's component queries are inputs, not computations. A prefab carries the box of its own Renderer and its child Renderers' boxes. An area carries its pivot position and its collider size.
- Each instance's bounds are taken from its prefab's own Renderer box. Rotation, scale and parent transforms are not modelled.
- `float` arithmetic is modelled as exact `real` arithmetic. `Mathf.Round` is exact round-half-to-even on reals, with no rounding of `u * n - 0.5`.
- `Random.Range(lo, hi)` is `lo + t * (hi - lo)` for a unit draw `t` from an input stream. The index sampler's `UniformSampler(0, 1)` is a second input stream. Lemmas that need draws in [0, 1) say so (`UnitDraws`).
- Dictionary enumeration order is taken to be insertion order. This holds for dictionaries that are only ever added to, which is all this code does, but .NET does not document it. The filtered dictionary built by `ToDictionary` is taken in filter order.
- `CheckIfInstanceFitsPlacementArea` is left out. Nothing calls it, and it depends on `Transform.InverseTransformPoint`. `CheckIfLongestInstanceWillFit` is also never called; it is modelled only as `LongestInstanceWillFit` in `FitChain`.
- The `ArgumentOutOfRangeException` branches for an unknown `PlaceDirection` are left out, because the model's `Axis` has only the three directions.
- `Assets/Randomizers/MyLightRandomizerTag.cs` is not part of this model.
- ShelfRandomizer.ShelfPlacementRandomizer.Awake: when `Add` throws, the source leaves the dictionaries partly filled and the extremes unset. The model reports the error and does not describe the fields after a failure.
- ShelfRandomizer.CalculateProductsLength: works on values at module level and returns the keys and dictionaries it built up to the first repeat. `Awake` then assigns the fields.
- ShelfRandomizer.ShelfPlacementRandomizer.FillArea: requires the catalog to be sound. Every prefab with its own Renderer must be wider than zero; otherwise the source's width loop can fail to end, when the draws keep picking a zero-width prefab. The other soundness conditions are that the catalog is non-empty and every key has its three sizes, which awaking guarantees.
- ShelfFill.WidthRun: has the same soundness requirement, and termination is measured by the least catalog width.
- ShelfRandomizer.WidthRunNoRenderer: in the source, the face instance is taken from the pool and parented before reading its Renderer throws. That unpositioned instance is not logged.
- CatalogSelector.RandProduct: returns `None` where the source indexes outside the candidate list and throws. A `None` ends the iteration, as the exception would.
- ShelfRandomizer.ShelfPlacementRandomizer.IterationStart: is split into `FillArea`, `FillSlot`, `FillColumn`, `FillDepth` and `FillStack`, one method per loop level of the source's single method.
- ShelfScenario.OneStep: the scenario proves one pass and the stop at `x = 8`. It does not unfold the whole four-column fill into a single equation.
