# Vertical parallax streamer (src/Parallax.js)

This project models the streaming core of `src/Parallax.js` from
play-co/devkit-parallax.

The file defines two classes:

- `ParallaxLayer` is one vertical strip. It has a spawn cursor `y`, an
  ordered-mode cursor `pieceIndex`, a list of piece options, and a FIFO
  queue `pieces` of live pieces, oldest first. `reset` re-targets a layer
  at a configuration and caches the metadata of each new piece id.
  `spawnPiece` appends one piece at the cursor. It then moves the cursor
  up by the piece's height minus one, plus a random gap.
- The exported controller owns the layers and uses the shared layer pool,
  the shared piece pool and the module-wide metadata cache `imgCache`.
  - `reset` tears every layer down (`releaseLayers`) and builds the layers
    of a level (`initializeLayers`).
  - `update` moves each layer to the integer target `~~(-screenY *
    speedRatio)`. It first releases the pieces at the front of the queue
    that lie below the visible band (`releaseOffscreenPieces`). It then
    spawns pieces until the cursor is above the band (`spawnPieces`).

`src/Parallax.js` streams along one axis (y), with no spawn budget, no
hard limits and no scaling. Spawning moves the cursor up whenever
`(height - 1) + gap` is positive, which the model requires (see the
`Parallax.Controller.SpawnPieces` line under "## Left out"); with a
non-positive step the source's spawn loop need not end.

Layout, one module per file:

- `piece_catalog.dfy` (module `PieceCatalog`): piece options, the metadata
  `cacheImage` derives, and the cache-filling fold `CacheAll` with its
  lemmas.
- `streaming.dfy` (module `Streaming`): the value-level facts,
  - where a spawned piece goes (`PieceAt`);
  - the chain a run of spawns leaves behind (`Stream`);
  - how many front pieces a release pass drops (`OffscreenCount`);
  - the ordered-mode wrap (`NextIndex`, `Mod`);
  - the order in which a teardown hands pieces back (`ReleaseOrder`);
  - the multiset bookkeeping of the piece pool;
  - JavaScript's `~~` (`Trunc`, `ToInt32`, `LayerY`).
- `parallax.dfy` (module `Parallax`): the classes. `ImageCache` stands for
  `imgCache`. `ViewPool` records what was obtained and released. Then
  come `ParallaxLayer` and `Controller`. Every loop of the source is a
  `while`/`for` loop with its invariants. The controller keeps the ghost
  state `live` (each layer's pieces) and `rank` (each layer's position,
  which makes layers distinct). Its `Valid()` states that the piece pool
  balances: every piece obtained is either live in exactly one layer or
  has been released. It also states that the layer pool balances: every
  layer obtained is either one of `layers` or has been released.
  `Session` is a client that creates a controller, resets it, updates it
  twice and resets it again, which shows that the contracts compose.

Inputs the source takes from its environment become parameters:

- `getBounds` of a loaded image is the function `ImageCache.boundsOf`.
- `gameView.player.getScreenY()` is the `screenY` argument of `Update`.
- `BG_HEIGHT` is the constant `Controller.bgHeight`.
- `choose` and `rollInt` are nondeterministic choices (`:|`) within their
  ranges.

## Model

| member | source | states |
|---|---|---|
| PieceCatalog.Derive | src/Parallax.js:66-73 | the metadata of an option: offsets `x || 0` and `y || 0`, size `width || bounds width + margins` and `height || bounds height + margins`, anchors half the size, scale and opacity 1 only when undefined (a definition; its consequences are stated by `CacheAllFresh`) |
| PieceCatalog.CacheOne | src/Parallax.js:58 | `!imgCache[piece.id] && cacheImage(piece)`: an id not yet cached gets the derived metadata, a cached one is left alone (a definition) |
| PieceCatalog.CacheAll | src/Parallax.js:54-59 | the caching loop as a fold of `CacheOne` over the options in order (a definition; `CacheAllKeys` and the lemmas below state its properties) |
| PieceCatalog.CacheAllKeys | src/Parallax.js:54-59 | after the caching loop the cache holds exactly the old ids plus the ids of the options |
| PieceCatalog.CacheAllKeepsEntries | src/Parallax.js:58 | an entry already in the cache is never overwritten by a later reset |
| PieceCatalog.CacheAllPresent | src/Parallax.js:56-59 | caching options whose ids are all present leaves the cache unchanged |
| PieceCatalog.ResetAgainUnchanged | src/Parallax.js:54-59 | resetting again with the same piece options leaves the cache exactly as the first reset left it |
| PieceCatalog.CacheAllFresh | src/Parallax.js:62-76 | an id not cached before gets the metadata of its first option: offsets default to 0 (also when 0), the size defaults to the image bounds plus margins (also when 0), the anchors are half the size, and scale and opacity default to 1 only when undefined |
| PieceCatalog.CacheAllConcat | src/Parallax.js:150-153 | caching the options of several layers in turn equals caching their concatenation |
| Streaming.PieceAt | src/Parallax.js:81-91 | the piece `spawnPiece` obtains: the layer x plus the cached x offset, the cursor plus the cached y offset, `anchorY` taken from `anchorX` as the source does, and the cached size, scale and opacity (a definition) |
| Streaming.Stream | src/Parallax.js:79-108 | a run of spawns from cursor `c` to cursor `e`: each piece sits at the cursor it was spawned at, and the cursor then moves up by its height minus one plus a gap from the range (a definition; the lemmas below state its properties) |
| Streaming.SpawnedBelow | src/Parallax.js:181 | every piece of a run was spawned while the loop condition `layer.y >= -y - BG_HEIGHT` held (a definition) |
| Streaming.LastSpawnedBelow | src/Parallax.js:181 | the last piece of a run was spawned while the loop condition held (a definition) |
| Streaming.StopsAtEdge | src/Parallax.js:181 | when the last spawn of a run happened with the cursor at or below the edge, every spawn of the run did, because the cursors strictly rise |
| Streaming.StreamSnoc | src/Parallax.js:79-108 | one more spawn at the final cursor extends a spawn chain by that piece |
| Streaming.StreamDescends | src/Parallax.js:106-108 | when every step is at least one, a chain of n spawns moves the cursor up by at least n |
| Streaming.StreamOrdered | src/Parallax.js:83-84 | the pieces of a chain sit at strictly rising spawn cursors: the first at the initial cursor, all of them below the final cursor |
| Streaming.OffscreenCount | src/Parallax.js:169-177 | the number of released front pieces: each of them lies at or below the release line, and the first kept piece (if any) lies above it |
| Streaming.OffscreenCountSplit | src/Parallax.js:172-176 | the released prefix is exactly the maximal run of offscreen pieces at the front |
| Streaming.NextIndex | src/Parallax.js:183-187 | `pieceIndex++`, reset to 0 once it reaches the number of options (a definition; `NextIndexIsSuccessorMod` states its meaning) |
| Streaming.Mod | src/Parallax.js:184-187 | the wrapped ordered cursor is below the number of options |
| Streaming.ModIsRemainder | src/Parallax.js:184-187 | the wrapped cursor is the remainder of integer division |
| Streaming.NextIndexIsSuccessorMod | src/Parallax.js:183-187 | incrementing and resetting to 0 at the end is "plus one, modulo the number of options" |
| Streaming.OrderedSnoc | src/Parallax.js:182-188 | a spawn from the option at the cursor extends an ordered run |
| Streaming.FromOptionsSnoc | src/Parallax.js:188-190 | a spawn from one of the options keeps every spawned piece drawn from the options |
| Streaming.ReleaseOrder | src/Parallax.js:133-146 | the order in which `releaseLayers` releases pieces: the last layer first, each layer's pieces from the back (a definition; `ReleaseOrderSameElements` states that it releases every piece once) |
| Streaming.ReversedSameElements | src/Parallax.js:138-141 | popping a queue from the back hands out every element exactly once |
| Streaming.ReleaseOrderSameElements | src/Parallax.js:133-146 | tearing all layers down releases every piece of every layer exactly once |
| Streaming.FlattenUpdate | src/Parallax.js:170-176 | replacing one layer's pieces changes the multiset of all live pieces by exactly the difference |
| Streaming.BalanceRelease | src/Parallax.js:173-174 | releasing a front run of a layer keeps the pool balanced (obtained = released + live) |
| Streaming.BalanceReleaseAll | src/Parallax.js:138-142 | releasing all of a layer's pieces, last first, keeps the pool balanced |
| Streaming.FlattenDropEmpty | src/Parallax.js:136 | dropping an emptied last layer leaves the live pieces unchanged |
| Streaming.BalanceSpawn | src/Parallax.js:81-92 | appending freshly obtained pieces to a layer keeps the pool balanced |
| Streaming.PopRecords | src/Parallax.js:136-144 | popping one more layer extends the piece and layer release records at their ends |
| Streaming.FlattenSnoc | src/Parallax.js:154 | appending a layer appends its pieces to the live pieces |
| Streaming.Trunc | src/Parallax.js:163 | `~~` first truncates toward zero: the result lies within one unit of the value, on the side of zero |
| Streaming.ToInt32 | src/Parallax.js:163 | `~~` then wraps into the signed 32-bit range: congruent modulo 2^32, and the identity on values already in range |
| Streaming.LayerY | src/Parallax.js:163 | the target `~~(-screenY * speedRatio)`: truncated toward zero, then wrapped into the signed 32-bit range (a definition over `Trunc` and `ToInt32`) |
| Parallax.Ticked | src/Parallax.js:163-165 | the outcome of one `update` on one layer: the offscreen prefix of the old queue is gone and the rest kept in order, a spawn chain from the old cursor follows, its last piece was spawned while the loop condition held, and the cursor is above the band (a definition) |
| Parallax.TickedIntro | src/Parallax.js:163-165 | a release pass followed by a spawn pass leaves the kept suffix of the old queue, followed by a spawn chain from the old cursor whose last piece was spawned while the loop condition held, with the cursor above the band |
| Parallax.ImageCache.constructor | src/Parallax.js:20 | the cache starts empty |
| Parallax.ViewPool.constructor | src/Parallax.js:113-120 | a pool starts with nothing obtained or released |
| Parallax.ViewPool.ObtainView | src/Parallax.js:81 | obtaining a view records it and releases nothing |
| Parallax.ViewPool.ReleaseView | src/Parallax.js:141 | releasing a view records it and obtains nothing |
| Parallax.ParallaxLayer.constructor | src/Parallax.js:25-37 | a new layer is at 0, cursor 0, unordered, speed 1, with no options, gap range or pieces |
| Parallax.ParallaxLayer.Reset | src/Parallax.js:39-60 | the layer is at 0, with cursor 0 and the given index; `ordered` defaults to false, `gapRange` to null, `speedRatio` to 1 (also when 0), and the style size and zIndex to 1 (also when 0); every option's id is cached, through the caching fold; the pieces are kept |
| Parallax.ParallaxLayer.AssignFields | src/Parallax.js:40-52 | the field assignments of `reset`, with their defaults |
| Parallax.ParallaxLayer.CachePieceOptions | src/Parallax.js:54-59 | the caching loop is the caching fold, and leaves every option's id in the cache |
| Parallax.ParallaxLayer.CacheImage | src/Parallax.js:62-77 | the cache gains (or replaces) the entry of the option's id with the derived metadata, and nothing else changes |
| Parallax.ParallaxLayer.SpawnPiece | src/Parallax.js:79-109 | exactly one piece is appended, at the cursor plus the cached offsets, taken before the cursor moves; the cursor moves up by the height minus one plus a gap from the range (0 without a range); the piece is obtained from the pool |
| Parallax.Controller.constructor | src/Parallax.js:122-126 | a controller starts with no layers, an empty cache and empty pools, all newly allocated |
| Parallax.Controller.Reset | src/Parallax.js:128-131 | afterwards there is one layer per configuration entry, each freshly reset with its index and holding no pieces; all previously live pieces were released, in teardown order, so every piece obtained has been released once; the former layers went back to the layer pool in reverse order and the new ones were obtained from it in order, each newly allocated; the cache is the fold over all the level's options |
| Parallax.Controller.ReleaseLayers | src/Parallax.js:133-146 | no layer is left; every former layer has no pieces; the pieces were released layer by layer from the last layer, each layer's from its back; every piece obtained has been released exactly once; the layers went back to the layer pool in reverse order |
| Parallax.Controller.PoppedStart | src/Parallax.js:134-135 | before the first pop nothing has been released |
| Parallax.Controller.PoppedLast | src/Parallax.js:136 | the layer popped next is one of the original layers, at its original position |
| Parallax.Controller.PoppedEnd | src/Parallax.js:135-145 | once no layer is left, the release records cover every original layer and piece |
| Parallax.Controller.PopLayer | src/Parallax.js:136-144 | one turn of the outer loop keeps the teardown invariant: one layer fewer, and its pieces and itself released |
| Parallax.Controller.PopLast | src/Parallax.js:136-144 | the last layer is popped, emptied and released, after its pieces, back to front; the layers popped before it stay empty |
| Parallax.Controller.ReleaseLast | src/Parallax.js:136-144 | the last layer's pieces are released back to front, then the layer leaves `layers` and goes back to the layer pool |
| Parallax.Controller.ReleaseLayerPieces | src/Parallax.js:137-142 | the inner loop on one layer, keeping the ghost copy of the pieces and the pool balance |
| Parallax.Controller.DropEmptyLast | src/Parallax.js:136-144 | the emptied last layer leaves `layers` and goes back to the layer pool |
| Parallax.Controller.DropEmpty | src/Parallax.js:136 | popping the emptied last layer keeps the layers distinct and the piece pool balanced |
| Parallax.Controller.DropLast | src/Parallax.js:136 | `layers.pop()` |
| Parallax.Controller.ReleasePieces | src/Parallax.js:137-142 | the inner loop empties the layer and releases its pieces last first |
| Parallax.Controller.InitializeLayers | src/Parallax.js:148-156 | the old layers are kept and one layer per entry is appended; the i-th appended layer is reset from entry i with index i and has no pieces; the layers were obtained from the layer pool in order and are newly allocated; the cache is the fold over the options |
| Parallax.Controller.AddLayers | src/Parallax.js:150-155 | the loop of `initializeLayers` appends one newly allocated layer per entry and keeps its invariant |
| Parallax.Controller.InitializedEnd | src/Parallax.js:150-155 | the loop invariant at the end gives the postcondition |
| Parallax.Controller.InitStep | src/Parallax.js:150-155 | one turn of the loop keeps its invariant, with one more layer |
| Parallax.Controller.AddLayer | src/Parallax.js:151-154 | a layer obtained from the pool, reset from the entry with its index, is appended with no pieces |
| Parallax.Controller.NewLayer | src/Parallax.js:152-153 | `obtainView` then `reset` |
| Parallax.Controller.AppendLayer | src/Parallax.js:154 | `layers.push(layer)` of a layer just obtained from the pool restores the controller's invariant, including the layer pool balance |
| Parallax.Controller.Update | src/Parallax.js:158-167 | each layer's style y is its target `~~(-screenY * speedRatio)`; each layer kept the pieces of its old queue after the offscreen prefix, followed by a spawn chain from its old cursor whose last piece was spawned while the loop condition held, and its cursor is above the band |
| Parallax.Controller.Updated | src/Parallax.js:161-166 | the outcome of `update` on every layer: its style y is its target and it is ticked from its former pieces and cursor (a definition) |
| Parallax.Controller.TickStart | src/Parallax.js:159-161 | before the loop no layer is ticked and the snapshots describe every layer |
| Parallax.Controller.TickEnd | src/Parallax.js:161-166 | once the loop has passed every layer, every layer is updated |
| Parallax.Controller.TickAll | src/Parallax.js:161-166 | the loop of `update` handles each layer in turn, and the targets stay those of the layers |
| Parallax.Controller.TickLoop | src/Parallax.js:161-166 | the loop itself: after it every layer is ticked |
| Parallax.Controller.TickNext | src/Parallax.js:161-166 | one turn of that loop updates layer `l` and no other |
| Parallax.Controller.TickLayer | src/Parallax.js:162-165 | the body of that loop on one layer |
| Parallax.Controller.Restream | src/Parallax.js:164-165 | a release pass then a spawn pass on one layer |
| Parallax.Controller.ReleaseLayerOffscreen | src/Parallax.js:164 | `releaseOffscreenPieces` on one layer keeps the pool balanced |
| Parallax.Controller.SpawnLayerPieces | src/Parallax.js:165 | `spawnPieces` on one layer appends a spawn chain whose last piece was spawned while the loop condition held, leaves the cursor above the band, and keeps the pool balanced |
| Parallax.Controller.SpawnChain | src/Parallax.js:165 | `spawnPieces` on one layer, stated as the appended spawn chain, its last spawn below the edge, the cursor above it, and the pool record |
| Parallax.Controller.ReleaseOffscreenPieces | src/Parallax.js:169-177 | only a prefix is removed, and it is exactly the maximal offscreen run at the front; the rest is kept in order; the removed pieces are released in order |
| Parallax.Controller.SpawnPieces | src/Parallax.js:179-193 | on return the cursor is above the band (nothing is spawned if it already was); the appended pieces form a spawn chain from the old cursor and come from the options; the last of them was spawned while `layer.y >= -y - BG_HEIGHT` held, so by `StopsAtEdge` every one was; in ordered mode the k-th piece comes from option (start + k) mod n and the cursor ends at (start + count) mod n, while unordered mode leaves the cursor alone; every spawned piece was obtained from the pool |
| Parallax.Controller.SpawnStep | src/Parallax.js:181-192 | one turn of the spawn loop, entered only while the loop condition holds, keeps its invariant (the new piece is the last one spawned below the edge) and moves the cursor up |
| Parallax.Controller.SpawnNext | src/Parallax.js:182-191 | the body of the spawn loop: in ordered mode it takes the option at the cursor, which then advances and wraps to 0; otherwise some option; one piece spawned from it |
| Parallax.Session | src/Parallax.js:122-167 | a client's create, `reset`, two `update`s and a second `reset` compose: every piece obtained has been released, exactly one layer per entry of the first configuration went back to the layer pool, one per entry of both configurations was obtained, and the cache is the fold over both configurations' options, so a second reset to the same configuration leaves it unchanged |
| Parallax.Start | src/Parallax.js:122-131 | a new controller after one `reset` holds one new layer per entry, the i-th reset from entry i with index i and holding no pieces, ready to update, over the fold of the options, with nothing in the piece pool and exactly its layers obtained from the layer pool |
| Parallax.ReadyUpdate | src/Parallax.js:158-167 | an `update` of a ready controller keeps it valid and ready, and changes neither its layers nor its cache |
| Parallax.ValidUpdate | src/Parallax.js:158-167 | an `update` of a ready controller keeps it valid |

## Left out

- `fadeLayer` and `animate`: tween-based opacity transitions, outside the streaming logic.
- Pool internals and object reuse: a pool is only the record of what was obtained and released. `NewLayer` allocates a new layer instead of taking a released one. Pieces are values, so `currImage`, `setImage` and the reuse of piece views are not modelled.
- `removeFromSuperview`, the `parent` option, `flipX`, `compositeOperation` and `xRange`: view-tree and rendering plumbing. The `xRange` jitter may also be fractional, so a piece's x is the layer x plus the cached offset.
- Sharing across controllers: `layerPool` and `piecePool` (src/Parallax.js:113-120) are created once, when the class is defined, and `imgCache` (line 20) is a module global, so every controller instance shares them. The model gives each controller its own cache and pools, and so says nothing about two controllers interleaving.
- The truthiness test `!imgCache[piece.id]` (line 58) is modelled as a missing key. On a plain JavaScript object, inherited keys such as `constructor` or `toString` read as present, and ids are coerced to strings, so such ids would skip caching in the source; ids are strings here and no key is inherited.
- `Image` loading and `getBounds`: asset loading is the input function `boundsOf`.
- The `parallaxConfig[levelID]` lookup in `reset`: `Controller.Reset` takes the level's configuration, a sequence of layer configurations.
- `init` of both classes and the `gameView` global: the constructors take `bgHeight` and `boundsOf` instead.
- Numbers are unbounded integers and exact reals. `~~` is modelled for finite values only, not for `NaN` or infinities. Sizes, offsets and cursors are integers. A `width` or `height` of 0 in a configuration falls back as `||` does.
- An absent `pieceOptions` in a layer configuration, which the source would crash on: a configuration always carries a (possibly empty) sequence of options.
- Parallax.Controller.SpawnPieces requires (through `SpawnReady`) what the source needs to finish. It needs an option whenever the loop is entered, because `choose([])` gives no option. It needs `gapRange.min <= gapRange.max`, because the gap is modelled as a choice from the range and an empty range has no value to choose (`rollInt`, in `src/lib/utils`, is not part of this model). It needs every step `height - 1 + min gap` to be at least 1, because without it the loop may not end. This condition is sufficient, not necessary: one-pixel pieces with a gap range such as [0, 5], or a single tall option in ordered mode, may still end.
- Parallax.Controller.Update requires `SpawnReady` of every layer, for the same reasons.
- Parallax.Controller.Update: states the release/spawn outcome of each layer, but not the ordered-mode and option-origin facts that `SpawnPieces` proves about the spawned pieces.
- Parallax.Controller.SpawnLayerPieces: passes on the cursor and the spawn chain from `SpawnPieces`, but not the ordered-mode and option-origin facts.
- Parallax.Controller.ReleaseLayerOffscreen: passes on the released prefix and the pool balance, but not the order of the release record.
- Parallax.Controller.Reset: does not restate that the former layers are emptied; `Controller.ReleaseLayers` states it.
- Parallax.Session requires every layer of the first configuration to have an option, which is more than `SpawnReady` asks (an option only when the spawn loop is entered), so that both updates can run whatever the screen y.
