/**
 * The two classes of src/Parallax.js: `ParallaxLayer`, one vertically
 * streaming strip with a spawn cursor and a FIFO of live pieces, and the
 * exported controller that owns the layers, the piece pool and the
 * metadata cache.
 */
module Parallax {
  import opened PieceCatalog
  import opened Streaming

  /** One entry of a level's layer configuration; `None` is an absent property. */
  datatype LayerConfig = LayerConfig(
    ordered: Option<bool>,
    pieceOptions: seq<PieceConfig>,
    gapRange: Option<GapRange>,
    speedRatio: Option<real>,
    width: Option<int>,
    height: Option<int>,
    zIndex: Option<int>)

  /** JavaScript's `v || false`. */
  function OrFalse(v: Option<bool>): bool {
    v.Some? && v.value
  }

  /** JavaScript's `v || d` on an optional real: both an absent value and 0 fall back. */
  function OrReal(v: Option<real>, d: real): real {
    if v.Some? && v.value != 0.0 then v.value else d
  }

  /** The piece options of a whole level, layer by layer. */
  function ConfigOptions(config: seq<LayerConfig>): seq<PieceConfig>
    decreases |config|
  {
    if config == [] then []
    else ConfigOptions(config[..|config| - 1]) + config[|config| - 1].pieceOptions
  }

  /** The module-wide `imgCache`; `boundsOf` stands for loading an image and reading its bounds. */
  class ImageCache {
    var entries: Cache
    const boundsOf: string -> Bounds

    constructor (boundsOf: string -> Bounds)
      ensures entries == map[] && this.boundsOf == boundsOf
    {
      entries := map[];
      this.boundsOf := boundsOf;
    }
  }

  /** A view pool, abstracted to the record of what was obtained from it and released to it. */
  class ViewPool<T> {
    var obtained: seq<T>
    var released: seq<T>

    constructor ()
      ensures obtained == [] && released == []
    {
      obtained, released := [], [];
    }

    method ObtainView(v: T)
      modifies this`obtained
      ensures obtained == old(obtained) + [v] && released == old(released)
    {
      obtained := obtained + [v];
    }

    method ReleaseView(v: T)
      modifies this`released
      ensures released == old(released) + [v] && obtained == old(obtained)
    {
      released := released + [v];
    }
  }

  /** The ordered-mode cursor points at an option, or is still 0. */
  predicate CursorOk(pieceIndex: nat, opts: seq<PieceConfig>) {
    pieceIndex == 0 || pieceIndex < |opts|
  }

  /**
   * What a spawn pass at target `layerY` needs to run to completion on a
   * layer whose cursor is `cursor`: an option to choose from whenever the
   * loop is entered, a usable gap range, and steps that move the cursor.
   */
  ghost predicate SpawnReady(cursor: int, opts: seq<PieceConfig>, gr: Option<GapRange>, entries: Cache,
                             layerY: int, bgHeight: int)
  {
    && (cursor >= -layerY - bgHeight ==> |opts| > 0)
    && GapRangeValid(gr)
    && StepsPositive(opts, entries, gr)
  }

  class ParallaxLayer {
    var x: int
    var y: int                       // the spawn cursor; spawning moves it up (towards smaller y)
    var index: nat
    var ordered: bool
    var pieceIndex: nat
    var pieceOptions: seq<PieceConfig>
    var gapRange: Option<GapRange>
    var speedRatio: real
    var pieces: seq<Piece>           // live pieces, oldest first
    var width: int                   // style.width
    var height: int                  // style.height
    var zIndex: int                  // style.zIndex
    var styleY: int                  // style.y, set by the controller's update

    /** The layer's ordered-mode cursor is usable. */
    ghost predicate Valid()
      reads this`pieceIndex, this`pieceOptions
    {
      CursorOk(pieceIndex, pieceOptions)
    }

    /** Every option of the layer has an entry in the metadata cache. */
    ghost predicate Cached(entries: Cache)
      reads this`pieceOptions
    {
      forall i :: 0 <= i < |pieceOptions| ==> pieceOptions[i].id in entries
    }

    /** The fields `reset(config, i)` assigns. */
    ghost predicate ResetFrom(config: LayerConfig, i: nat)
      reads this`x, this`y, this`index, this`ordered, this`pieceIndex, this`pieceOptions,
            this`gapRange, this`speedRatio, this`width, this`height, this`zIndex
    {
      && x == 0 && y == 0 && index == i
      && ordered == OrFalse(config.ordered)
      && pieceIndex == 0
      && pieceOptions == config.pieceOptions
      && gapRange == config.gapRange
      && speedRatio == OrReal(config.speedRatio, 1.0)
      && width == OrInt(config.width, 1)
      && height == OrInt(config.height, 1)
      && zIndex == OrInt(config.zIndex, 1)
    }

    constructor ()
      ensures x == 0 && y == 0 && index == 0 && !ordered && pieceIndex == 0
      ensures pieceOptions == [] && gapRange == None && speedRatio == 1.0 && pieces == []
      ensures Valid()
    {
      x, y, index := 0, 0, 0;
      ordered := false;
      pieceIndex := 0;
      pieceOptions := [];
      gapRange := None;
      speedRatio := 1.0;
      pieces := [];
      width, height, zIndex, styleY := 0, 0, 0, 0;
    }

    /** Re-targets the layer at `config`, caching the metadata of every option not yet cached. */
    method Reset(config: LayerConfig, i: nat, cache: ImageCache)
      modifies this, cache`entries
      ensures ResetFrom(config, i) && Valid() && Cached(cache.entries)
      ensures pieces == old(pieces) && styleY == old(styleY)
      ensures cache.entries == CacheAll(old(cache.entries), config.pieceOptions, cache.boundsOf)
    {
      AssignFields(config, i);
      CachePieceOptions(config.pieceOptions, cache);
    }

    /** The assignments of `reset`: position, cursor, options, gaps, speed and style defaults. */
    method AssignFields(config: LayerConfig, i: nat)
      modifies this`x, this`y, this`index, this`ordered, this`pieceIndex, this`pieceOptions,
               this`gapRange, this`speedRatio, this`width, this`height, this`zIndex
      ensures ResetFrom(config, i)
    {
      x := 0;
      y := 0;
      index := i;
      ordered := OrFalse(config.ordered);
      pieceIndex := 0;
      pieceOptions := config.pieceOptions;
      gapRange := config.gapRange;
      speedRatio := OrReal(config.speedRatio, 1.0);
      width := OrInt(config.width, 1);
      height := OrInt(config.height, 1);
      zIndex := OrInt(config.zIndex, 1);
    }

    /** The caching loop of `reset`: caches every option whose id has no entry yet. */
    method CachePieceOptions(opts: seq<PieceConfig>, cache: ImageCache)
      modifies cache`entries
      ensures cache.entries == CacheAll(old(cache.entries), opts, cache.boundsOf)
      ensures forall k :: 0 <= k < |opts| ==> opts[k].id in cache.entries
    {
      for k := 0 to |opts|
        invariant cache.entries == CacheAll(old(cache.entries), opts[..k], cache.boundsOf)
      {
        if opts[k].id !in cache.entries {
          CacheImage(opts[k], cache);
        }
        assert opts[..k + 1][..k] == opts[..k];
      }
      assert opts[..|opts|] == opts;
      CacheAllKeys(old(cache.entries), opts, cache.boundsOf);
      forall k | 0 <= k < |opts| ensures opts[k].id in cache.entries {
        assert opts[k].id in Ids(opts);
      }
    }

    /** Derives the metadata of one piece option and stores it under the option's id. */
    method CacheImage(data: PieceConfig, cache: ImageCache)
      modifies cache`entries
      ensures cache.entries == old(cache.entries)[data.id := Derive(data, cache.boundsOf(data.image))]
    {
      cache.entries := cache.entries[data.id := Derive(data, cache.boundsOf(data.image))];
    }

    /**
     * Appends one piece at the cursor and moves the cursor up by the piece's
     * height minus one (a one-pixel overlap) plus a gap drawn from `gapRange`.
     */
    method SpawnPiece(data: PieceConfig, pool: ViewPool<Piece>, cache: ImageCache)
      requires data.id in cache.entries
      requires GapRangeValid(gapRange)
      modifies this`y, this`pieces, pool`obtained
      ensures var d := cache.entries[data.id];
              && pieces == old(pieces) + [PieceAt(data.id, d, x, old(y))]
              && InGapRange(gapRange, old(y) - y - (d.height - 1))
      ensures pool.obtained == old(pool.obtained) + [pieces[|pieces| - 1]]
      ensures pool.released == old(pool.released)
    {
      var imgData := cache.entries[data.id];
      var piece := PieceAt(data.id, imgData, x, y);
      pool.ObtainView(piece);
      pieces := pieces + [piece];
      var gap := 0;
      if gapRange.Some? {
        gap :| gapRange.value.min <= gap <= gapRange.value.max;   // rollInt(min, max)
      }
      y := y - ((imgData.height - 1) + gap);
    }
  }

  /**
   * The outcome of one `update` at target `layerY` on a layer (at `x`, with
   * gap range `gr`) whose pieces were `pieces0` and whose cursor was `y0`,
   * and which now has `pieces` and cursor `y`: the offscreen prefix is gone,
   * the rest is kept in order, a spawn chain from `y0` follows, and the
   * cursor is above the band.
   */
  ghost predicate Ticked(pieces: seq<Piece>, y: int, x: int, gr: Option<GapRange>, layerY: int,
                         pieces0: seq<Piece>, y0: int, entries: Cache, bgHeight: int)
  {
    var kept := pieces0[OffscreenCount(pieces0, -layerY + bgHeight)..];
    && |kept| <= |pieces| && pieces[..|kept|] == kept
    && Stream(entries, x, gr, y0, pieces[|kept|..], y)
    && LastSpawnedBelow(entries, pieces[|kept|..], -layerY - bgHeight)
    && y < -layerY - bgHeight
  }

  /** A release pass followed by a spawn pass establishes `Ticked`. */
  lemma TickedIntro(pieces: seq<Piece>, y: int, x: int, gr: Option<GapRange>, layerY: int,
                    pieces0: seq<Piece>, y0: int, entries: Cache, bgHeight: int,
                    gone: seq<Piece>, kept: seq<Piece>, spawned: seq<Piece>)
    requires pieces0 == gone + kept && |gone| == OffscreenCount(pieces0, -layerY + bgHeight)
    requires pieces == kept + spawned
    requires Stream(entries, x, gr, y0, spawned, y) && y < -layerY - bgHeight
    requires LastSpawnedBelow(entries, spawned, -layerY - bgHeight)
    ensures Ticked(pieces, y, x, gr, layerY, pieces0, y0, entries, bgHeight)
  {
    assert pieces0[|gone|..] == kept;
    assert pieces[..|kept|] == kept && pieces[|kept|..] == spawned;
  }

  /** The state of a layer and the piece pool when a spawn pass begins. */
  datatype SpawnStart = SpawnStart(y: int, pieceIndex: nat, pieces: seq<Piece>,
                                   obtained: seq<Piece>, released: seq<Piece>)

  /**
   * The invariant of a spawn pass that began in `s0` and has spawned
   * `spawned` so far: the new pieces are appended, form a chain from the
   * initial cursor, come from the options (in cursor order when ordered),
   * and were obtained from the pool.
   */
  ghost predicate Spawning(l: ParallaxLayer, pool: ViewPool<Piece>, entries: Cache, s0: SpawnStart, edge: int,
                          spawned: seq<Piece>)
    reads l`pieceIndex, l`pieceOptions, l`gapRange, l`pieces, l`x, l`y, l`ordered, pool`obtained, pool`released
  {
    && l.Valid() && |l.pieceOptions| > 0
    && GapRangeValid(l.gapRange) && StepsPositive(l.pieceOptions, entries, l.gapRange)
    && l.pieces == s0.pieces + spawned
    && Stream(entries, l.x, l.gapRange, s0.y, spawned, l.y)
    && LastSpawnedBelow(entries, spawned, edge)
    && FromOptions(l.pieceOptions, spawned)
    && (l.ordered ==>
          OrderedFrom(l.pieceOptions, spawned, s0.pieceIndex)
          && l.pieceIndex == Mod(s0.pieceIndex + |spawned|, |l.pieceOptions|))
    && (!l.ordered ==> l.pieceIndex == s0.pieceIndex)
    && pool.obtained == s0.obtained + spawned && pool.released == s0.released
  }

  /** The spawn cursor of each layer. */
  ghost function Cursors(ls: seq<ParallaxLayer>): (r: seq<int>)
    reads ls
    ensures |r| == |ls| && forall i :: 0 <= i < |ls| ==> r[i] == ls[i].y
  {
    seq(|ls|, i requires 0 <= i < |ls| reads ls => ls[i].y)
  }

  /** The target y of each layer for the player screen y `screenY`. */
  ghost function Targets(ls: seq<ParallaxLayer>, screenY: real): (r: seq<int>)
    reads ls
    ensures |r| == |ls| && forall i :: 0 <= i < |ls| ==> r[i] == LayerY(screenY, ls[i].speedRatio)
  {
    seq(|ls|, i requires 0 <= i < |ls| reads ls => LayerY(screenY, ls[i].speedRatio))
  }

  /** The layers `ls` are the first `|ls|` layers of `config`, freshly reset and holding no pieces. */
  ghost predicate LayersFrom(ls: seq<ParallaxLayer>, config: seq<LayerConfig>)
    reads ls
  {
    |ls| <= |config| && forall k :: 0 <= k < |ls| ==> ls[k].ResetFrom(config[k], k) && ls[k].pieces == []
  }

  /** The exported controller. */
  class Controller {
    var layers: seq<ParallaxLayer>
    ghost var live: seq<seq<Piece>>  // the pieces of each layer, layer by layer
    ghost var rank: map<ParallaxLayer, nat>  // the position of each layer, which makes layers distinct
    const cache: ImageCache
    const piecePool: ViewPool<Piece>
    const layerPool: ViewPool<ParallaxLayer>
    const bgHeight: int              // BG_HEIGHT, the height of the visible band

    /**
     * The controller is consistent and the layer pool is balanced: every
     * layer obtained is either one of `layers` or has been released.
     */
    ghost predicate Valid()
      reads this, layers`pieces, layers`pieceIndex, layers`pieceOptions, piecePool`obtained, piecePool`released,
            layerPool`obtained, layerPool`released
    {
      && LayersValid()
      && multiset(layerPool.obtained) == multiset(layerPool.released) + multiset(layers)
    }

    /**
     * Layers are distinct, each is consistent, `live` holds their pieces, and
     * the piece pool is balanced: every piece obtained is either live in
     * exactly one layer or has been released exactly once.
     */
    ghost predicate LayersValid()
      reads this, layers`pieces, layers`pieceIndex, layers`pieceOptions, piecePool`obtained, piecePool`released
    {
      && |live| == |layers|
      && (forall i :: 0 <= i < |layers| ==> layers[i] in rank && rank[layers[i]] == i)
      && (forall i :: 0 <= i < |layers| ==> layers[i].pieces == live[i])
      && (forall i :: 0 <= i < |layers| ==> CursorOk(layers[i].pieceIndex, layers[i].pieceOptions))
      && multiset(piecePool.obtained) == multiset(piecePool.released) + multiset(Flatten(live))
    }

    constructor (bgHeight: int, boundsOf: string -> Bounds)
      ensures Valid() && layers == [] && this.bgHeight == bgHeight
      ensures cache.entries == map[] && cache.boundsOf == boundsOf
      ensures piecePool.obtained == [] && piecePool.released == []
      ensures layerPool.obtained == [] && layerPool.released == []
      ensures fresh(cache) && fresh(piecePool) && fresh(layerPool)
    {
      layers := [];
      live := [];
      rank := map[];
      cache := new ImageCache(boundsOf);
      piecePool := new ViewPool();
      layerPool := new ViewPool();
      this.bgHeight := bgHeight;
    }

    /** Tears every layer down and builds the layers of `config`. */
    method Reset(config: seq<LayerConfig>)
      requires Valid()
      modifies this`layers, this`live, this`rank, layers`pieces, piecePool`released,
               layerPool`obtained, layerPool`released, cache`entries
      ensures Valid()
      ensures |layers| == |config| && LayersFrom(layers, config)
      ensures piecePool.released == old(piecePool.released) + ReleaseOrder(old(live))
      ensures multiset(piecePool.obtained) == multiset(piecePool.released)
      ensures cache.entries == CacheAll(old(cache.entries), ConfigOptions(config), cache.boundsOf)
      ensures layerPool.released == old(layerPool.released) + Reversed(old(layers))
      ensures layerPool.obtained == old(layerPool.obtained) + layers
      ensures forall k :: 0 <= k < |layers| ==> fresh(layers[k])
    {
      ReleaseLayers();
      InitializeLayers(config);
      assert layers[0..] == layers;
    }

    /** Pops every layer, releasing its pieces back to front, then the layer itself. */
    method ReleaseLayers()
      requires Valid()
      modifies this`layers, this`live, layers`pieces, piecePool`released, layerPool`released
      ensures Valid() && layers == [] && live == []
      ensures forall i :: 0 <= i < |old(layers)| ==> old(layers)[i].pieces == []
      ensures piecePool.released == old(piecePool.released) + ReleaseOrder(old(live))
      ensures piecePool.obtained == old(piecePool.obtained)
      ensures multiset(piecePool.obtained) == multiset(piecePool.released)
      ensures layerPool.released == old(layerPool.released) + Reversed(old(layers))
      ensures layerPool.obtained == old(layerPool.obtained)
    {
      ghost var goneLayers: seq<ParallaxLayer>, gonePieces: seq<seq<Piece>> := [], [];
      PoppedStart();
      while |layers| > 0
        invariant Valid()
        invariant Popped(old(layers), old(live), old(rank), goneLayers, gonePieces, old(piecePool.released), old(layerPool.released))
        decreases |layers|
      {
        PoppedLast(old(layers), old(live), old(rank), goneLayers, gonePieces, old(piecePool.released), old(layerPool.released));
        goneLayers, gonePieces := PopLayer(layers[|layers| - 1], old(layers), old(live), old(rank), goneLayers, gonePieces,
                                           old(piecePool.released), old(layerPool.released));
      }
      PoppedEnd(old(layers), old(live), old(rank), goneLayers, gonePieces, old(piecePool.released), old(layerPool.released));
    }

    /** Before the first pop nothing is gone. */
    lemma PoppedStart()
      requires Valid()
      ensures Popped(layers, live, rank, [], [], piecePool.released, layerPool.released)
      ensures multiset(piecePool.obtained) == multiset(piecePool.released) + multiset(Flatten(live))
    {
      assert layers + [] == layers && live + [] == live;
    }

    /** The layer popped next is one of the original layers. */
    lemma PoppedLast(layers0: seq<ParallaxLayer>, live0: seq<seq<Piece>>, rank0: map<ParallaxLayer, nat>,
                     goneLayers: seq<ParallaxLayer>, gonePieces: seq<seq<Piece>>,
                     released0: seq<Piece>, layersReleased0: seq<ParallaxLayer>)
      requires |layers| > 0 && Popped(layers0, live0, rank0, goneLayers, gonePieces, released0, layersReleased0)
      ensures layers[|layers| - 1] == layers0[|layers| - 1] && layers[|layers| - 1] in layers0
    {
    }

    /** Once no layer is left, every original layer is gone, emptied, and released in reverse. */
    lemma PoppedEnd(layers0: seq<ParallaxLayer>, live0: seq<seq<Piece>>, rank0: map<ParallaxLayer, nat>,
                    goneLayers: seq<ParallaxLayer>, gonePieces: seq<seq<Piece>>,
                    released0: seq<Piece>, layersReleased0: seq<ParallaxLayer>)
      requires Valid() && |layers| == 0
      requires Popped(layers0, live0, rank0, goneLayers, gonePieces, released0, layersReleased0)
      requires multiset(piecePool.obtained) == multiset(released0) + multiset(Flatten(live0))
      ensures layers == [] && live == []
      ensures forall i :: 0 <= i < |layers0| ==> layers0[i].pieces == []
      ensures piecePool.released == released0 + ReleaseOrder(live0)
      ensures multiset(piecePool.obtained) == multiset(piecePool.released)
      ensures layerPool.released == layersReleased0 + Reversed(layers0)
    {
      assert goneLayers == layers0 && gonePieces == live0;
      ReleaseOrderSameElements(live0);
    }

    /**
     * The state of `releaseLayers` once the layers `goneLayers`, holding the
     * pieces `gonePieces`, have been popped from the back of `layers0`.
     */
    ghost predicate Popped(layers0: seq<ParallaxLayer>, live0: seq<seq<Piece>>, rank0: map<ParallaxLayer, nat>,
                           goneLayers: seq<ParallaxLayer>, gonePieces: seq<seq<Piece>>,
                           released0: seq<Piece>, layersReleased0: seq<ParallaxLayer>)
      reads this`layers, this`live, layers0, piecePool`released, layerPool`released
    {
      && layers0 == layers + goneLayers && live0 == live + gonePieces
      && (forall i :: 0 <= i < |layers0| ==> layers0[i] in rank0 && rank0[layers0[i]] == i)
      && (forall i :: |layers| <= i < |layers0| ==> layers0[i].pieces == [])
      && piecePool.released == released0 + ReleaseOrder(gonePieces)
      && layerPool.released == layersReleased0 + Reversed(goneLayers)
    }

    /** The loop body of `releaseLayers`: pops the last layer, releases its pieces, then the layer. */
    method PopLayer(layer: ParallaxLayer, ghost layers0: seq<ParallaxLayer>, ghost live0: seq<seq<Piece>>, ghost rank0: map<ParallaxLayer, nat>,
                    ghost goneLayers: seq<ParallaxLayer>, ghost gonePieces: seq<seq<Piece>>,
                    ghost released0: seq<Piece>, ghost layersReleased0: seq<ParallaxLayer>)
      returns (ghost goneLayers': seq<ParallaxLayer>, ghost gonePieces': seq<seq<Piece>>)
      requires Valid() && |layers| > 0 && layers[|layers| - 1] == layer
      requires Popped(layers0, live0, rank0, goneLayers, gonePieces, released0, layersReleased0)
      modifies this`layers, this`live, layer`pieces, piecePool`released, layerPool`released
      ensures Valid() && |layers| == |old(layers)| - 1
      ensures Popped(layers0, live0, rank0, goneLayers', gonePieces', released0, layersReleased0)
    {
      var m := |layers| - 1;
      ghost var pieces, front := live[m], live[..m];
      assert live == front + [pieces];
      assert live[m := []] == front + [[]];
      assert layer.pieces == pieces && layers0[m] == layer;
      PopLast(layer, layers0, rank0);
      assert live == front;
      goneLayers', gonePieces' := [layer] + goneLayers, [pieces] + gonePieces;
      ConcatAssoc(layers, [layer], goneLayers);
      ConcatAssoc(live, [pieces], gonePieces);
      PopRecords(released0, gonePieces, pieces, layersReleased0, goneLayers, layer);
    }

    /**
     * Releases the pieces of the last layer, drops it, and hands it back to
     * the layer pool; the layers of `layers0` already popped stay empty.
     */
    method PopLast(layer: ParallaxLayer, ghost layers0: seq<ParallaxLayer>, ghost rank0: map<ParallaxLayer, nat>)
      requires Valid() && |layers| > 0 && layers[|layers| - 1] == layer
      requires |layers| <= |layers0| && layers0[|layers| - 1] == layer
      requires forall i :: 0 <= i < |layers0| ==> layers0[i] in rank0 && rank0[layers0[i]] == i
      requires forall i :: |layers| <= i < |layers0| ==> layers0[i].pieces == []
      modifies this`layers, this`live, layer`pieces, piecePool`released, layerPool`released
      ensures Valid()
      ensures layers + [layer] == old(layers) && live == old(live)[..|old(live)| - 1]
      ensures piecePool.released == old(piecePool.released) + Reversed(old(layer.pieces))
      ensures layerPool.released == old(layerPool.released) + [layer]
      ensures forall i :: |layers| <= i < |layers0| ==> layers0[i].pieces == []
    {
      var m := |layers| - 1;
      ReleaseLast(layer);
      forall i | m <= i < |layers0|
        ensures layers0[i].pieces == []
      {
        if i > m {
          assert rank0[layers0[i]] != rank0[layer];
        }
      }
    }

    /** Releases the pieces of the last layer, drops it, and hands it back to the layer pool. */
    method ReleaseLast(layer: ParallaxLayer)
      requires Valid() && |layers| > 0 && layers[|layers| - 1] == layer
      modifies this`layers, this`live, layer`pieces, piecePool`released, layerPool`released
      ensures Valid() && layer.pieces == []
      ensures layers + [layer] == old(layers) && live == old(live)[..|old(live)| - 1]
      ensures piecePool.released == old(piecePool.released) + Reversed(old(layer.pieces))
      ensures layerPool.released == old(layerPool.released) + [layer]
    {
      var m := |layers| - 1;
      ReleaseLayerPieces(m, layer);
      assert live[..m] == old(live)[..m];
      DropEmptyLast(layer);
    }

    /** The inner loop of `releaseLayers` on the layer at position `l`, keeping `live` and the balance. */
    method ReleaseLayerPieces(l: nat, layer: ParallaxLayer)
      requires Valid() && l < |layers| && layers[l] == layer
      modifies this`live, layer`pieces, piecePool`released
      ensures Valid() && layer.pieces == [] && live == old(live)[l := []]
      ensures piecePool.released == old(piecePool.released) + Reversed(old(layer.pieces))
    {
      BalanceReleaseAll(piecePool.obtained, piecePool.released, live, l);
      ReleasePieces(layer);
      live := live[l := []];
    }

    /** Drops the last layer, whose pieces are all released, and hands it back to the layer pool. */
    method DropEmptyLast(layer: ParallaxLayer)
      requires Valid() && |layers| > 0 && layers[|layers| - 1] == layer && layer.pieces == []
      modifies this`layers, this`live, layerPool`released
      ensures Valid()
      ensures layers + [layer] == old(layers) && live == old(live)[..|old(live)| - 1]
      ensures layerPool.released == old(layerPool.released) + [layer]
    {
      DropEmpty(layer);
      layerPool.ReleaseView(layer);
    }

    /** Drops the last layer, whose pieces are all released, keeping `live`, `rank` and the piece balance. */
    method DropEmpty(layer: ParallaxLayer)
      requires LayersValid() && |layers| > 0 && layers[|layers| - 1] == layer && layer.pieces == []
      modifies this`layers, this`live
      ensures LayersValid()
      ensures layers + [layer] == old(layers) && live == old(live)[..|old(live)| - 1]
    {
      FlattenDropEmpty(live);
      DropLast();
    }

    /** Drops the last layer from `layers` and from `live`. */
    method DropLast()
      requires |layers| > 0 && |live| == |layers|
      modifies this`layers, this`live
      ensures layers == old(layers)[..|old(layers)| - 1] && live == old(live)[..|old(live)| - 1]
      ensures layers + [old(layers)[|old(layers)| - 1]] == old(layers)
      ensures live + [old(live)[|old(live)| - 1]] == old(live)
    {
      layers := layers[..|layers| - 1];
      live := live[..|live| - 1];
    }

    /** The inner loop of `releaseLayers`: pops every piece of `layer` back to the pool. */
    method ReleasePieces(layer: ParallaxLayer)
      modifies layer`pieces, piecePool`released
      ensures layer.pieces == []
      ensures piecePool.released == old(piecePool.released) + Reversed(old(layer.pieces))
      ensures piecePool.obtained == old(piecePool.obtained)
    {
      ghost var P := layer.pieces;
      while |layer.pieces| > 0
        invariant layer.pieces == P[..|layer.pieces|]
        invariant piecePool.released == old(piecePool.released) + Reversed(P[|layer.pieces|..])
        invariant piecePool.obtained == old(piecePool.obtained)
        decreases |layer.pieces|
      {
        var j := |layer.pieces| - 1;
        var piece := layer.pieces[j];
        layer.pieces := layer.pieces[..j];
        piecePool.ReleaseView(piece);
        assert P[j..][1..] == P[j + 1..];
      }
      assert P[0..] == P;
    }

    /** Obtains one layer per entry of `config`, resets the i-th with index `i`, and appends it. */
    method InitializeLayers(config: seq<LayerConfig>)
      requires Valid()
      modifies this`layers, this`live, this`rank, cache`entries, layerPool`obtained
      ensures Valid()
      ensures |layers| == |old(layers)| + |config| && layers[..|old(layers)|] == old(layers)
      ensures LayersFrom(layers[|old(layers)|..], config)
      ensures cache.entries == CacheAll(old(cache.entries), ConfigOptions(config), cache.boundsOf)
      ensures layerPool.obtained == old(layerPool.obtained) + layers[|old(layers)|..]
      ensures layerPool.released == old(layerPool.released)
      ensures piecePool.obtained == old(piecePool.obtained) && piecePool.released == old(piecePool.released)
      ensures forall k :: |old(layers)| <= k < |layers| ==> fresh(layers[k])
    {
      ghost var added := AddLayers(config);
      InitializedEnd(config, old(layers), added, old(cache.entries), old(layerPool.obtained));
    }

    /** The loop of `initializeLayers`, which appends the fresh layers `added`. */
    method AddLayers(config: seq<LayerConfig>) returns (ghost added: seq<ParallaxLayer>)
      requires Valid()
      modifies this`layers, this`live, this`rank, cache`entries, layerPool`obtained
      ensures Valid() && Initialized(config, |config|, old(layers), added, old(cache.entries), old(layerPool.obtained))
      ensures forall k :: 0 <= k < |added| ==> fresh(added[k])
    {
      added := [];
      for i := 0 to |config|
        invariant Valid()
        invariant Initialized(config, i, old(layers), added, old(cache.entries), old(layerPool.obtained))
        invariant forall k :: 0 <= k < |added| ==> fresh(added[k])
      {
        var layer := InitStep(config, i, old(layers), added, old(cache.entries), old(layerPool.obtained));
        FreshSnoc(added, layer);
        added := added + [layer];
      }
    }

    /** Appending a fresh layer to fresh layers keeps them all fresh. */
    twostate lemma FreshSnoc(new added: seq<ParallaxLayer>, new layer: ParallaxLayer)
      requires forall k :: 0 <= k < |added| ==> fresh(added[k])
      requires fresh(layer)
      ensures forall k :: 0 <= k < |added + [layer]| ==> fresh((added + [layer])[k])
    {
    }

    /** The state after the loop of `initializeLayers` has appended the layers `added` for `config[..i]`. */
    ghost predicate Initialized(config: seq<LayerConfig>, i: nat, layers0: seq<ParallaxLayer>, added: seq<ParallaxLayer>,
                                entries0: Cache, obtained0: seq<ParallaxLayer>)
      reads this`layers, added, cache`entries, layerPool`obtained
    {
      && i == |added| <= |config|
      && layers == layers0 + added
      && LayersFrom(added, config)
      && cache.entries == CacheAll(entries0, ConfigOptions(config[..i]), cache.boundsOf)
      && layerPool.obtained == obtained0 + added
    }

    /** What the loop of `initializeLayers` leaves behind, in terms of the final `layers`. */
    lemma InitializedEnd(config: seq<LayerConfig>, layers0: seq<ParallaxLayer>, added: seq<ParallaxLayer>,
                         entries0: Cache, obtained0: seq<ParallaxLayer>)
      requires Initialized(config, |config|, layers0, added, entries0, obtained0)
      ensures |layers| == |layers0| + |config| && layers[..|layers0|] == layers0 && layers[|layers0|..] == added
      ensures LayersFrom(layers[|layers0|..], config)
      ensures cache.entries == CacheAll(entries0, ConfigOptions(config), cache.boundsOf)
      ensures layerPool.obtained == obtained0 + layers[|layers0|..]
    {
      assert config[..|config|] == config;
    }

    /** One iteration of the loop of `initializeLayers`. */
    method InitStep(config: seq<LayerConfig>, i: nat, ghost layers0: seq<ParallaxLayer>, ghost added: seq<ParallaxLayer>,
                    ghost entries0: Cache, ghost obtained0: seq<ParallaxLayer>)
      returns (layer: ParallaxLayer)
      requires i < |config|
      requires Valid() && Initialized(config, i, layers0, added, entries0, obtained0)
      modifies this`layers, this`live, this`rank, cache`entries, layerPool`obtained
      ensures Valid() && Initialized(config, i + 1, layers0, added + [layer], entries0, obtained0) && fresh(layer)
    {
      layer := AddLayer(config[i], i);
      ghost var added' := added + [layer];
      ConcatAssoc(layers0, added, [layer]);
      ConcatAssoc(obtained0, added, [layer]);
      assert config[..i + 1][..i] == config[..i];
      assert ConfigOptions(config[..i + 1]) == ConfigOptions(config[..i]) + config[i].pieceOptions;
      CacheAllConcat(entries0, ConfigOptions(config[..i]), config[i].pieceOptions, cache.boundsOf);
      forall k | 0 <= k < |added'|
        ensures added'[k].ResetFrom(config[k], k) && added'[k].pieces == []
      {
        if k < |added| {
          assert added'[k] == added[k];
          assert added[k] as object != cache as object && added[k] as object != layerPool as object;
        }
      }
    }

    /** The loop body of `initializeLayers`: obtain a layer, reset it, append it. */
    method AddLayer(layerConf: LayerConfig, i: nat) returns (layer: ParallaxLayer)
      requires Valid()
      modifies this`layers, this`live, this`rank, cache`entries, layerPool`obtained
      ensures Valid()
      ensures fresh(layer) && layer.ResetFrom(layerConf, i) && layer.pieces == []
      ensures layers == old(layers) + [layer]
      ensures cache.entries == CacheAll(old(cache.entries), layerConf.pieceOptions, cache.boundsOf)
      ensures layerPool.obtained == old(layerPool.obtained) + [layer]
      ensures layerPool.released == old(layerPool.released)
    {
      layer := NewLayer(layerConf, i);
      assert forall k :: 0 <= k < |layers| ==> layers[k] != layer;
      AppendLayer(layer, layerConf, i);
    }

    /** Obtains a layer from the pool and resets it. */
    method NewLayer(layerConf: LayerConfig, i: nat) returns (layer: ParallaxLayer)
      modifies cache`entries, layerPool`obtained
      ensures fresh(layer) && layer.ResetFrom(layerConf, i) && layer.pieces == [] && layer.Valid()
      ensures cache.entries == CacheAll(old(cache.entries), layerConf.pieceOptions, cache.boundsOf)
      ensures layerPool.obtained == old(layerPool.obtained) + [layer]
      ensures layerPool.released == old(layerPool.released)
    {
      layer := new ParallaxLayer();
      layerPool.ObtainView(layer);
      layer.Reset(layerConf, i, cache);
    }

    /** Appends a layer with no pieces, just obtained from the pool, keeping `live`, `rank` and the balances. */
    method AppendLayer(layer: ParallaxLayer, ghost layerConf: LayerConfig, ghost i: nat)
      requires LayersValid() && layer.pieces == [] && layer.Valid() && layer.ResetFrom(layerConf, i)
      requires multiset(layerPool.obtained) == multiset(layerPool.released) + multiset(layers + [layer])
      requires forall k :: 0 <= k < |layers| ==> layers[k] != layer
      modifies this`layers, this`live, this`rank
      ensures Valid() && layers == old(layers) + [layer] && layer.ResetFrom(layerConf, i)
    {
      FlattenSnoc(live, []);
      assert Flatten(live + [[]]) == Flatten(live);
      layers := layers + [layer];
      live := live + [[]];
      rank := rank[layer := |layers| - 1];
    }

    /** Moves every layer to its target y, then releases and spawns pieces around it. */
    method Update(screenY: real)
      requires Valid()
      requires forall i :: 0 <= i < |layers| ==>
                 SpawnReady(layers[i].y, layers[i].pieceOptions, layers[i].gapRange, cache.entries,
                            LayerY(screenY, layers[i].speedRatio), bgHeight)
      modifies this`live, layers`styleY, layers`y, layers`pieces, layers`pieceIndex, piecePool`obtained, piecePool`released
      ensures Valid() && Updated(screenY, old(live), old(Cursors(layers)))
    {
      ghost var live0, ys0, targets := live, Cursors(layers), Targets(layers, screenY);
      TickStart(screenY, targets, live0, ys0);
      TickAll(screenY, targets, live0, ys0);
      TickEnd(screenY, targets, live0, ys0);
    }

    /**
     * Every layer is at its target y for the player screen y `screenY` and has
     * been ticked from its former pieces `live0[i]` and cursor `ys0[i]`.
     */
    ghost predicate Updated(screenY: real, live0: seq<seq<Piece>>, ys0: seq<int>)
      reads this`layers, layers`styleY, layers`y, layers`pieces, layers`x, layers`gapRange, layers`speedRatio,
            cache`entries
    {
      && |live0| == |ys0| == |layers|
      && forall i :: 0 <= i < |layers| ==>
           && layers[i].styleY == LayerY(screenY, layers[i].speedRatio)
           && Ticked(layers[i].pieces, layers[i].y, layers[i].x, layers[i].gapRange, layers[i].styleY,
                     live0[i], ys0[i], cache.entries, bgHeight)
    }

    /** Before the loop of `update` no layer is ticked, and `live0`, `ys0` and `targets` describe every layer. */
    lemma TickStart(screenY: real, targets: seq<int>, live0: seq<seq<Piece>>, ys0: seq<int>)
      requires Valid() && live0 == live && ys0 == Cursors(layers) && targets == Targets(layers, screenY)
      requires forall i :: 0 <= i < |layers| ==>
                 SpawnReady(layers[i].y, layers[i].pieceOptions, layers[i].gapRange, cache.entries,
                            LayerY(screenY, layers[i].speedRatio), bgHeight)
      ensures TickedUpTo(0, targets, live0, ys0)
      ensures forall i :: 0 <= i < |layers| ==> live0[i] == layers[i].pieces && ys0[i] == layers[i].y
      ensures forall i :: 0 <= i < |layers| ==> targets[i] == LayerY(screenY, layers[i].speedRatio)
      ensures forall i :: 0 <= i < |layers| ==>
                SpawnReady(ys0[i], layers[i].pieceOptions, layers[i].gapRange, cache.entries, targets[i], bgHeight)
    {
    }

    /** After the loop of `update` every layer is ticked against `live0`, `ys0` and `targets`. */
    lemma TickEnd(screenY: real, targets: seq<int>, live0: seq<seq<Piece>>, ys0: seq<int>)
      requires TickedUpTo(|layers|, targets, live0, ys0)
      requires forall i :: 0 <= i < |layers| ==> targets[i] == LayerY(screenY, layers[i].speedRatio)
      ensures Updated(screenY, live0, ys0)
    {
    }

    /** The loop of `update`: ticks every layer in turn, from the first to the last. */
    method TickAll(screenY: real, ghost targets: seq<int>, ghost live0: seq<seq<Piece>>, ghost ys0: seq<int>)
      requires Valid() && TickedUpTo(0, targets, live0, ys0)
      requires forall i :: 0 <= i < |layers| ==> targets[i] == LayerY(screenY, layers[i].speedRatio)
      requires forall i :: 0 <= i < |layers| ==>
                 SpawnReady(ys0[i], layers[i].pieceOptions, layers[i].gapRange, cache.entries, targets[i], bgHeight)
      modifies this`live, layers`styleY, layers`y, layers`pieces, layers`pieceIndex, piecePool`obtained, piecePool`released
      ensures Valid() && TickedUpTo(|layers|, targets, live0, ys0)
      ensures forall i :: 0 <= i < |layers| ==> targets[i] == LayerY(screenY, layers[i].speedRatio)
    {
      TickLoop(screenY, targets, live0, ys0);
    }

    /** The loop itself, from the first layer to the last. */
    method TickLoop(screenY: real, ghost targets: seq<int>, ghost live0: seq<seq<Piece>>, ghost ys0: seq<int>)
      requires Valid() && TickedUpTo(0, targets, live0, ys0)
      requires forall i :: 0 <= i < |layers| ==> targets[i] == LayerY(screenY, layers[i].speedRatio)
      requires forall i :: 0 <= i < |layers| ==>
                 SpawnReady(ys0[i], layers[i].pieceOptions, layers[i].gapRange, cache.entries, targets[i], bgHeight)
      modifies this`live, layers`styleY, layers`y, layers`pieces, layers`pieceIndex, piecePool`obtained, piecePool`released
      ensures Valid() && TickedUpTo(|layers|, targets, live0, ys0)
    {
      var l := 0;
      while l < |layers|
        invariant Valid() && TickedUpTo(l, targets, live0, ys0)
      {
        TickNext(l, screenY, targets, live0, ys0);
        l := l + 1;
      }
    }

    /** The layers before `l` have been updated and those from `l` on are as they were (`live0`, `ys0`). */
    ghost predicate TickedUpTo(l: nat, targets: seq<int>, live0: seq<seq<Piece>>, ys0: seq<int>)
      reads this`layers, layers`styleY, layers`y, layers`pieces, layers`x, layers`gapRange, layers`speedRatio,
            cache`entries
    {
      && l <= |layers| == |targets| == |live0| == |ys0|
      && (forall i :: 0 <= i < l ==>
            && layers[i].styleY == targets[i]
            && Ticked(layers[i].pieces, layers[i].y, layers[i].x, layers[i].gapRange, layers[i].styleY,
                      live0[i], ys0[i], cache.entries, bgHeight))
      && (forall i :: l <= i < |layers| ==> layers[i].y == ys0[i] && layers[i].pieces == live0[i])
    }

    /** One turn of the loop of `update`: ticks the layer at position `l` and no other. */
    method TickNext(l: nat, screenY: real, ghost targets: seq<int>, ghost live0: seq<seq<Piece>>, ghost ys0: seq<int>)
      requires Valid() && l < |layers| && TickedUpTo(l, targets, live0, ys0)
      requires targets[l] == LayerY(screenY, layers[l].speedRatio)
      requires SpawnReady(layers[l].y, layers[l].pieceOptions, layers[l].gapRange, cache.entries, targets[l], bgHeight)
      modifies this`live, layers`styleY, layers`y, layers`pieces, layers`pieceIndex, piecePool`obtained, piecePool`released
      ensures Valid() && TickedUpTo(l + 1, targets, live0, ys0)
    {
      var layer := layers[l];
      var layerY := LayerY(screenY, layer.speedRatio);
      label Before:
      TickLayer(l, layer, layerY);
      forall i | 0 <= i < |layers| && i != l
        ensures layers[i].styleY == old@Before(layers[i].styleY)
        ensures layers[i].y == old@Before(layers[i].y) && layers[i].pieces == old@Before(layers[i].pieces)
      {
        assert rank[layers[i]] != rank[layer];
      }
    }

    /** The loop body of `update` for the layer at position `l`, whose target y is `layerY`. */
    method TickLayer(l: nat, layer: ParallaxLayer, layerY: int)
      requires Valid() && l < |layers| && layers[l] == layer
      requires SpawnReady(layer.y, layer.pieceOptions, layer.gapRange, cache.entries, layerY, bgHeight)
      modifies this`live, layer`styleY, layer`y, layer`pieces, layer`pieceIndex, piecePool`obtained, piecePool`released
      ensures Valid()
      ensures layer.styleY == layerY
      ensures Ticked(layer.pieces, layer.y, layer.x, layer.gapRange, layerY,
                     old(layer.pieces), old(layer.y), cache.entries, bgHeight)
    {
      layer.styleY := layerY;
      Restream(l, layer, layerY);
    }

    /** The release pass and then the spawn pass of `update` on the layer at position `l`. */
    method Restream(l: nat, layer: ParallaxLayer, layerY: int)
      requires Valid() && l < |layers| && layers[l] == layer
      requires SpawnReady(layer.y, layer.pieceOptions, layer.gapRange, cache.entries, layerY, bgHeight)
      modifies this`live, layer`y, layer`pieces, layer`pieceIndex, piecePool`obtained, piecePool`released
      ensures Valid()
      ensures Ticked(layer.pieces, layer.y, layer.x, layer.gapRange, layerY,
                     old(layer.pieces), old(layer.y), cache.entries, bgHeight)
    {
      ghost var pieces0, y0 := layer.pieces, layer.y;
      ghost var gone := ReleaseLayerOffscreen(l, layer, layerY);
      ghost var kept := layer.pieces;
      ghost var spawned := SpawnLayerPieces(l, layer, layerY);
      TickedIntro(layer.pieces, layer.y, layer.x, layer.gapRange, layerY, pieces0, y0, cache.entries, bgHeight,
                  gone, kept, spawned);
    }

    /** `releaseOffscreenPieces` on the layer at position `l`, keeping `live` and the balance. */
    method ReleaseLayerOffscreen(l: nat, layer: ParallaxLayer, y: int) returns (ghost gone: seq<Piece>)
      requires Valid() && l < |layers| && layers[l] == layer
      modifies this`live, layer`pieces, piecePool`released
      ensures Valid()
      ensures old(layer.pieces) == gone + layer.pieces
      ensures |gone| == OffscreenCount(old(layer.pieces), -y + bgHeight)
    {
      ghost var ob, rel := piecePool.obtained, piecePool.released;
      gone := ReleaseOffscreenPieces(layer, y);
      BalanceRelease(ob, rel, live, l, gone, layer.pieces);
      live := live[l := layer.pieces];
    }

    /** `spawnPieces` on the layer at position `l`, keeping `live` and the balance. */
    method SpawnLayerPieces(l: nat, layer: ParallaxLayer, y: int) returns (ghost spawned: seq<Piece>)
      requires Valid() && l < |layers| && layers[l] == layer
      requires SpawnReady(layer.y, layer.pieceOptions, layer.gapRange, cache.entries, y, bgHeight)
      modifies this`live, layer`y, layer`pieces, layer`pieceIndex, piecePool`obtained
      ensures Valid()
      ensures layer.y < -y - bgHeight
      ensures layer.pieces == old(layer.pieces) + spawned
      ensures Stream(cache.entries, layer.x, layer.gapRange, old(layer.y), spawned, layer.y)
      ensures LastSpawnedBelow(cache.entries, spawned, -y - bgHeight)
    {
      ghost var ob, rel := piecePool.obtained, piecePool.released;
      spawned := SpawnChain(layer, y);
      BalanceSpawn(ob, rel, live, l, spawned);
      live := live[l := layer.pieces];
      forall i | 0 <= i < |layers| && i != l
        ensures layers[i].pieces == old(layers[i].pieces) && layers[i].pieceIndex == old(layers[i].pieceIndex)
      {
        assert rank[layers[i]] != rank[layer];
      }
    }

    /** `spawnPieces`, seen through what `update` needs of it: the cursor, the chain, the pool. */
    method SpawnChain(layer: ParallaxLayer, y: int) returns (ghost spawned: seq<Piece>)
      requires layer.Valid()
      requires SpawnReady(layer.y, layer.pieceOptions, layer.gapRange, cache.entries, y, bgHeight)
      modifies layer`y, layer`pieces, layer`pieceIndex, piecePool`obtained
      ensures layer.Valid()
      ensures layer.y < -y - bgHeight
      ensures layer.pieces == old(layer.pieces) + spawned
      ensures Stream(cache.entries, layer.x, layer.gapRange, old(layer.y), spawned, layer.y)
      ensures LastSpawnedBelow(cache.entries, spawned, -y - bgHeight)
      ensures piecePool.obtained == old(piecePool.obtained) + spawned
      ensures piecePool.released == old(piecePool.released)
    {
      spawned := SpawnPieces(layer, y);
    }

    /** Drops pieces off the front of the queue while they lie at or below the release line. */
    method ReleaseOffscreenPieces(layer: ParallaxLayer, y: int) returns (ghost gone: seq<Piece>)
      modifies layer`pieces, piecePool`released
      ensures old(layer.pieces) == gone + layer.pieces
      ensures |gone| == OffscreenCount(old(layer.pieces), -y + bgHeight)
      ensures piecePool.released == old(piecePool.released) + gone
      ensures piecePool.obtained == old(piecePool.obtained)
    {
      gone := [];
      while |layer.pieces| > 0 && layer.pieces[0].y >= -y + bgHeight
        invariant old(layer.pieces) == gone + layer.pieces
        invariant forall i :: 0 <= i < |gone| ==> gone[i].y >= -y + bgHeight
        invariant piecePool.released == old(piecePool.released) + gone
        invariant piecePool.obtained == old(piecePool.obtained)
        decreases |layer.pieces|
      {
        var piece := layer.pieces[0];
        assert layer.pieces == [piece] + layer.pieces[1..];
        ConcatAssoc(gone, [piece], layer.pieces[1..]);
        ConcatAssoc(old(piecePool.released), gone, [piece]);
        layer.pieces := layer.pieces[1..];
        piecePool.ReleaseView(piece);
        gone := gone + [piece];
      }
      ghost var rest := layer.pieces;
      OffscreenCountSplit(gone, rest, -y + bgHeight);
      assert OffscreenCount(gone + rest, -y + bgHeight) == |gone|;
      assert old(layer.pieces) == gone + rest;
    }

    /**
     * Spawns pieces at the layer's cursor until the cursor is above the
     * visible band; `spawned` are the pieces it appends, in spawn order.
     */
    method SpawnPieces(layer: ParallaxLayer, y: int) returns (ghost spawned: seq<Piece>)
      requires layer.Valid()
      requires SpawnReady(layer.y, layer.pieceOptions, layer.gapRange, cache.entries, y, bgHeight)
      modifies layer`y, layer`pieces, layer`pieceIndex, piecePool`obtained
      ensures layer.Valid()
      ensures layer.y < -y - bgHeight
      ensures old(layer.y) < -y - bgHeight ==> spawned == []
      ensures layer.pieces == old(layer.pieces) + spawned
      ensures Stream(cache.entries, layer.x, layer.gapRange, old(layer.y), spawned, layer.y)
      ensures LastSpawnedBelow(cache.entries, spawned, -y - bgHeight)
      ensures FromOptions(layer.pieceOptions, spawned)
      ensures layer.ordered && |layer.pieceOptions| > 0 ==>
                && OrderedFrom(layer.pieceOptions, spawned, old(layer.pieceIndex))
                && layer.pieceIndex == Mod(old(layer.pieceIndex) + |spawned|, |layer.pieceOptions|)
      ensures !layer.ordered ==> layer.pieceIndex == old(layer.pieceIndex)
      ensures piecePool.obtained == old(piecePool.obtained) + spawned
      ensures piecePool.released == old(piecePool.released)
    {
      spawned := [];
      ghost var s0 := SpawnStart(layer.y, layer.pieceIndex, layer.pieces, piecePool.obtained, piecePool.released);
      if layer.y >= -y - bgHeight {
        spawned := SpawnStep(layer, s0, -y - bgHeight, spawned);
        while layer.y >= -y - bgHeight
          invariant Spawning(layer, piecePool, cache.entries, s0, -y - bgHeight, spawned)
          decreases layer.y + y + bgHeight
        {
          spawned := SpawnStep(layer, s0, -y - bgHeight, spawned);
        }
      }
    }

    /** One iteration of `spawnPieces`, stated as the step of the loop's invariant. */
    method SpawnStep(layer: ParallaxLayer, ghost s0: SpawnStart, ghost edge: int, ghost spawned: seq<Piece>)
      returns (ghost spawned': seq<Piece>)
      requires Spawning(layer, piecePool, cache.entries, s0, edge, spawned) && layer.y >= edge
      modifies layer`y, layer`pieces, layer`pieceIndex, piecePool`obtained
      ensures Spawning(layer, piecePool, cache.entries, s0, edge, spawned')
      ensures layer.y < old(layer.y)
    {
      ghost var cursor := layer.y;
      if layer.ordered {
        NextIndexIsSuccessorMod(s0.pieceIndex + |spawned|, |layer.pieceOptions|);
      }
      var p := SpawnNext(layer);
      StreamSnoc(cache.entries, layer.x, layer.gapRange, s0.y, spawned, cursor, p, layer.y);
      if layer.ordered {
        OrderedSnoc(layer.pieceOptions, spawned, s0.pieceIndex, p);
      }
      FromOptionsSnoc(layer.pieceOptions, spawned, p);
      ConcatAssoc(s0.pieces, spawned, [p]);
      ConcatAssoc(s0.obtained, spawned, [p]);
      spawned' := spawned + [p];
    }

    /**
     * The loop body of `spawnPieces`: picks the next option (the ordered
     * cursor, which then advances and wraps, or a random one) and spawns it.
     */
    method SpawnNext(layer: ParallaxLayer) returns (ghost p: Piece)
      requires layer.Valid() && |layer.pieceOptions| > 0
      requires GapRangeValid(layer.gapRange) && StepsPositive(layer.pieceOptions, cache.entries, layer.gapRange)
      modifies layer`y, layer`pieces, layer`pieceIndex, piecePool`obtained
      ensures layer.Valid()
      ensures layer.pieces == old(layer.pieces) + [p]
      ensures p.id in Ids(layer.pieceOptions) && p.id in cache.entries
      ensures p == PieceAt(p.id, cache.entries[p.id], layer.x, old(layer.y))
      ensures InGapRange(layer.gapRange, old(layer.y) - layer.y - (cache.entries[p.id].height - 1))
      ensures layer.y < old(layer.y)
      ensures layer.ordered ==>
                p.id == layer.pieceOptions[old(layer.pieceIndex)].id
                && layer.pieceIndex == NextIndex(old(layer.pieceIndex), |layer.pieceOptions|)
      ensures !layer.ordered ==> layer.pieceIndex == old(layer.pieceIndex)
      ensures piecePool.obtained == old(piecePool.obtained) + [p]
      ensures piecePool.released == old(piecePool.released)
    {
      var pieceOptions := layer.pieceOptions;
      var data;
      if layer.ordered {
        var index := layer.pieceIndex;
        layer.pieceIndex := layer.pieceIndex + 1;
        if layer.pieceIndex >= |pieceOptions| {
          layer.pieceIndex := 0;
        }
        data := pieceOptions[index];
      } else {
        var j :| 0 <= j < |pieceOptions|;     // choose(pieceOptions)
        data := pieceOptions[j];
      }
      assert data.id in Ids(pieceOptions);
      layer.SpawnPiece(data, piecePool, cache);
      p := layer.pieces[|layer.pieces| - 1];
    }
  }

  /**
   * Every layer of `c` has an option to spawn, a usable gap range, and
   * cached options whose steps move the cursor, so every update can run.
   */
  ghost predicate Ready(c: Controller)
    reads c, c.layers`pieceOptions, c.layers`gapRange, c.cache`entries
  {
    forall i :: 0 <= i < |c.layers| ==>
      |c.layers[i].pieceOptions| > 0 && GapRangeValid(c.layers[i].gapRange)
      && StepsPositive(c.layers[i].pieceOptions, c.cache.entries, c.layers[i].gapRange)
  }

  /** Every entry of `config` has an option, a usable gap range, and options whose steps move the cursor once cached. */
  predicate Playable(config: seq<LayerConfig>, entries: Cache) {
    forall i :: 0 <= i < |config| ==>
      |config[i].pieceOptions| > 0 && GapRangeValid(config[i].gapRange)
      && StepsPositive(config[i].pieceOptions, entries, config[i].gapRange)
  }

  /**
   * A client's use of one controller: create it, reset it to `config`, update
   * it twice, and reset it to `config2`. The calls compose: every piece
   * obtained has then been released, exactly the layers of `config` went back
   * to the layer pool, and the metadata cache holds the options of both
   * configurations, so resetting to the same configuration again adds nothing.
   */
  method Session(bgHeight: int, boundsOf: string -> Bounds, config: seq<LayerConfig>, config2: seq<LayerConfig>,
                 screenY: real, screenY': real) returns (c: Controller)
    requires Playable(config, CacheAll(map[], ConfigOptions(config), boundsOf))
    ensures fresh(c) && c.Valid() && |c.layers| == |config2| && LayersFrom(c.layers, config2)
    ensures multiset(c.piecePool.obtained) == multiset(c.piecePool.released)
    ensures |c.layerPool.released| == |config| && |c.layerPool.obtained| == |config| + |config2|
    ensures c.cache.entries == CacheAll(CacheAll(map[], ConfigOptions(config), boundsOf), ConfigOptions(config2), boundsOf)
    ensures config2 == config ==> c.cache.entries == CacheAll(map[], ConfigOptions(config), boundsOf)
  {
    c := Start(bgHeight, boundsOf, config);
    ghost var first := c.layers;
    ReadyUpdate(c, screenY);
    ReadyUpdate(c, screenY');
    assert c.layerPool.obtained == first && c.layerPool.released == [];
    c.Reset(config2);
    ReversedSameElements(first);
    ResetAgainUnchanged(map[], ConfigOptions(config), boundsOf);
  }

  /** A new controller reset to `config`. */
  method Start(bgHeight: int, boundsOf: string -> Bounds, config: seq<LayerConfig>) returns (c: Controller)
    requires Playable(config, CacheAll(map[], ConfigOptions(config), boundsOf))
    ensures fresh(c) && fresh(c.cache) && fresh(c.piecePool) && fresh(c.layerPool)
    ensures forall k :: 0 <= k < |c.layers| ==> fresh(c.layers[k])
    ensures c.Valid() && Ready(c) && |c.layers| == |config| && c.cache.boundsOf == boundsOf
    ensures c.cache.entries == CacheAll(map[], ConfigOptions(config), boundsOf)
    ensures c.piecePool.obtained == [] && c.piecePool.released == []
    ensures c.layerPool.obtained == c.layers && c.layerPool.released == []
    ensures LayersFrom(c.layers, config)
  {
    c := new Controller(bgHeight, boundsOf);
    c.Reset(config);
    assert forall i :: 0 <= i < |c.layers| ==> c.layers[i].ResetFrom(config[i], i);
  }

  /** One update of a ready controller, which keeps it ready. */
  method ReadyUpdate(c: Controller, screenY: real)
    requires c.Valid() && Ready(c)
    modifies c`live, c.layers`styleY, c.layers`y, c.layers`pieces, c.layers`pieceIndex, c.piecePool`obtained, c.piecePool`released
    ensures c.Valid() && Ready(c) && unchanged(c`layers, c.cache`entries)
  {
    ValidUpdate(c, screenY);
  }

  /** One update of a ready controller, which keeps it valid. */
  method ValidUpdate(c: Controller, screenY: real)
    requires c.Valid() && Ready(c)
    modifies c`live, c.layers`styleY, c.layers`y, c.layers`pieces, c.layers`pieceIndex, c.piecePool`obtained, c.piecePool`released
    ensures c.Valid()
  {
    c.Update(screenY);
  }
}
