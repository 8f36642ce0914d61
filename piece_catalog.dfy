/**
 * Per-piece metadata derivation and the id-keyed metadata cache of the
 * parallax streamer (`cacheImage` and the caching loop of `reset` in
 * src/Parallax.js).
 */
module PieceCatalog {

  datatype Option<T> = None | Some(value: T)

  /** The intrinsic bounds the image loader reports for an image. */
  datatype Bounds = Bounds(width: int, height: int,
                           marginLeft: int, marginRight: int,
                           marginTop: int, marginBottom: int)

  /** One entry of a layer configuration's `pieceOptions`; `None` is an absent property. */
  datatype PieceConfig = PieceConfig(
    id: string,
    image: string,
    x: Option<int>,
    y: Option<int>,
    width: Option<int>,
    height: Option<int>,
    scale: Option<real>,
    opacity: Option<real>)

  /** The metadata cached once per piece id. */
  datatype ImgData = ImgData(
    image: string,
    x: int,
    y: int,
    width: int,
    height: int,
    anchorX: real,
    anchorY: real,
    scale: real,
    opacity: real)

  type Cache = map<string, ImgData>

  /** JavaScript's `v || d` on an optional number: both an absent value and 0 fall back to `d`. */
  function OrInt(v: Option<int>, d: int): int {
    if v.Some? && v.value != 0 then v.value else d
  }

  /** JavaScript's `v !== undefined ? v : d`: only an absent value falls back. */
  function OrUndefined(v: Option<real>, d: real): real {
    if v.Some? then v.value else d
  }

  /** The metadata `cacheImage` derives from a piece option and its image's bounds. */
  function Derive(data: PieceConfig, b: Bounds): ImgData {
    var width := OrInt(data.width, b.width + b.marginLeft + b.marginRight);
    var height := OrInt(data.height, b.height + b.marginTop + b.marginBottom);
    ImgData(data.image, OrInt(data.x, 0), OrInt(data.y, 0), width, height,
            width as real / 2.0, height as real / 2.0,
            OrUndefined(data.scale, 1.0), OrUndefined(data.opacity, 1.0))
  }

  /** One step of the caching loop: an id already present keeps its entry. */
  function CacheOne(m: Cache, o: PieceConfig, boundsOf: string -> Bounds): Cache {
    if o.id in m then m else m[o.id := Derive(o, boundsOf(o.image))]
  }

  /** The cache after the caching loop has visited every option of `s`, in order. */
  function CacheAll(m: Cache, s: seq<PieceConfig>, boundsOf: string -> Bounds): Cache
    decreases |s|
  {
    if s == [] then m else CacheOne(CacheAll(m, s[..|s| - 1], boundsOf), s[|s| - 1], boundsOf)
  }

  /** The ids of a sequence of piece options. */
  function Ids(s: seq<PieceConfig>): set<string> {
    set o | o in s :: o.id
  }

  /** After caching, the cache holds exactly the old ids and the ids of `s`. */
  lemma {:induction false} CacheAllKeys(m: Cache, s: seq<PieceConfig>, boundsOf: string -> Bounds)
    ensures CacheAll(m, s, boundsOf).Keys == m.Keys + Ids(s)
    decreases |s|
  {
    if s != [] {
      var front := s[..|s| - 1];
      CacheAllKeys(m, front, boundsOf);
      assert s == front + [s[|s| - 1]];
      assert Ids(s) == Ids(front) + {s[|s| - 1].id};
    }
  }

  /** An entry present before caching is never overwritten. */
  lemma {:induction false} CacheAllKeepsEntries(m: Cache, s: seq<PieceConfig>, boundsOf: string -> Bounds, id: string)
    requires id in m
    ensures id in CacheAll(m, s, boundsOf) && CacheAll(m, s, boundsOf)[id] == m[id]
    decreases |s|
  {
    if s != [] {
      CacheAllKeepsEntries(m, s[..|s| - 1], boundsOf, id);
    }
  }

  /** Caching options whose ids are all present leaves the cache as it is. */
  lemma {:induction false} CacheAllPresent(m: Cache, s: seq<PieceConfig>, boundsOf: string -> Bounds)
    requires forall i :: 0 <= i < |s| ==> s[i].id in m
    ensures CacheAll(m, s, boundsOf) == m
    decreases |s|
  {
    if s != [] {
      CacheAllPresent(m, s[..|s| - 1], boundsOf);
    }
  }

  /** Resetting a second time with the same options changes no entry of the cache. */
  lemma ResetAgainUnchanged(m: Cache, s: seq<PieceConfig>, boundsOf: string -> Bounds)
    ensures CacheAll(CacheAll(m, s, boundsOf), s, boundsOf) == CacheAll(m, s, boundsOf)
  {
    CacheAllKeys(m, s, boundsOf);
    var c := CacheAll(m, s, boundsOf);
    forall i | 0 <= i < |s| ensures s[i].id in c {
      assert s[i].id in Ids(s);
    }
    CacheAllPresent(c, s, boundsOf);
  }

  /**
   * An id absent before caching gets the metadata of its FIRST option in `s`:
   * the offsets default to 0, the size to the image bounds, the anchor is the
   * centre of the box, and scale and opacity default to 1 only when undefined.
   */
  lemma {:induction false} CacheAllFresh(m: Cache, s: seq<PieceConfig>, boundsOf: string -> Bounds, j: nat)
    requires j < |s| && s[j].id !in m
    requires forall i :: 0 <= i < j ==> s[i].id != s[j].id
    ensures s[j].id in CacheAll(m, s, boundsOf)
    ensures var e := CacheAll(m, s, boundsOf)[s[j].id];
            var b := boundsOf(s[j].image);
            && e == Derive(s[j], b)
            && e.x == OrInt(s[j].x, 0) && e.y == OrInt(s[j].y, 0)
            && e.width == (if s[j].width.Some? && s[j].width.value != 0 then s[j].width.value
                           else b.width + b.marginLeft + b.marginRight)
            && e.height == (if s[j].height.Some? && s[j].height.value != 0 then s[j].height.value
                            else b.height + b.marginTop + b.marginBottom)
            && e.anchorX == e.width as real / 2.0 && e.anchorY == e.height as real / 2.0
            && e.scale == (if s[j].scale.Some? then s[j].scale.value else 1.0)
            && e.opacity == (if s[j].opacity.Some? then s[j].opacity.value else 1.0)
    decreases |s|
  {
    var front := s[..|s| - 1];
    if j == |s| - 1 {
      CacheAllKeys(m, front, boundsOf);
      assert s[j].id !in Ids(front) by {
        forall o | o in front ensures o.id != s[j].id {
          var i :| 0 <= i < |front| && front[i] == o;
          assert s[i] == o;
        }
      }
    } else {
      CacheAllFresh(m, front, boundsOf, j);
    }
  }

  /** Caching a concatenation is caching its two halves one after the other. */
  lemma {:induction false} CacheAllConcat(m: Cache, s: seq<PieceConfig>, t: seq<PieceConfig>, boundsOf: string -> Bounds)
    ensures CacheAll(m, s + t, boundsOf) == CacheAll(CacheAll(m, s, boundsOf), t, boundsOf)
    decreases |t|
  {
    if t == [] {
      assert s + t == s;
    } else {
      var front := t[..|t| - 1];
      assert (s + t)[..|s + t| - 1] == s + front;
      CacheAllConcat(m, s, front, boundsOf);
    }
  }
}
