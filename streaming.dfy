/**
 * The value-level specification of the vertical streamer in src/Parallax.js:
 * where a spawned piece is placed, the chain of pieces a run of spawns leaves
 * behind, which pieces a release pass drops, how the ordered-mode cursor
 * wraps, the order in which a teardown hands pieces back to the pool, and the
 * integer target y of a layer.
 */
module Streaming {
  import opened PieceCatalog

  /** The inclusive range a random gap between two spawns is drawn from. */
  datatype GapRange = GapRange(min: int, max: int)

  /** A spawned piece, as configured when it is obtained from the pool. */
  datatype Piece = Piece(
    id: string,      // the option the piece was spawned from (bookkeeping only)
    image: string,
    x: int,
    y: int,
    anchorX: real,
    anchorY: real,
    width: int,
    height: int,
    scale: real,
    opacity: real)

  /**
   * The piece spawned from metadata `d` when the layer's cursor is at
   * (`x`, `cursor`). The source passes `anchorX` for both anchors.
   */
  function PieceAt(id: string, d: ImgData, x: int, cursor: int): Piece {
    Piece(id, d.image, x + d.x, cursor + d.y, d.anchorX, d.anchorX,
          d.width, d.height, d.scale, d.opacity)
  }

  /** `rollInt(min, max)` is only meaningful on a non-empty range. */
  predicate GapRangeValid(gr: Option<GapRange>) {
    gr.Some? ==> gr.value.min <= gr.value.max
  }

  /** The gaps a spawn may use: one from the range, or 0 when there is no range. */
  predicate InGapRange(gr: Option<GapRange>, gap: int) {
    match gr
    case None => gap == 0
    case Some(r) => r.min <= gap <= r.max
  }

  function MinGap(gr: Option<GapRange>): int {
    match gr
    case None => 0
    case Some(r) => r.min
  }

  /**
   * Every option moves the cursor up by at least one unit: the condition
   * under which `spawnPieces` terminates.
   */
  predicate StepsPositive(opts: seq<PieceConfig>, cache: Cache, gr: Option<GapRange>) {
    forall i :: 0 <= i < |opts| ==>
      opts[i].id in cache && cache[opts[i].id].height - 1 + MinGap(gr) >= 1
  }

  /** The cursor position a cached piece was spawned at. */
  function SpawnCursor(cache: Cache, p: Piece): int
    requires p.id in cache
  {
    p.y - cache[p.id].y
  }

  /**
   * `ps` is what consecutive spawns append when the cursor starts at `c` and
   * ends at `e`: each piece sits at the cursor of its turn, and each spawn
   * moves the cursor up by the piece's height minus one plus a gap from `gr`.
   */
  predicate Stream(cache: Cache, x: int, gr: Option<GapRange>, c: int, ps: seq<Piece>, e: int)
    decreases |ps|
  {
    if ps == [] then c == e
    else
      var p := ps[|ps| - 1];
      && p.id in cache
      && var d := cache[p.id];
         var at := p.y - d.y;
         && p == PieceAt(p.id, d, x, at)
         && InGapRange(gr, at - e - (d.height - 1))
         && Stream(cache, x, gr, c, ps[..|ps| - 1], at)
  }

  /** Every piece of `ps` was spawned while the cursor was at or below `edge` (y grows downwards). */
  predicate SpawnedBelow(cache: Cache, ps: seq<Piece>, edge: int) {
    forall k :: 0 <= k < |ps| ==> ps[k].id in cache && SpawnCursor(cache, ps[k]) >= edge
  }

  /** The last piece of `ps`, if any, was spawned while the cursor was still at or below `edge`. */
  predicate LastSpawnedBelow(cache: Cache, ps: seq<Piece>, edge: int) {
    ps != [] ==> ps[|ps| - 1].id in cache && SpawnCursor(cache, ps[|ps| - 1]) >= edge
  }

  /** One more spawn at the final cursor extends a chain. */
  lemma StreamSnoc(cache: Cache, x: int, gr: Option<GapRange>, c: int, ps: seq<Piece>, e: int, p: Piece, e': int)
    requires Stream(cache, x, gr, c, ps, e)
    requires p.id in cache && p == PieceAt(p.id, cache[p.id], x, e)
    requires InGapRange(gr, e - e' - (cache[p.id].height - 1))
    ensures Stream(cache, x, gr, c, ps + [p], e')
  {
    assert (ps + [p])[..|ps|] == ps;
  }

  /** Under `StepsPositive`, each spawn lowers the cursor by at least one. */
  lemma {:induction false} StreamDescends(cache: Cache, x: int, gr: Option<GapRange>, c: int, ps: seq<Piece>, e: int)
    requires Stream(cache, x, gr, c, ps, e)
    requires forall i :: 0 <= i < |ps| ==> ps[i].id in cache && cache[ps[i].id].height - 1 + MinGap(gr) >= 1
    ensures c - e >= |ps|
    decreases |ps|
  {
    if ps != [] {
      var p := ps[|ps| - 1];
      StreamDescends(cache, x, gr, c, ps[..|ps| - 1], p.y - cache[p.id].y);
    }
  }

  /**
   * The pieces of a chain are ordered by spawn cursor: the first sits at the
   * initial cursor, every later one strictly higher (smaller y), all of them
   * below the final cursor.
   */
  lemma {:induction false} StreamOrdered(cache: Cache, x: int, gr: Option<GapRange>, c: int, ps: seq<Piece>, e: int)
    requires Stream(cache, x, gr, c, ps, e)
    requires forall i :: 0 <= i < |ps| ==> ps[i].id in cache && cache[ps[i].id].height - 1 + MinGap(gr) >= 1
    ensures forall i :: 0 <= i < |ps| ==> ps[i].id in cache && e < SpawnCursor(cache, ps[i]) <= c
    ensures |ps| > 0 ==> SpawnCursor(cache, ps[0]) == c
    ensures forall i, j :: 0 <= i < j < |ps| ==> SpawnCursor(cache, ps[j]) < SpawnCursor(cache, ps[i])
    decreases |ps|
  {
    if ps != [] {
      var n := |ps| - 1;
      var front := ps[..n];
      var at := SpawnCursor(cache, ps[n]);
      StreamOrdered(cache, x, gr, c, front, at);
      StreamDescends(cache, x, gr, c, front, at);
      assert forall i :: 0 <= i < n ==> front[i] == ps[i];
    }
  }

  /**
   * A spawn pass that stops right after its first spawn at or below `edge`
   * made every spawn at or below `edge`: spawn cursors only rise, so the
   * last spawn is the highest.
   */
  lemma StopsAtEdge(cache: Cache, x: int, gr: Option<GapRange>, c: int, ps: seq<Piece>, e: int, edge: int)
    requires Stream(cache, x, gr, c, ps, e)
    requires forall i :: 0 <= i < |ps| ==> ps[i].id in cache && cache[ps[i].id].height - 1 + MinGap(gr) >= 1
    requires LastSpawnedBelow(cache, ps, edge)
    ensures SpawnedBelow(cache, ps, edge)
  {
    StreamOrdered(cache, x, gr, c, ps, e);
    forall k | 0 <= k < |ps| ensures SpawnCursor(cache, ps[k]) >= edge {
      if k < |ps| - 1 {
        assert SpawnCursor(cache, ps[|ps| - 1]) < SpawnCursor(cache, ps[k]);
      }
    }
  }

  /** How many pieces at the front of `ps` lie at or below the release line `limit`. */
  function OffscreenCount(ps: seq<Piece>, limit: int): (k: nat)
    ensures k <= |ps|
    ensures forall i :: 0 <= i < k ==> ps[i].y >= limit
    ensures k < |ps| ==> ps[k].y < limit
    decreases |ps|
  {
    if ps == [] || ps[0].y < limit then 0 else 1 + OffscreenCount(ps[1..], limit)
  }

  /**
   * The released prefix is exactly the maximal run of offscreen pieces: when
   * every piece of `gone` is at or below the line and the first of `rest` is
   * above it, `OffscreenCount` releases `gone` and keeps `rest`.
   */
  lemma {:induction false} OffscreenCountSplit(gone: seq<Piece>, rest: seq<Piece>, limit: int)
    requires forall i :: 0 <= i < |gone| ==> gone[i].y >= limit
    requires rest != [] ==> rest[0].y < limit
    ensures OffscreenCount(gone + rest, limit) == |gone|
    decreases |gone|
  {
    if gone != [] {
      assert (gone + rest)[1..] == gone[1..] + rest;
      OffscreenCountSplit(gone[1..], rest, limit);
    } else {
      assert gone + rest == rest;
    }
  }

  /** The ordered-mode cursor step of `spawnPieces`: increment, and wrap at `n`. */
  function NextIndex(i: nat, n: nat): nat {
    if i + 1 >= n then 0 else i + 1
  }

  /** The remainder of `a` by `n`, by repeated subtraction. */
  function Mod(a: nat, n: nat): (r: nat)
    requires n > 0
    ensures r < n
    decreases a
  {
    if a < n then a else Mod(a - n, n)
  }

  /** `Mod` is the remainder of integer division. */
  lemma {:induction false} ModIsRemainder(a: nat, n: nat)
    requires n > 0
    ensures Mod(a, n) == a % n
    decreases a
  {
    if a >= n {
      ModIsRemainder(a - n, n);
      ModUnique(a, n, (a - n) / n + 1, (a - n) % n);
    } else {
      ModUnique(a, n, 0, a);
    }
  }

  /** The cursor step is "plus one, modulo the number of options". */
  lemma {:induction false} NextIndexIsSuccessorMod(a: nat, n: nat)
    requires n > 0
    ensures NextIndex(Mod(a, n), n) == Mod(a + 1, n)
    decreases a
  {
    if a >= n {
      NextIndexIsSuccessorMod(a - n, n);
      assert Mod(a + 1, n) == Mod(a + 1 - n, n);
    }
  }

  /** Euclidean remainders are unique. */
  lemma ModUnique(x: int, n: int, q: int, r: int)
    requires n > 0 && 0 <= r < n && x == q * n + r
    ensures x % n == r
  {
    var q', r' := x / n, x % n;
    var d := q - q';
    assert d * n == r' - r;
    if d >= 1 {
      MulAtLeast(d, n);
    } else if d <= -1 {
      MulAtLeast(-d, n);
    }
  }

  lemma {:induction false} MulAtLeast(d: int, n: int)
    requires d >= 1 && n > 0
    ensures d * n >= n
    decreases d
  {
    if d > 1 {
      MulAtLeast(d - 1, n);
      assert d * n == (d - 1) * n + n;
    }
  }

  /**
   * Ordered mode: the k-th piece of `ps` comes from the option `k` places
   * after `start`, wrapping around the option list.
   */
  predicate OrderedFrom(opts: seq<PieceConfig>, ps: seq<Piece>, start: nat) {
    |opts| > 0 && forall k :: 0 <= k < |ps| ==> ps[k].id == opts[Mod(start + k, |opts|)].id
  }

  lemma OrderedSnoc(opts: seq<PieceConfig>, ps: seq<Piece>, start: nat, p: Piece)
    requires OrderedFrom(opts, ps, start)
    requires p.id == opts[Mod(start + |ps|, |opts|)].id
    ensures OrderedFrom(opts, ps + [p], start)
  {
  }

  /** Every piece of `ps` comes from one of the options. */
  predicate FromOptions(opts: seq<PieceConfig>, ps: seq<Piece>) {
    forall k :: 0 <= k < |ps| ==> ps[k].id in Ids(opts)
  }

  lemma FromOptionsSnoc(opts: seq<PieceConfig>, ps: seq<Piece>, p: Piece)
    requires FromOptions(opts, ps) && p.id in Ids(opts)
    ensures FromOptions(opts, ps + [p])
  {
  }

  function Reversed<T>(s: seq<T>): seq<T>
    decreases |s|
  {
    if s == [] then [] else Reversed(s[1..]) + [s[0]]
  }

  /** Popping every element off the back hands each element out exactly once. */
  lemma {:induction false} ReversedSameElements<T>(s: seq<T>)
    ensures |Reversed(s)| == |s| && multiset(Reversed(s)) == multiset(s)
    decreases |s|
  {
    if s != [] {
      ReversedSameElements(s[1..]);
      assert s == [s[0]] + s[1..];
    }
  }

  /** All pieces of all layers, layer by layer. */
  function Flatten<T>(pss: seq<seq<T>>): seq<T>
    decreases |pss|
  {
    if pss == [] then [] else pss[0] + Flatten(pss[1..])
  }

  /**
   * The order in which `releaseLayers` hands pieces back: layers are popped
   * from the back, and each layer's pieces are popped from the back.
   */
  function ReleaseOrder<T>(pss: seq<seq<T>>): seq<T>
    decreases |pss|
  {
    if pss == [] then [] else ReleaseOrder(pss[1..]) + Reversed(pss[0])
  }

  /** Tearing all layers down releases every piece of every layer exactly once. */
  lemma {:induction false} ReleaseOrderSameElements<T>(pss: seq<seq<T>>)
    ensures multiset(ReleaseOrder(pss)) == multiset(Flatten(pss))
    decreases |pss|
  {
    if pss != [] {
      ReleaseOrderSameElements(pss[1..]);
      ReversedSameElements(pss[0]);
    }
  }

  /** Replacing one layer's pieces changes the whole collection by exactly that difference. */
  lemma {:induction false} FlattenUpdate<T>(pss: seq<seq<T>>, l: nat, q: seq<T>)
    requires l < |pss|
    ensures multiset(Flatten(pss[l := q])) + multiset(pss[l]) == multiset(Flatten(pss)) + multiset(q)
    decreases |pss|
  {
    if l == 0 {
      assert pss[l := q][1..] == pss[1..];
    } else {
      FlattenUpdate(pss[1..], l - 1, q);
      assert pss[l := q][1..] == pss[1..][l - 1 := q];
      assert Flatten(pss[l := q]) == pss[0] + Flatten(pss[1..][l - 1 := q]);
      assert pss[1..][l - 1] == pss[l];
      calc {
        multiset(Flatten(pss[l := q])) + multiset(pss[l]);
        multiset(pss[0]) + (multiset(Flatten(pss[1..][l - 1 := q])) + multiset(pss[1..][l - 1]));
        multiset(pss[0]) + (multiset(Flatten(pss[1..])) + multiset(q));
        multiset(Flatten(pss)) + multiset(q);
      }
    }
  }

  /** Releasing the front `gone` of layer `l` keeps the pool balanced (obtained = released + live). */
  lemma BalanceRelease<T>(ob: seq<T>, rel: seq<T>, pss: seq<seq<T>>, l: nat, gone: seq<T>, rest: seq<T>)
    requires l < |pss| && pss[l] == gone + rest
    requires multiset(ob) == multiset(rel) + multiset(Flatten(pss))
    ensures multiset(ob) == multiset(rel + gone) + multiset(Flatten(pss[l := rest]))
  {
    FlattenUpdate(pss, l, rest);
    var all, after' := multiset(Flatten(pss)), multiset(Flatten(pss[l := rest]));
    var after := multiset(rel + gone) + after';
    assert after' + multiset(pss[l]) == all + multiset(rest);
    forall x ensures multiset(ob)[x] == after[x] {
      assert multiset(ob)[x] == multiset(rel)[x] + all[x];
      assert (after' + multiset(pss[l]))[x] == (all + multiset(rest))[x];
      assert multiset(pss[l])[x] == multiset(gone)[x] + multiset(rest)[x];
      assert multiset(rel + gone)[x] == multiset(rel)[x] + multiset(gone)[x];
    }
    MultisetExt(multiset(ob), after);
  }

  /** Handing every piece of layer `l` back, last first, keeps the pool balanced. */
  lemma BalanceReleaseAll<T>(ob: seq<T>, rel: seq<T>, pss: seq<seq<T>>, l: nat)
    requires l < |pss|
    requires multiset(ob) == multiset(rel) + multiset(Flatten(pss))
    ensures multiset(ob) == multiset(rel + Reversed(pss[l])) + multiset(Flatten(pss[l := []]))
  {
    assert pss[l] == pss[l] + [];
    BalanceRelease(ob, rel, pss, l, pss[l], []);
    ReversedSameElements(pss[l]);
    assert multiset(rel + Reversed(pss[l])) == multiset(rel + pss[l]);
  }

  /** Dropping an empty last layer leaves the collection of pieces as it is. */
  lemma FlattenDropEmpty<T>(pss: seq<seq<T>>)
    requires |pss| > 0 && pss[|pss| - 1] == []
    ensures Flatten(pss[..|pss| - 1]) == Flatten(pss)
  {
    var m := |pss| - 1;
    assert pss == pss[..m] + [[]];
    FlattenSnoc(pss[..m], []);
  }

  /** Appending freshly obtained pieces to layer `l` keeps the pool balanced. */
  lemma BalanceSpawn<T>(ob: seq<T>, rel: seq<T>, pss: seq<seq<T>>, l: nat, q: seq<T>)
    requires l < |pss|
    requires multiset(ob) == multiset(rel) + multiset(Flatten(pss))
    ensures multiset(ob + q) == multiset(rel) + multiset(Flatten(pss[l := pss[l] + q]))
  {
    FlattenUpdate(pss, l, pss[l] + q);
    var all, grown := multiset(Flatten(pss)), multiset(Flatten(pss[l := pss[l] + q]));
    var after := multiset(rel) + grown;
    assert grown + multiset(pss[l]) == all + multiset(pss[l] + q);
    forall x ensures multiset(ob + q)[x] == after[x] {
      assert multiset(ob)[x] == multiset(rel)[x] + all[x];
      assert (grown + multiset(pss[l]))[x] == (all + multiset(pss[l] + q))[x];
      assert multiset(pss[l] + q)[x] == multiset(pss[l])[x] + multiset(q)[x];
      assert multiset(ob + q)[x] == multiset(ob)[x] + multiset(q)[x];
    }
    MultisetExt(multiset(ob + q), after);
  }

  /** Popping one more layer, with its pieces `ps`, extends both release records at the end. */
  lemma PopRecords<L, T>(rel0: seq<T>, gone: seq<seq<T>>, ps: seq<T>, lrel0: seq<L>, goneLayers: seq<L>, l: L)
    ensures (rel0 + ReleaseOrder(gone)) + Reversed(ps) == rel0 + ReleaseOrder([ps] + gone)
    ensures (lrel0 + Reversed(goneLayers)) + [l] == lrel0 + Reversed([l] + goneLayers)
  {
    assert ([ps] + gone)[1..] == gone;
    assert ([l] + goneLayers)[1..] == goneLayers;
    ConcatAssoc(rel0, ReleaseOrder(gone), Reversed(ps));
    ConcatAssoc(lrel0, Reversed(goneLayers), [l]);
  }

  lemma ConcatAssoc<T>(a: seq<T>, b: seq<T>, c: seq<T>)
    ensures a + (b + c) == (a + b) + c
  {
  }

  lemma MultisetExt<T>(a: multiset<T>, b: multiset<T>)
    requires forall x :: a[x] == b[x]
    ensures a == b
  {
  }

  /** Adding one more layer adds its pieces at the end of the collection. */
  lemma {:induction false} FlattenSnoc<T>(pss: seq<seq<T>>, q: seq<T>)
    ensures Flatten(pss + [q]) == Flatten(pss) + q
    decreases |pss|
  {
    if pss == [] {
      assert [q][1..] == [];
    } else {
      FlattenSnoc(pss[1..], q);
      assert (pss + [q])[1..] == pss[1..] + [q];
    }
  }

  const TWO_32: int := 0x1_0000_0000
  const TWO_31: int := 0x8000_0000

  /** Truncation of a real toward zero, as JavaScript's `~~` does before wrapping. */
  function Trunc(v: real): (t: int)
    ensures 0.0 <= v ==> t as real <= v < t as real + 1.0
    ensures v < 0.0 ==> t as real - 1.0 < v <= t as real
  {
    if v >= 0.0 then v.Floor else -((-v).Floor)
  }

  /** Wrap-around of an integer into the signed 32-bit range, as `~~` does. */
  function ToInt32(t: int): (r: int)
    ensures -TWO_31 <= r < TWO_31
    ensures (t - r) % TWO_32 == 0
    ensures -TWO_31 <= t < TWO_31 ==> r == t
  {
    var m := t % TWO_32;
    if m >= TWO_31 then m - TWO_32 else m
  }

  /** A layer's target y for a player screen y: `~~(-screenY * speedRatio)`. */
  function LayerY(screenY: real, speedRatio: real): int {
    ToInt32(Trunc(-screenY * speedRatio))
  }
}
