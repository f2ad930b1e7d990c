/**
 * `Tileset::generate_variations` (src/main.rs:224-304) and `hash_sprites`
 * (src/main.rs:199-205): build one `TileAtlas` per atlas block with a
 * running id counter, then expand every authored tile into one tile per
 * alias id plus one composite tile per (alias, part, part alias), and sort.
 *
 * The pure functions below (`Atlases`, `Emitted` and the functions they use)
 * are the specification; the methods are the loops of the source, proved
 * against them.
 */
module Variations {
  import opened Types
  import opened Order
  import opened Sorting
  import opened SingleOrVec
  import opened SpriteIdWithWeight
  import opened Atlas
  import opened Tileset

  // ---------------------------------------------------------------------
  // Atlas construction (src/main.rs:231-268)
  // ---------------------------------------------------------------------

  /**
   * The panics of the atlas loop.  `unwrap_or(self.tile_info[0].width)`
   * evaluates its argument first, so an empty `tile_info` panics even when
   * the block gives its own size; a zero cell size panics in the `%` of
   * line 242 or the `/` of lines 254-255; `tiles_total()` and
   * `tiles_start + tiles_total()` panic on `u32` overflow.
   */
  datatype BuildError = NoTileInfo | ZeroSpriteSize(block: nat) | IdOverflow(block: nat)

  /** The cell width of block `k`: its own `sprite_width`, else `tile_info[0].width`. */
  function SpriteWidth(ts: Tileset, k: nat): u32
    requires |ts.tileInfo| > 0 && k < |ts.tilesNew|
  {
    ts.tilesNew[k].spriteWidth.GetOr(ts.tileInfo[0].width)
  }

  function SpriteHeight(ts: Tileset, k: nat): u32
    requires |ts.tileInfo| > 0 && k < |ts.tilesNew|
  {
    ts.tilesNew[k].spriteHeight.GetOr(ts.tileInfo[0].height)
  }

  /** Blocks `0 .. n-1` have a cell size, and it is not zero. */
  ghost predicate SizesOkBelow(ts: Tileset, n: nat) {
    && n <= |ts.tilesNew|
    && (n > 0 ==> |ts.tileInfo| > 0)
    && forall k :: 0 <= k < n ==> SpriteWidth(ts, k) > 0 && SpriteHeight(ts, k) > 0
  }

  /** `tiles_x * tiles_y` of block `k`. */
  function CellCount(ts: Tileset, k: nat): nat
    requires SizesOkBelow(ts, k + 1)
  {
    (ts.tilesNew[k].image.width / SpriteWidth(ts, k)) * (ts.tilesNew[k].image.height / SpriteHeight(ts, k))
  }

  /** The number of cells in blocks `0 .. n-1`: where block `n`'s range starts. */
  function CellsBefore(ts: Tileset, n: nat): nat
    requires SizesOkBelow(ts, n)
  {
    if n == 0 then 0 else CellsBefore(ts, n - 1) + CellCount(ts, n - 1)
  }

  lemma {:induction false} CellsBeforeMonotone(ts: Tileset, i: nat, j: nat)
    requires i <= j && SizesOkBelow(ts, j)
    ensures CellsBefore(ts, i) <= CellsBefore(ts, j)
    decreases j
  {
    if i < j {
      CellsBeforeMonotone(ts, i, j - 1);
    }
  }

  /** Every block has a non-zero cell size and all ids fit in `u32`. */
  ghost predicate Buildable(ts: Tileset) {
    SizesOkBelow(ts, |ts.tilesNew|) && CellsBefore(ts, |ts.tilesNew|) < U32_LIMIT
  }

  /** The atlas built for block `k`. */
  function AtlasFor(ts: Tileset, k: nat): (a: TileAtlas)
    requires SizesOkBelow(ts, k + 1) && CellsBefore(ts, k + 1) < U32_LIMIT
    ensures a.Valid()
  {
    var img := ts.tilesNew[k].image;
    var w, h := SpriteWidth(ts, k), SpriteHeight(ts, k);
    TileAtlas(img, w, h, img.width / w, img.height / h, CellsBefore(ts, k), CellsBefore(ts, k + 1))
  }

  /** The atlases of blocks `0 .. n-1`, in declaration order. */
  function AtlasesUpTo(ts: Tileset, n: nat): (atlases: seq<TileAtlas>)
    requires SizesOkBelow(ts, n) && CellsBefore(ts, n) < U32_LIMIT
    ensures |atlases| == n
    ensures forall k :: 0 <= k < n ==> atlases[k].Valid()
    ensures n > 0 ==> atlases[n - 1].tilesEnd == CellsBefore(ts, n)
  {
    if n == 0 then []
    else AtlasesUpTo(ts, n - 1) + [AtlasFor(ts, n - 1)]
  }

  /** The atlases of a buildable tileset, one per block. */
  function Atlases(ts: Tileset): (atlases: seq<TileAtlas>)
    requires Buildable(ts)
    ensures |atlases| == |ts.tilesNew|
    ensures forall k :: 0 <= k < |atlases| ==> atlases[k].Valid()
  {
    AtlasesUpTo(ts, |ts.tilesNew|)
  }

  /** The first loop of `generate_variations`, with its running `tiles_start`. */
  method BuildAtlases(ts: Tileset) returns (r: Result<seq<TileAtlas>, BuildError>)
    ensures r.Ok? <==> Buildable(ts)
    ensures r.Ok? ==> r.value == Atlases(ts)
    ensures r == Err(NoTileInfo) <==> |ts.tilesNew| > 0 && |ts.tileInfo| == 0
  {
    var tilesStart: u32 := 0;
    var atlases: seq<TileAtlas> := [];
    var i := 0;
    while i < |ts.tilesNew|
      invariant 0 <= i <= |ts.tilesNew|
      invariant SizesOkBelow(ts, i)
      invariant tilesStart == CellsBefore(ts, i)
      invariant atlases == AtlasesUpTo(ts, i)
    {
      var step := BuildAtlas(ts, i, tilesStart);
      if step.Err? {
        if SizesOkBelow(ts, i + 1) {
          NotBuildableAfterOverflow(ts, i);
        }
        return Err(step.error);
      }
      tilesStart := step.value.tilesEnd;
      atlases := atlases + [step.value];
      i := i + 1;
    }
    return Ok(atlases);
  }

  /** One iteration of the atlas loop: block `i`'s atlas, or the panic it hits (src/main.rs:234-265). */
  method BuildAtlas(ts: Tileset, i: nat, tilesStart: u32) returns (r: Result<TileAtlas, BuildError>)
    requires i < |ts.tilesNew| && SizesOkBelow(ts, i) && tilesStart == CellsBefore(ts, i)
    ensures r.Ok? <==> SizesOkBelow(ts, i + 1) && CellsBefore(ts, i + 1) < U32_LIMIT
    ensures r.Ok? ==> r.value == AtlasFor(ts, i)
    ensures r == Err(NoTileInfo) <==> |ts.tileInfo| == 0
  {
    var tn := ts.tilesNew[i];
    if |ts.tileInfo| == 0 {
      return Err(NoTileInfo);
    }
    var spriteW := tn.spriteWidth.GetOr(ts.tileInfo[0].width);
    var spriteH := tn.spriteHeight.GetOr(ts.tileInfo[0].height);
    if spriteW == 0 || spriteH == 0 {
      assert !(SpriteWidth(ts, i) > 0 && SpriteHeight(ts, i) > 0);
      return Err(ZeroSpriteSize(i));
    }
    var tilesX: u32, tilesY: u32 := tn.image.width / spriteW, tn.image.height / spriteH;
    var total: nat := tilesX * tilesY;
    StepCells(ts, i, tilesX, tilesY);
    if total >= U32_LIMIT || tilesStart + total >= U32_LIMIT {
      assert CellsBefore(ts, i + 1) >= U32_LIMIT;
      return Err(IdOverflow(i));
    }
    var atlas := TileAtlas(tn.image, spriteW, spriteH, tilesX, tilesY, tilesStart, tilesStart);
    atlas := atlas.(tilesEnd := tilesStart + total);
    assert atlas == AtlasFor(ts, i);
    return Ok(atlas);
  }

  /** One step of the running counter: block `i` adds its `tiles_x * tiles_y` cells. */
  lemma StepCells(ts: Tileset, i: nat, tilesX: nat, tilesY: nat)
    requires i < |ts.tilesNew| && SizesOkBelow(ts, i) && |ts.tileInfo| > 0
    requires SpriteWidth(ts, i) > 0 && SpriteHeight(ts, i) > 0
    requires tilesX == ts.tilesNew[i].image.width / SpriteWidth(ts, i)
    requires tilesY == ts.tilesNew[i].image.height / SpriteHeight(ts, i)
    ensures SizesOkBelow(ts, i + 1)
    ensures CellsBefore(ts, i + 1) == CellsBefore(ts, i) + tilesX * tilesY
  {
  }

  lemma NotBuildableAfterOverflow(ts: Tileset, i: nat)
    requires i < |ts.tilesNew| && SizesOkBelow(ts, i + 1) && CellsBefore(ts, i + 1) >= U32_LIMIT
    ensures !Buildable(ts)
  {
    if SizesOkBelow(ts, |ts.tilesNew|) {
      CellsBeforeMonotone(ts, i + 1, |ts.tilesNew|);
    }
  }

  /** Block `k`'s atlas sits at position `k` of the list built for the first `n` blocks. */
  lemma {:induction false} AtlasesUpToAt(ts: Tileset, n: nat, k: nat)
    requires SizesOkBelow(ts, n) && CellsBefore(ts, n) < U32_LIMIT && k < n
    ensures SizesOkBelow(ts, k + 1) && CellsBefore(ts, k + 1) < U32_LIMIT
    ensures AtlasesUpTo(ts, n)[k] == AtlasFor(ts, k)
    decreases n
  {
    CellsBeforeMonotone(ts, k + 1, n);
    if k < n - 1 {
      AtlasesUpToAt(ts, n - 1, k);
    }
  }

  /**
   * Range contiguity: the first atlas starts at id 0, atlas `k` owns
   * `[CellsBefore(k), CellsBefore(k + 1))`, and each atlas starts where the
   * previous one ends.
   */
  lemma AtlasRanges(ts: Tileset, k: nat)
    requires Buildable(ts) && k < |ts.tilesNew|
    ensures SizesOkBelow(ts, k + 1)
    ensures Atlases(ts)[k].tilesStart == CellsBefore(ts, k)
    ensures Atlases(ts)[k].tilesEnd == CellsBefore(ts, k + 1)
    ensures Atlases(ts)[k].tilesEnd == Atlases(ts)[k].tilesStart + Atlases(ts)[k].TilesTotal()
    ensures k == 0 ==> Atlases(ts)[k].tilesStart == 0
    ensures k + 1 < |ts.tilesNew| ==> Atlases(ts)[k].tilesEnd == Atlases(ts)[k + 1].tilesStart
  {
    AtlasesUpToAt(ts, |ts.tilesNew|, k);
    if k + 1 < |ts.tilesNew| {
      AtlasesUpToAt(ts, |ts.tilesNew|, k + 1);
    }
  }

  /** The ranges are disjoint: at most one atlas owns an id. */
  lemma OwnerUnique(ts: Tileset, id: u32, k: nat, k': nat)
    requires Buildable(ts) && k < |ts.tilesNew| && k' < |ts.tilesNew|
    requires Atlases(ts)[k].InBounds(id) && Atlases(ts)[k'].InBounds(id)
    ensures k == k'
  {
    AtlasRanges(ts, k);
    AtlasRanges(ts, k');
    if k < k' {
      CellsBeforeMonotone(ts, k + 1, k');
    } else if k' < k {
      CellsBeforeMonotone(ts, k' + 1, k);
    }
  }

  /** The ranges cover `[0, CellsBefore(n))`: an id has an owner among the first `n` blocks exactly when it is below. */
  lemma {:induction false} OwnerExists(ts: Tileset, id: u32, n: nat)
    requires Buildable(ts) && n <= |ts.tilesNew|
    ensures SizesOkBelow(ts, n)
    ensures (exists k :: 0 <= k < n && Atlases(ts)[k].InBounds(id)) <==> id < CellsBefore(ts, n)
    decreases n
  {
    if n > 0 {
      OwnerExists(ts, id, n - 1);
      AtlasRanges(ts, n - 1);
      OwnedIsBelow(ts, id, n);
    }
  }

  /** An id in the range of one of the first `n` blocks lies below `CellsBefore(n)`. */
  lemma OwnedIsBelow(ts: Tileset, id: u32, n: nat)
    requires Buildable(ts) && n <= |ts.tilesNew|
    ensures SizesOkBelow(ts, n)
    ensures forall k :: 0 <= k < n && Atlases(ts)[k].InBounds(id) ==> id < CellsBefore(ts, n)
  {
    forall k | 0 <= k < n && Atlases(ts)[k].InBounds(id) ensures id < CellsBefore(ts, n) {
      AtlasRanges(ts, k);
      CellsBeforeMonotone(ts, k + 1, n);
    }
  }

  /**
   * Lookup across the built atlases: an id of block `k`'s range hashes with
   * block `k`'s atlas, and an id beyond every range hashes to 0.
   */
  lemma LookupInAtlases(ts: Tileset, hasher: Hasher, id: u32)
    requires Buildable(ts)
    ensures forall k :: 0 <= k < |ts.tilesNew| && Atlases(ts)[k].InBounds(id) ==>
      LookupHash(Atlases(ts), hasher, id) == Atlases(ts)[k].SpriteHash(hasher, id)
    ensures id >= CellsBefore(ts, |ts.tilesNew|) ==> LookupHash(Atlases(ts), hasher, id) == 0
  {
    var atlases := Atlases(ts);
    forall k | 0 <= k < |ts.tilesNew| && atlases[k].InBounds(id)
      ensures LookupHash(atlases, hasher, id) == atlases[k].SpriteHash(hasher, id)
    {
      forall j | 0 <= j < k ensures !atlases[j].InBounds(id) {
        if atlases[j].InBounds(id) {
          OwnerUnique(ts, id, j, k);
        }
      }
      LookupFirstMatch(atlases, hasher, id, k);
    }
    OwnerExists(ts, id, |ts.tilesNew|);
    if id >= CellsBefore(ts, |ts.tilesNew|) {
      LookupNoMatch(atlases, hasher, id);
    }
  }

  // ---------------------------------------------------------------------
  // Sprite hashing (src/main.rs:199-205)
  // ---------------------------------------------------------------------

  predicate AtlasesValid(atlases: seq<TileAtlas>) {
    forall k :: 0 <= k < |atlases| ==> atlases[k].Valid()
  }

  /** A list of atlases as `generate_variations` builds them. */
  type ValidAtlases = atlases: seq<TileAtlas> | AtlasesValid(atlases) witness []

  /** `hash_sprites` as a value: every sprite id replaced by its content hash. */
  function HashLayers(atlases: ValidAtlases, hasher: Hasher, layers: seq<SpriteIdWithWeight>): seq<SpriteIdWithWeight>
  {
    seq(|layers|, i requires 0 <= i < |layers| =>
      layers[i].(id := seq(|layers[i].id|, j requires 0 <= j < |layers[i].id| =>
        LookupHash(atlases, hasher, layers[i].id[j]))))
  }

  /** The nested loops of `hash_sprites`, overwriting each id in place. */
  method HashSprites(atlases: ValidAtlases, hasher: Hasher, layers: seq<SpriteIdWithWeight>)
    returns (r: seq<SpriteIdWithWeight>)
    ensures r == HashLayers(atlases, hasher, layers)
    ensures |r| == |layers|
    ensures forall i :: 0 <= i < |r| ==> r[i].weight == layers[i].weight && |r[i].id| == |layers[i].id|
    ensures forall i, j :: 0 <= i < |r| && 0 <= j < |r[i].id| ==>
      r[i].id[j] == LookupHash(atlases, hasher, layers[i].id[j])
  {
    r := layers;
    for i := 0 to |r|
      invariant |r| == |layers|
      invariant forall i' :: 0 <= i' < i ==> r[i'] == HashLayers(atlases, hasher, layers)[i']
      invariant forall i' :: i <= i' < |r| ==> r[i'] == layers[i']
    {
      var ids := r[i].id;
      for j := 0 to |ids|
        invariant |ids| == |layers[i].id|
        invariant forall j' :: 0 <= j' < j ==> ids[j'] == LookupHash(atlases, hasher, layers[i].id[j'])
        invariant forall j' :: j <= j' < |ids| ==> ids[j'] == layers[i].id[j']
      {
        var h := GetSpriteHash(atlases, hasher, ids[j]);
        ids := ids[j := h];
      }
      r := r[i := r[i].(id := ids)];
    }
  }

  // ---------------------------------------------------------------------
  // Expansion (src/main.rs:270-298)
  // ---------------------------------------------------------------------

  /** What `generate_variations` does to sprite ids: hash them (`do_hash`) with the built atlases, or keep them. */
  datatype Resolver = Resolver(doHash: bool, atlases: ValidAtlases, hasher: Hasher) {
    function Resolve(layers: seq<SpriteIdWithWeight>): seq<SpriteIdWithWeight> {
      if doHash then HashLayers(atlases, hasher, layers) else layers
    }
  }

  /** The tile emitted for one alias id of an authored tile (src/main.rs:274-282). */
  function ParentVariant(rv: Resolver, base: SingleTile, alias: string): (t: SingleTile)
    ensures t.id == [alias]
    ensures t.fg == rv.Resolve(base.fg) && t.bg == rv.Resolve(base.bg)
    ensures t.rotates == Some(if base.rotates.Some? then base.rotates.value else base.multitile)
    ensures t.multitile == base.multitile && t.animated == base.animated && t.height3d == base.height3d
  {
    var cloned := base.(id := FromSingle(alias));
    var cloned := if rv.doHash
      then cloned.(fg := HashLayers(rv.atlases, rv.hasher, cloned.fg), bg := HashLayers(rv.atlases, rv.hasher, cloned.bg))
      else cloned;
    if cloned.rotates.None? then cloned.(rotates := Some(cloned.multitile)) else cloned
  }

  /** The composite emitted for one alias id of one additional tile (src/main.rs:284-293). */
  function CompositeVariant(rv: Resolver, parent: SingleTile, alias: string, part: SingleTile, partAlias: string): (t: SingleTile)
    ensures t.id == [alias + "_" + partAlias]
    ensures t.fg == rv.Resolve(part.fg) && t.bg == rv.Resolve(part.bg)
    ensures t.rotates == Some(true)
    ensures t.multitile == part.multitile && t.animated == part.animated && t.height3d == parent.height3d
  {
    var cloned := part.(id := FromSingle(alias + "_" + partAlias));
    var cloned := if rv.doHash
      then cloned.(fg := HashLayers(rv.atlases, rv.hasher, cloned.fg), bg := HashLayers(rv.atlases, rv.hasher, cloned.bg))
      else cloned;
    cloned.(rotates := Some(true), height3d := parent.height3d)
  }

  /** An expanded tile: one id, and `rotates` decided. */
  predicate Expanded(t: SingleTile) {
    |t.id| == 1 && t.rotates.Some?
  }

  /** `Σ |at.id|` over the additional tiles. */
  function PartAliasCount(parts: seq<SingleTile>): nat {
    if |parts| == 0 then 0 else PartAliasCount(parts[..|parts| - 1]) + |parts[|parts| - 1].id|
  }

  /** The tiles one authored tile expands to: `|ids| * (1 + Σ |at.ids|)`. */
  function TileFanOut(tile: CompositeTile): nat {
    |tile.base.id| * (1 + PartAliasCount(tile.additionalTiles))
  }

  function TilesFanOut(tiles: seq<CompositeTile>): nat {
    if |tiles| == 0 then 0 else TilesFanOut(tiles[..|tiles| - 1]) + TileFanOut(tiles[|tiles| - 1])
  }

  function FanOut(blocks: seq<TilesNew>): nat {
    if |blocks| == 0 then 0 else FanOut(blocks[..|blocks| - 1]) + TilesFanOut(blocks[|blocks| - 1].tiles)
  }

  /** The composites for one part under one parent alias, in the order of the part's ids. */
  function PartAliasVariants(rv: Resolver, parent: SingleTile, alias: string, part: SingleTile, partAliases: seq<string>)
    : (r: seq<SingleTile>)
    ensures |r| == |partAliases|
    ensures forall m :: 0 <= m < |r| ==> r[m] == CompositeVariant(rv, parent, alias, part, partAliases[m])
  {
    if |partAliases| == 0 then []
    else
      PartAliasVariants(rv, parent, alias, part, partAliases[..|partAliases| - 1])
      + [CompositeVariant(rv, parent, alias, part, partAliases[|partAliases| - 1])]
  }

  /** The composites for every part under one parent alias, part by part. */
  function PartVariants(rv: Resolver, parent: SingleTile, alias: string, parts: seq<SingleTile>): (r: seq<SingleTile>)
    ensures |r| == PartAliasCount(parts)
  {
    if |parts| == 0 then []
    else
      var last := parts[|parts| - 1];
      PartVariants(rv, parent, alias, parts[..|parts| - 1]) + PartAliasVariants(rv, parent, alias, last, last.id)
  }

  /** One alias's output: its composites, then the parent (the order of the pushes). */
  function AliasOutput(rv: Resolver, tile: CompositeTile, alias: string): (r: seq<SingleTile>)
    ensures |r| == 1 + PartAliasCount(tile.additionalTiles)
  {
    var parent := ParentVariant(rv, tile.base, alias);
    PartVariants(rv, parent, alias, tile.additionalTiles) + [parent]
  }

  /** The output for the given aliases of one authored tile, alias by alias. */
  function AliasVariants(rv: Resolver, tile: CompositeTile, aliases: seq<string>): (r: seq<SingleTile>)
    ensures |r| == |aliases| * (1 + PartAliasCount(tile.additionalTiles))
  {
    if |aliases| == 0 then []
    else
      var per: nat := 1 + PartAliasCount(tile.additionalTiles);
      assert |aliases| * per == (|aliases| - 1) * per + per;
      AliasVariants(rv, tile, aliases[..|aliases| - 1]) + AliasOutput(rv, tile, aliases[|aliases| - 1])
  }

  /** The output for a list of authored tiles, tile by tile. */
  function TileVariants(rv: Resolver, tiles: seq<CompositeTile>): (r: seq<SingleTile>)
    ensures |r| == TilesFanOut(tiles)
  {
    if |tiles| == 0 then []
    else
      var last := tiles[|tiles| - 1];
      TileVariants(rv, tiles[..|tiles| - 1]) + AliasVariants(rv, last, last.base.id)
  }

  /** Everything pushed onto `ret` before sorting, block by block. */
  function Emitted(rv: Resolver, blocks: seq<TilesNew>): (r: seq<SingleTile>)
    ensures |r| == FanOut(blocks)
  {
    if |blocks| == 0 then []
    else Emitted(rv, blocks[..|blocks| - 1]) + TileVariants(rv, blocks[|blocks| - 1].tiles)
  }

  /** A clone with its sprite ids hashed in place when `do_hash` is set (src/main.rs:276-279, 287-290). */
  method ResolveSprites(rv: Resolver, t: SingleTile) returns (r: SingleTile)
    ensures r == t.(fg := rv.Resolve(t.fg), bg := rv.Resolve(t.bg))
  {
    r := t;
    if rv.doHash {
      var fg := HashSprites(rv.atlases, rv.hasher, r.fg);
      var bg := HashSprites(rv.atlases, rv.hasher, r.bg);
      r := r.(fg := fg, bg := bg);
    }
  }

  /** The loop over one additional tile's ids (src/main.rs:285-294). */
  method PushPartAliases(ret: seq<SingleTile>, rv: Resolver, cloned: SingleTile, alias: string, at: SingleTile)
    returns (out: seq<SingleTile>)
    ensures out == ret + PartAliasVariants(rv, cloned, alias, at, at.id)
  {
    out := ret;
    for m := 0 to |at.id|
      invariant out == ret + PartAliasVariants(rv, cloned, alias, at, at.id[..m])
    {
      var clonedAt := CloneForPart(rv, cloned, alias, at, at.id[m]);
      ghost var done := PartAliasVariants(rv, cloned, alias, at, at.id[..m]);
      assert at.id[..m + 1][..m] == at.id[..m];
      assert PartAliasVariants(rv, cloned, alias, at, at.id[..m + 1]) == done + [clonedAt];
      AppendAssoc(ret, done, [clonedAt]);
      out := out + [clonedAt];
    }
    assert at.id[..|at.id|] == at.id;
  }

  /** The clone of an additional tile for one of its ids (src/main.rs:286-292). */
  method CloneForPart(rv: Resolver, cloned: SingleTile, alias: string, at: SingleTile, partAlias: string)
    returns (clonedAt: SingleTile)
    ensures clonedAt == CompositeVariant(rv, cloned, alias, at, partAlias)
  {
    clonedAt := at;
    clonedAt := clonedAt.(id := FromSingle(alias + "_" + partAlias));
    clonedAt := ResolveSprites(rv, clonedAt);
    clonedAt := clonedAt.(rotates := Some(true));
    clonedAt := clonedAt.(height3d := cloned.height3d);
  }

  /** The loop over `additional_tiles` for one parent alias (src/main.rs:284-295). */
  method PushComposites(ret: seq<SingleTile>, rv: Resolver, cloned: SingleTile, alias: string, parts: seq<SingleTile>)
    returns (out: seq<SingleTile>)
    ensures out == ret + PartVariants(rv, cloned, alias, parts)
  {
    out := ret;
    for b := 0 to |parts|
      invariant out == ret + PartVariants(rv, cloned, alias, parts[..b])
    {
      ghost var done := PartVariants(rv, cloned, alias, parts[..b]);
      out := PushPartAliases(out, rv, cloned, alias, parts[b]);
      assert parts[..b + 1][..b] == parts[..b];
      AppendAssoc(ret, done, PartAliasVariants(rv, cloned, alias, parts[b], parts[b].id));
    }
    assert parts[..|parts|] == parts;
  }

  /** The parent clone for one alias id (src/main.rs:274-282). */
  method CloneForAlias(rv: Resolver, base: SingleTile, id: string) returns (cloned: SingleTile)
    ensures cloned == ParentVariant(rv, base, id)
  {
    cloned := base;
    cloned := cloned.(id := FromSingle(id));
    cloned := ResolveSprites(rv, cloned);
    if cloned.rotates.None? {
      cloned := cloned.(rotates := Some(cloned.multitile));
    }
  }

  /** The loop over one authored tile's alias ids (src/main.rs:272-297). */
  method PushTile(ret: seq<SingleTile>, rv: Resolver, tile: CompositeTile) returns (out: seq<SingleTile>)
    ensures out == ret + AliasVariants(rv, tile, tile.base.id)
  {
    out := ret;
    var aliases := tile.base.id;
    for a := 0 to |aliases|
      invariant out == ret + AliasVariants(rv, tile, aliases[..a])
    {
      ghost var done := AliasVariants(rv, tile, aliases[..a]);
      ghost var more := AliasOutput(rv, tile, aliases[a]);
      out := PushAlias(out, rv, tile, aliases[a]);
      AliasVariantsSnoc(rv, tile, aliases, a);
      AppendAssoc(ret, done, more);
    }
    assert aliases[..|aliases|] == aliases;
  }

  lemma AliasVariantsSnoc(rv: Resolver, tile: CompositeTile, aliases: seq<string>, a: nat)
    requires a < |aliases|
    ensures AliasVariants(rv, tile, aliases[..a + 1]) == AliasVariants(rv, tile, aliases[..a]) + AliasOutput(rv, tile, aliases[a])
  {
    assert aliases[..a + 1][..a] == aliases[..a];
  }

  /** One alias id of an authored tile: its composites, then the parent (src/main.rs:273-296). */
  method PushAlias(ret: seq<SingleTile>, rv: Resolver, tile: CompositeTile, id: string) returns (out: seq<SingleTile>)
    ensures out == ret + AliasOutput(rv, tile, id)
  {
    var cloned := CloneForAlias(rv, tile.base, id);
    out := PushComposites(ret, rv, cloned, id, tile.additionalTiles);
    out := out + [cloned];
  }

  /** The second loop of `generate_variations`: every tile of every block, in order (src/main.rs:270-300). */
  method ExpandBlocks(rv: Resolver, blocks: seq<TilesNew>) returns (ret: seq<SingleTile>)
    ensures ret == Emitted(rv, blocks)
  {
    ret := [];
    for k := 0 to |blocks|
      invariant ret == Emitted(rv, blocks[..k])
    {
      var tiles := blocks[k].tiles;
      for j := 0 to |tiles|
        invariant ret == Emitted(rv, blocks[..k]) + TileVariants(rv, tiles[..j])
      {
        ghost var done := TileVariants(rv, tiles[..j]);
        ret := PushTile(ret, rv, tiles[j]);
        assert tiles[..j + 1][..j] == tiles[..j];
        AppendAssoc(Emitted(rv, blocks[..k]), done, AliasVariants(rv, tiles[j], tiles[j].base.id));
      }
      assert tiles[..|tiles|] == tiles;
      assert blocks[..k + 1][..k] == blocks[..k];
    }
    assert blocks[..|blocks|] == blocks;
  }

  /** `ret.sort()` (src/main.rs:302): the derived order on `SingleTile`. */
  method SortTiles(tiles: seq<SingleTile>) returns (sorted: seq<SingleTile>)
    ensures SortedBy(CmpTile, sorted)
    ensures multiset(sorted) == multiset(tiles)
  {
    CmpTileTotal();
    sorted := SortBy(CmpTile, tiles);
  }

  /** The variations and the atlases `generate_variations` returns. */
  datatype Variations = Variations(tiles: seq<SingleTile>, atlases: seq<TileAtlas>)

  /**
   * `generate_variations(do_hash, _)`: build the atlases, expand every
   * authored tile of every block, then sort by the derived order.
   */
  method GenerateVariations(ts: Tileset, doHash: bool, hasher: Hasher) returns (r: Result<Variations, BuildError>)
    ensures r.Ok? <==> Buildable(ts)
    ensures r.Ok? ==> r.value.atlases == Atlases(ts)
    ensures r.Ok? ==> SortedBy(CmpTile, r.value.tiles)
    ensures r.Ok? ==> multiset(r.value.tiles) == multiset(Emitted(Resolver(doHash, Atlases(ts), hasher), ts.tilesNew))
  {
    var built := BuildAtlases(ts);
    if built.Err? {
      return Err(built.error);
    }
    var atlases := built.value;
    var rv := Resolver(doHash, atlases, hasher);
    var ret := ExpandBlocks(rv, ts.tilesNew);
    ret := SortTiles(ret);
    return Ok(Variations(ret, atlases));
  }

  // ---------------------------------------------------------------------
  // What is emitted, independently of the order of the pushes
  // ---------------------------------------------------------------------

  /** `t` is the parent or one of the composites emitted for alias `alias` of `tile`. */
  ghost predicate FromAlias(rv: Resolver, tile: CompositeTile, alias: string, t: SingleTile) {
    var parent := ParentVariant(rv, tile.base, alias);
    || t == parent
    || exists b, m :: 0 <= b < |tile.additionalTiles| && 0 <= m < |tile.additionalTiles[b].id|
         && t == CompositeVariant(rv, parent, alias, tile.additionalTiles[b], tile.additionalTiles[b].id[m])
  }

  /** `t` comes from some alias of one of these authored tiles. */
  ghost predicate FromTiles(rv: Resolver, tiles: seq<CompositeTile>, t: SingleTile) {
    exists j, a :: 0 <= j < |tiles| && 0 <= a < |tiles[j].base.id| && FromAlias(rv, tiles[j], tiles[j].base.id[a], t)
  }

  /** `t` comes from some alias of some authored tile of some block. */
  ghost predicate Generated(rv: Resolver, blocks: seq<TilesNew>, t: SingleTile) {
    exists k :: 0 <= k < |blocks| && FromTiles(rv, blocks[k].tiles, t)
  }

  // Each level of the expansion, in both directions: every promised tile is
  // pushed (`...Has`), and everything pushed was promised (`...From`).

  lemma {:induction false} PartVariantsHas(rv: Resolver, parent: SingleTile, alias: string, parts: seq<SingleTile>, b: nat, m: nat)
    requires b < |parts| && m < |parts[b].id|
    ensures CompositeVariant(rv, parent, alias, parts[b], parts[b].id[m]) in PartVariants(rv, parent, alias, parts)
    decreases |parts|
  {
    var n := |parts| - 1;
    var init := PartVariants(rv, parent, alias, parts[..n]);
    var tail := PartAliasVariants(rv, parent, alias, parts[n], parts[n].id);
    assert PartVariants(rv, parent, alias, parts) == init + tail;
    if b < n {
      PartVariantsHas(rv, parent, alias, parts[..n], b, m);
      assert parts[..n][b] == parts[b];
    } else {
      assert tail[m] in tail;
    }
  }

  lemma {:induction false} PartVariantsFrom(rv: Resolver, parent: SingleTile, alias: string, parts: seq<SingleTile>, t: SingleTile)
    requires t in PartVariants(rv, parent, alias, parts)
    ensures exists b, m :: 0 <= b < |parts| && 0 <= m < |parts[b].id| && t == CompositeVariant(rv, parent, alias, parts[b], parts[b].id[m])
    decreases |parts|
  {
    var n := |parts| - 1;
    var init := parts[..n];
    var tail := PartAliasVariants(rv, parent, alias, parts[n], parts[n].id);
    if t in PartVariants(rv, parent, alias, init) {
      PartVariantsFrom(rv, parent, alias, init, t);
      var b, m :| 0 <= b < |init| && 0 <= m < |init[b].id| && t == CompositeVariant(rv, parent, alias, init[b], init[b].id[m]);
      assert init[b] == parts[b];
    } else {
      assert t in tail;
      var m :| 0 <= m < |tail| && tail[m] == t;
      assert t == CompositeVariant(rv, parent, alias, parts[n], parts[n].id[m]);
    }
  }

  lemma {:induction false} AliasVariantsHas(rv: Resolver, tile: CompositeTile, aliases: seq<string>, a: nat, t: SingleTile)
    requires a < |aliases| && FromAlias(rv, tile, aliases[a], t)
    ensures t in AliasVariants(rv, tile, aliases)
    decreases |aliases|
  {
    var n := |aliases| - 1;
    if a < n {
      AliasVariantsHas(rv, tile, aliases[..n], a, t);
      assert aliases[..n][a] == aliases[a];
    } else {
      var parent := ParentVariant(rv, tile.base, aliases[n]);
      if t != parent {
        var b, m :| 0 <= b < |tile.additionalTiles| && 0 <= m < |tile.additionalTiles[b].id|
          && t == CompositeVariant(rv, parent, aliases[n], tile.additionalTiles[b], tile.additionalTiles[b].id[m]);
        PartVariantsHas(rv, parent, aliases[n], tile.additionalTiles, b, m);
      }
      assert t in AliasOutput(rv, tile, aliases[n]);
    }
  }

  lemma {:induction false} AliasVariantsFrom(rv: Resolver, tile: CompositeTile, aliases: seq<string>, t: SingleTile)
    requires t in AliasVariants(rv, tile, aliases)
    ensures exists a :: 0 <= a < |aliases| && FromAlias(rv, tile, aliases[a], t)
    decreases |aliases|
  {
    var n := |aliases| - 1;
    var init := aliases[..n];
    if t in AliasVariants(rv, tile, init) {
      AliasVariantsFrom(rv, tile, init, t);
      var a :| 0 <= a < |init| && FromAlias(rv, tile, init[a], t);
      assert init[a] == aliases[a];
    } else {
      var parent := ParentVariant(rv, tile.base, aliases[n]);
      assert t in PartVariants(rv, parent, aliases[n], tile.additionalTiles) + [parent];
      if t != parent {
        PartVariantsFrom(rv, parent, aliases[n], tile.additionalTiles, t);
      }
      assert FromAlias(rv, tile, aliases[n], t);
    }
  }

  lemma {:induction false} TileVariantsHas(rv: Resolver, tiles: seq<CompositeTile>, j: nat, a: nat, t: SingleTile)
    requires j < |tiles| && a < |tiles[j].base.id| && FromAlias(rv, tiles[j], tiles[j].base.id[a], t)
    ensures t in TileVariants(rv, tiles)
    decreases |tiles|
  {
    var n := |tiles| - 1;
    if j < n {
      TileVariantsHas(rv, tiles[..n], j, a, t);
      assert tiles[..n][j] == tiles[j];
    } else {
      AliasVariantsHas(rv, tiles[n], tiles[n].base.id, a, t);
    }
  }

  lemma {:induction false} TileVariantsFrom(rv: Resolver, tiles: seq<CompositeTile>, t: SingleTile)
    requires t in TileVariants(rv, tiles)
    ensures FromTiles(rv, tiles, t)
    decreases |tiles|
  {
    var n := |tiles| - 1;
    var init := tiles[..n];
    if t in TileVariants(rv, init) {
      TileVariantsFrom(rv, init, t);
      var j, a :| 0 <= j < |init| && 0 <= a < |init[j].base.id| && FromAlias(rv, init[j], init[j].base.id[a], t);
      assert init[j] == tiles[j];
    } else {
      AliasVariantsFrom(rv, tiles[n], tiles[n].base.id, t);
    }
  }

  lemma {:induction false} EmittedHas(rv: Resolver, blocks: seq<TilesNew>, k: nat, j: nat, a: nat, t: SingleTile)
    requires k < |blocks| && j < |blocks[k].tiles| && a < |blocks[k].tiles[j].base.id|
    requires FromAlias(rv, blocks[k].tiles[j], blocks[k].tiles[j].base.id[a], t)
    ensures t in Emitted(rv, blocks)
    decreases |blocks|
  {
    var n := |blocks| - 1;
    assert Emitted(rv, blocks) == Emitted(rv, blocks[..n]) + TileVariants(rv, blocks[n].tiles);
    if k < n {
      assert blocks[..n][k] == blocks[k];
      EmittedHas(rv, blocks[..n], k, j, a, t);
    } else {
      TileVariantsHas(rv, blocks[k].tiles, j, a, t);
    }
  }

  lemma {:induction false} EmittedFrom(rv: Resolver, blocks: seq<TilesNew>, t: SingleTile)
    requires t in Emitted(rv, blocks)
    ensures Generated(rv, blocks, t)
    decreases |blocks|
  {
    var n := |blocks| - 1;
    var init := blocks[..n];
    if t in Emitted(rv, init) {
      EmittedFrom(rv, init, t);
      var k :| 0 <= k < |init| && FromTiles(rv, init[k].tiles, t);
      assert init[k] == blocks[k];
    } else {
      TileVariantsFrom(rv, blocks[n].tiles, t);
    }
  }

  /**
   * Exactly the parents and composites of every alias of every authored
   * tile are emitted: nothing is lost and nothing else appears.
   */
  lemma EmittedMembers(rv: Resolver, blocks: seq<TilesNew>, t: SingleTile)
    ensures t in Emitted(rv, blocks) <==> Generated(rv, blocks, t)
  {
    if t in Emitted(rv, blocks) {
      EmittedFrom(rv, blocks, t);
    }
    if Generated(rv, blocks, t) {
      var k :| 0 <= k < |blocks| && FromTiles(rv, blocks[k].tiles, t);
      var j, a :| 0 <= j < |blocks[k].tiles| && 0 <= a < |blocks[k].tiles[j].base.id|
        && FromAlias(rv, blocks[k].tiles[j], blocks[k].tiles[j].base.id[a], t);
      EmittedHas(rv, blocks, k, j, a, t);
    }
  }

  /** Every emitted tile has exactly one id and a decided `rotates`. */
  lemma EmittedExpanded(rv: Resolver, blocks: seq<TilesNew>, t: SingleTile)
    requires t in Emitted(rv, blocks)
    ensures Expanded(t)
  {
    EmittedFrom(rv, blocks, t);
    var k :| 0 <= k < |blocks| && FromTiles(rv, blocks[k].tiles, t);
    var j, a :| 0 <= j < |blocks[k].tiles| && 0 <= a < |blocks[k].tiles[j].base.id|
      && FromAlias(rv, blocks[k].tiles[j], blocks[k].tiles[j].base.id[a], t);
  }

  /**
   * The sorted result of `generate_variations` has `FanOut` tiles, each with
   * exactly one id and a decided `rotates`, and holds exactly the generated
   * tiles.
   */
  lemma VariationsShape(rv: Resolver, blocks: seq<TilesNew>, tiles: seq<SingleTile>)
    requires multiset(tiles) == multiset(Emitted(rv, blocks))
    ensures |tiles| == FanOut(blocks)
    ensures forall t :: t in tiles ==> Expanded(t)
    ensures forall t :: t in tiles <==> Generated(rv, blocks, t)
  {
    var emitted := Emitted(rv, blocks);
    assert |tiles| == |multiset(tiles)| == |multiset(emitted)| == |emitted|;
    forall t ensures t in tiles <==> Generated(rv, blocks, t) {
      assert t in tiles <==> t in multiset(tiles);
      assert t in emitted <==> t in multiset(emitted);
      EmittedMembers(rv, blocks, t);
    }
    forall t | t in tiles ensures Expanded(t) {
      assert t in multiset(emitted);
      EmittedExpanded(rv, blocks, t);
    }
  }

  // ---------------------------------------------------------------------
  // Hashing commutes with expansion
  // ---------------------------------------------------------------------

  /** A tile with its fg and bg sprite ids hashed. */
  function HashTile(atlases: ValidAtlases, hasher: Hasher, t: SingleTile): SingleTile {
    t.(fg := HashLayers(atlases, hasher, t.fg), bg := HashLayers(atlases, hasher, t.bg))
  }

  lemma PartAliasVariantsHashed(atlases: ValidAtlases, hasher: Hasher, pH: SingleTile, pP: SingleTile,
                                alias: string, part: SingleTile, pas: seq<string>)
    requires pH.height3d == pP.height3d
    ensures PartAliasVariants(Resolver(true, atlases, hasher), pH, alias, part, pas)
         == MapSeq(t => HashTile(atlases, hasher, t), PartAliasVariants(Resolver(false, atlases, hasher), pP, alias, part, pas))
  {
  }

  lemma {:induction false} PartVariantsHashed(atlases: ValidAtlases, hasher: Hasher, pH: SingleTile, pP: SingleTile,
                                              alias: string, parts: seq<SingleTile>)
    requires pH.height3d == pP.height3d
    ensures PartVariants(Resolver(true, atlases, hasher), pH, alias, parts)
         == MapSeq(t => HashTile(atlases, hasher, t), PartVariants(Resolver(false, atlases, hasher), pP, alias, parts))
    decreases |parts|
  {
    if |parts| > 0 {
      var n := |parts| - 1;
      var f := t => HashTile(atlases, hasher, t);
      var rvP := Resolver(false, atlases, hasher);
      PartVariantsHashed(atlases, hasher, pH, pP, alias, parts[..n]);
      PartAliasVariantsHashed(atlases, hasher, pH, pP, alias, parts[n], parts[n].id);
      MapSeqConcat(f, PartVariants(rvP, pP, alias, parts[..n]), PartAliasVariants(rvP, pP, alias, parts[n], parts[n].id));
    }
  }

  lemma {:induction false} AliasVariantsHashed(atlases: ValidAtlases, hasher: Hasher, tile: CompositeTile, aliases: seq<string>)
    ensures AliasVariants(Resolver(true, atlases, hasher), tile, aliases)
         == MapSeq(t => HashTile(atlases, hasher, t), AliasVariants(Resolver(false, atlases, hasher), tile, aliases))
    decreases |aliases|
  {
    if |aliases| > 0 {
      var n := |aliases| - 1;
      var f := t => HashTile(atlases, hasher, t);
      var rvP := Resolver(false, atlases, hasher);
      AliasVariantsHashed(atlases, hasher, tile, aliases[..n]);
      AliasOutputHashed(atlases, hasher, tile, aliases[n]);
      MapSeqConcat(f, AliasVariants(rvP, tile, aliases[..n]), AliasOutput(rvP, tile, aliases[n]));
    }
  }

  lemma AliasOutputHashed(atlases: ValidAtlases, hasher: Hasher, tile: CompositeTile, alias: string)
    ensures AliasOutput(Resolver(true, atlases, hasher), tile, alias)
         == MapSeq(t => HashTile(atlases, hasher, t), AliasOutput(Resolver(false, atlases, hasher), tile, alias))
  {
    var f := t => HashTile(atlases, hasher, t);
    var rvH, rvP := Resolver(true, atlases, hasher), Resolver(false, atlases, hasher);
    var pH, pP := ParentVariant(rvH, tile.base, alias), ParentVariant(rvP, tile.base, alias);
    PartVariantsHashed(atlases, hasher, pH, pP, alias, tile.additionalTiles);
    assert pH == f(pP);
    MapSeqConcat(f, PartVariants(rvP, pP, alias, tile.additionalTiles), [pP]);
  }

  lemma {:induction false} TileVariantsHashed(atlases: ValidAtlases, hasher: Hasher, tiles: seq<CompositeTile>)
    ensures TileVariants(Resolver(true, atlases, hasher), tiles)
         == MapSeq(t => HashTile(atlases, hasher, t), TileVariants(Resolver(false, atlases, hasher), tiles))
    decreases |tiles|
  {
    if |tiles| > 0 {
      var n := |tiles| - 1;
      var rvP := Resolver(false, atlases, hasher);
      TileVariantsHashed(atlases, hasher, tiles[..n]);
      AliasVariantsHashed(atlases, hasher, tiles[n], tiles[n].base.id);
      MapSeqConcat(t => HashTile(atlases, hasher, t), TileVariants(rvP, tiles[..n]), AliasVariants(rvP, tiles[n], tiles[n].base.id));
    }
  }

  /**
   * Expanding with hashing on is expanding with hashing off and then hashing
   * every emitted tile: the two runs of `extract_tiles` emit the same tiles
   * in the same order, up to the sprite ids.
   */
  lemma {:induction false} EmittedHashed(atlases: ValidAtlases, hasher: Hasher, blocks: seq<TilesNew>)
    ensures Emitted(Resolver(true, atlases, hasher), blocks)
         == MapSeq(t => HashTile(atlases, hasher, t), Emitted(Resolver(false, atlases, hasher), blocks))
    decreases |blocks|
  {
    if |blocks| > 0 {
      var n := |blocks| - 1;
      var rvP := Resolver(false, atlases, hasher);
      EmittedHashed(atlases, hasher, blocks[..n]);
      TileVariantsHashed(atlases, hasher, blocks[n].tiles);
      MapSeqConcat(t => HashTile(atlases, hasher, t), Emitted(rvP, blocks[..n]), TileVariants(rvP, blocks[n].tiles));
    }
  }

  /** Without hashing, fg and bg are the authored layers. */
  lemma UnhashedKeepsSprites(atlases: ValidAtlases, hasher: Hasher, base: SingleTile, alias: string, part: SingleTile, partAlias: string)
    ensures ParentVariant(Resolver(false, atlases, hasher), base, alias).fg == base.fg
    ensures ParentVariant(Resolver(false, atlases, hasher), base, alias).bg == base.bg
    ensures CompositeVariant(Resolver(false, atlases, hasher), base, alias, part, partAlias).fg == part.fg
    ensures CompositeVariant(Resolver(false, atlases, hasher), base, alias, part, partAlias).bg == part.bg
  {
  }
}
