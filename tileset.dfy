/**
 * The tileset document of `tile_config.json` after parsing (src/main.rs:20-105),
 * and the derived total order on `SingleTile`, the record that is expanded,
 * sorted, hashed and compared.
 *
 * Parsed-but-unused parts (`pixelscale`, sprite offsets, `ascii`,
 * `overlay_ordering`, comments) are not represented.  An atlas block holds
 * its decoded image instead of the image's file name.
 */
module Tileset {
  import opened Types
  import opened Order
  import opened SingleOrVec
  import opened SpriteIdWithWeight
  import opened Atlas

  /**
   * `SingleTile`.  Authored tiles may carry several alias ids; expanded
   * tiles carry exactly one.  The field order is the derived order's.
   */
  datatype SingleTile = SingleTile(
    id: SingleOrVec<string>,
    fg: SingleOrVec<SpriteIdWithWeight>,
    bg: SingleOrVec<SpriteIdWithWeight>,
    rotates: Option<bool>,
    multitile: bool,
    animated: bool,
    height3d: i32)

  /** `CompositeTile`: an authored tile and its multitile parts. */
  datatype CompositeTile = CompositeTile(base: SingleTile, additionalTiles: seq<SingleTile>)

  /** `TilesetTileInfo`: the default cell size. */
  datatype TilesetTileInfo = TilesetTileInfo(iso: bool, width: u32, height: u32)

  /** `TilesNew`: one atlas image with optional cell size and its tiles. */
  datatype TilesNew = TilesNew(
    image: RgbaImage,
    spriteWidth: Option<u32>,
    spriteHeight: Option<u32>,
    tiles: seq<CompositeTile>)

  datatype Tileset = Tileset(tileInfo: seq<TilesetTileInfo>, tilesNew: seq<TilesNew>)

  /** The derived order on the `id` field (`SingleOrVec<String>`). */
  function CmpIds(a: SingleOrVec<string>, b: SingleOrVec<string>): Ordering {
    LexCmp(CmpString, a, b)
  }

  /** The derived `Ord` on `SingleTile`: fields compared in declaration order. */
  function CmpTile(a: SingleTile, b: SingleTile): Ordering {
    Then(CmpIds(a.id, b.id),
    Then(CmpList(a.fg, b.fg),
    Then(CmpList(a.bg, b.bg),
    Then(CmpOption(CmpBool, a.rotates, b.rotates),
    Then(CmpBool(a.multitile, b.multitile),
    Then(CmpBool(a.animated, b.animated),
         CmpInt(a.height3d, b.height3d)))))))
  }

  lemma CmpIdsTotal()
    ensures TotalOrder(CmpIds)
  {
    CmpStringTotal();
    forall a, b ensures CmpIds(a, b) == CmpIds(b, a).Flip() {
      LexAntisymmetric(CmpString, a, b);
    }
    forall a, b | CmpIds(a, b) == Equal ensures a == b {
      LexSeparating(CmpString, a, b);
    }
    forall a, b, c | CmpIds(a, b) != Greater && CmpIds(b, c) != Greater ensures CmpIds(a, c) != Greater {
      LexTransitive(CmpString, a, b, c);
    }
  }

  /** Field-wise facts the proof of `CmpTileTotal` combines. */
  lemma FieldFacts(a: SingleTile, b: SingleTile)
    ensures CmpIds(a.id, b.id) == CmpIds(b.id, a.id).Flip()
    ensures CmpIds(a.id, b.id) == Equal ==> a.id == b.id
    ensures CmpList(a.fg, b.fg) == CmpList(b.fg, a.fg).Flip()
    ensures CmpList(a.fg, b.fg) == Equal ==> a.fg == b.fg
    ensures CmpList(a.bg, b.bg) == CmpList(b.bg, a.bg).Flip()
    ensures CmpList(a.bg, b.bg) == Equal ==> a.bg == b.bg
    ensures CmpOption(CmpBool, a.rotates, b.rotates) == CmpOption(CmpBool, b.rotates, a.rotates).Flip()
    ensures CmpOption(CmpBool, a.rotates, b.rotates) == Equal ==> a.rotates == b.rotates
  {
    CmpIdsTotal();
    CmpListTotal();
    CmpBoolTotal();
    OptionAntisymmetric(CmpBool, a.rotates, b.rotates);
    OptionSeparating(CmpBool, a.rotates, b.rotates);
  }

  /** The derived order on `SingleTile` is a total order, so `sort` is well defined. */
  lemma CmpTileTotal()
    ensures TotalOrder(CmpTile)
  {
    forall a, b ensures CmpTile(a, b) == CmpTile(b, a).Flip() {
      FieldFacts(a, b);
    }
    forall a, b | CmpTile(a, b) == Equal ensures a == b {
      FieldFacts(a, b);
    }
    forall a, b, c | CmpTile(a, b) != Greater && CmpTile(b, c) != Greater
      ensures CmpTile(a, c) != Greater
    {
      TileTransitive(a, b, c);
    }
  }

  lemma TileTransitive(a: SingleTile, b: SingleTile, c: SingleTile)
    requires CmpTile(a, b) != Greater && CmpTile(b, c) != Greater
    ensures CmpTile(a, c) != Greater
  {
    FieldFacts(a, b);
    FieldFacts(b, c);
    FieldFacts(a, c);
    CmpIdsTotal();
    CmpListTotal();
    CmpBoolTotal();
    assert CmpIds(a.id, b.id) != Greater && CmpIds(b.id, c.id) != Greater ==> CmpIds(a.id, c.id) != Greater;
    assert CmpList(a.fg, b.fg) != Greater && CmpList(b.fg, c.fg) != Greater ==> CmpList(a.fg, c.fg) != Greater;
    assert CmpList(a.bg, b.bg) != Greater && CmpList(b.bg, c.bg) != Greater ==> CmpList(a.bg, c.bg) != Greater;
    OptionTransitive(CmpBool, a.rotates, b.rotates, c.rotates);
  }

  /** Sorting by `CmpTile` sorts by id first. */
  lemma CmpTileById(a: SingleTile, b: SingleTile)
    ensures CmpIds(a.id, b.id) == Less ==> CmpTile(a, b) == Less
    ensures CmpTile(a, b) != Greater ==> CmpIds(a.id, b.id) != Greater
  {
  }
}
