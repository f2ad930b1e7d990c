/**
 * One layer of a tile's sprites: a list of alternative sprite ids plus an
 * optional selection weight, normalised from either JSON shape.
 *
 * The Rust file declares the ids as `i32`, but `main.rs` passes them to
 * functions taking `u32` and stores `u32` hashes back into them; the model
 * follows `main.rs` and uses `u32` throughout.
 */
module SpriteIdWithWeight {
  import opened Types
  import opened Order
  import opened SingleOrVec

  type SpriteId = u32

  /** The normalised record; field order is the derived order's order. */
  datatype SpriteIdWithWeight = SpriteIdWithWeight(id: SingleOrVec<SpriteId>, weight: Option<i32>)

  /** The two JSON shapes accepted (untagged enum). */
  datatype SpriteIdSource =
    | IdOnly(id: SingleOrVec<SpriteId>)
    | WithWeight(weight: i32, sprite: SingleOrVec<SpriteId>)

  /** `From<SpriteIdSource>`. */
  function FromSource(src: SpriteIdSource): (r: SpriteIdWithWeight)
    ensures src.IdOnly? ==> r.id == src.id && r.weight == None
    ensures src.WithWeight? ==> r.id == src.sprite && r.weight == Some(src.weight)
  {
    match src
    case IdOnly(id) => SpriteIdWithWeight(id, None)
    case WithWeight(weight, sprite) => SpriteIdWithWeight(sprite, Some(weight))
  }

  /** The sprite ids the source names, in the order written. */
  function SourceIds(src: SpriteIdSource): SingleOrVec<SpriteId> {
    match src
    case IdOnly(id) => id
    case WithWeight(_, sprite) => sprite
  }

  /** The weight the source gives, if any. */
  function SourceWeight(src: SpriteIdSource): Option<i32> {
    match src
    case IdOnly(_) => None
    case WithWeight(weight, _) => Some(weight)
  }

  /** The derived `Default`: no ids and no weight. */
  function Default(): (r: SpriteIdWithWeight)
    ensures |r.id| == 0 && r.weight.None?
  {
    SpriteIdWithWeight([], None)
  }

  /** The derived `Ord`: ids lexicographically, then the weight. */
  function Cmp(a: SpriteIdWithWeight, b: SpriteIdWithWeight): Ordering {
    Then(LexCmp<int>(CmpInt, a.id, b.id), CmpOption<int>(CmpInt, a.weight, b.weight))
  }

  /** The derived `Ord` on a list of layers (a `SingleOrVec<SpriteIdWithWeight>`). */
  function CmpList(a: SingleOrVec<SpriteIdWithWeight>, b: SingleOrVec<SpriteIdWithWeight>): Ordering {
    LexCmp(Cmp, a, b)
  }

  /**
   * Conversion keeps the ids exactly (no reordering, dropping or
   * duplication) and the weight exactly, and loses nothing else: the
   * source is determined by the result.
   */
  lemma FromSourceFaithful(src: SpriteIdSource)
    ensures FromSource(src).id == SourceIds(src)
    ensures FromSource(src).weight == SourceWeight(src)
    ensures forall other: SpriteIdSource :: FromSource(other) == FromSource(src) ==> other == src
  {
  }

  /** A bare list sorts before every weighted entry with the same ids. */
  lemma UnweightedFirst(ids: SingleOrVec<SpriteId>, w: i32)
    ensures Cmp(FromSource(IdOnly(ids)), FromSource(WithWeight(w, ids))) == Less
  {
    CmpIntTotal();
    assert LexCmp<int>(CmpInt, ids, ids) == Equal by {
      LexSeparating<int>(CmpInt, ids, ids);
      LexAntisymmetric<int>(CmpInt, ids, ids);
    }
  }

  /** The derived order on `SpriteIdWithWeight` is a total order. */
  lemma CmpTotal()
    ensures TotalOrder(Cmp)
  {
    CmpIntTotal();
    forall a, b ensures Cmp(a, b) == Cmp(b, a).Flip() {
      LexAntisymmetric<int>(CmpInt, a.id, b.id);
      OptionAntisymmetric<int>(CmpInt, a.weight, b.weight);
    }
    forall a, b | Cmp(a, b) == Equal ensures a == b {
      LexAntisymmetric<int>(CmpInt, a.id, b.id);
      LexSeparating<int>(CmpInt, a.id, b.id);
      OptionSeparating<int>(CmpInt, a.weight, b.weight);
    }
    forall a, b, c | Cmp(a, b) != Greater && Cmp(b, c) != Greater ensures Cmp(a, c) != Greater {
      LexAntisymmetric<int>(CmpInt, a.id, b.id);
      LexAntisymmetric<int>(CmpInt, b.id, c.id);
      LexAntisymmetric<int>(CmpInt, a.id, c.id);
      LexSeparating<int>(CmpInt, a.id, b.id);
      LexSeparating<int>(CmpInt, b.id, c.id);
      LexSeparating<int>(CmpInt, a.id, c.id);
      LexTransitive<int>(CmpInt, a.id, b.id, c.id);
      OptionTransitive<int>(CmpInt, a.weight, b.weight, c.weight);
    }
  }

  /** The derived order on a list of layers is a total order. */
  lemma CmpListTotal()
    ensures TotalOrder(CmpList)
  {
    CmpTotal();
    forall a, b ensures CmpList(a, b) == CmpList(b, a).Flip() {
      LexAntisymmetric(Cmp, a, b);
    }
    forall a, b | CmpList(a, b) == Equal ensures a == b {
      LexSeparating(Cmp, a, b);
    }
    forall a, b, c | CmpList(a, b) != Greater && CmpList(b, c) != Greater ensures CmpList(a, c) != Greater {
      LexTransitive(Cmp, a, b, c);
    }
  }
}
