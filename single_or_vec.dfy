/**
 * A JSON field that may be written either as one bare value or as a list,
 * normalised to a list.
 *
 * The Rust newtype `SingleOrVec<T>(Vec<T>)` derives `Eq`, `Ord` and
 * `Default` from its one field, so it is modelled as the sequence itself:
 * its equality is sequence equality, its order is `Order.LexCmp` and its
 * default is the empty sequence.
 */
module SingleOrVec {
  import opened Order

  type SingleOrVec<T> = seq<T>

  /** The two JSON shapes accepted for the field (untagged enum). */
  datatype SingleOrVecSource<T> = Single(v: T) | Vector(vs: seq<T>)

  /** `From<SingleOrVecSource<T>>`: a bare value becomes a one-element list. */
  function FromSource<T>(src: SingleOrVecSource<T>): (r: SingleOrVec<T>)
    ensures src.Single? ==> |r| == 1 && r[0] == src.v
    ensures src.Vector? ==> r == src.vs
  {
    match src
    case Single(v) => [v]
    case Vector(vs) => vs
  }

  /** `SingleOrVec::from_single`. */
  function FromSingle<T>(v: T): (r: SingleOrVec<T>)
    ensures |r| == 1 && r[0] == v
  {
    [v]
  }

  /** The derived `Default`: absent `fg`/`bg` fields become this. */
  function Default<T>(): (r: SingleOrVec<T>)
    ensures |r| == 0
  {
    []
  }

  /** The derived `Ord`. */
  function Cmp<T>(cmp: (T, T) -> Ordering, a: SingleOrVec<T>, b: SingleOrVec<T>): Ordering {
    LexCmp(cmp, a, b)
  }

  /** A bare value and a one-element list normalise to the same thing. */
  lemma SingleIsOneElementVector<T>(v: T)
    ensures FromSource(Single(v)) == FromSource(Vector([v])) == FromSingle(v)
  {
  }

  /** Normalisation is a projection: a normal form read back as a list is unchanged. */
  lemma FromSourceIdempotent<T>(src: SingleOrVecSource<T>)
    ensures FromSource(Vector(FromSource(src))) == FromSource(src)
  {
  }

  /** The normal form holds exactly the values written in the source, in order. */
  lemma FromSourceElements<T>(src: SingleOrVecSource<T>, x: T)
    ensures x in FromSource(src) <==> (src.Single? && x == src.v) || (src.Vector? && x in src.vs)
  {
  }

  /** The default is the least value of the derived order. */
  lemma {:induction false} DefaultIsLeast<T>(cmp: (T, T) -> Ordering, a: SingleOrVec<T>)
    ensures Cmp(cmp, Default(), a) != Greater
    ensures Cmp(cmp, Default(), a) == Equal <==> a == Default()
  {
  }
}
