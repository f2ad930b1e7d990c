/**
 * The total orders Rust derives with `#[derive(Ord, PartialOrd, Eq, PartialEq)]`.
 *
 * A derived `Ord` on a struct compares the fields in declaration order and
 * stops at the first field that is not equal (`Then` below); `Vec<T>` and
 * `str` compare lexicographically with a proper prefix first (`LexCmp`);
 * `Option<T>` puts `None` before every `Some`; `bool` puts `false` before
 * `true`.  Every comparison is proved to be a total order, which is what the
 * sort in `Variations` and the duplicate scan in `Compare` rely on.
 */
module Order {
  import opened Types

  datatype Ordering = Less | Equal | Greater {
    /** The answer for the swapped pair. */
    function Flip(): Ordering {
      match this
      case Less => Greater
      case Equal => Equal
      case Greater => Less
    }
  }

  /** Lexicographic combination: `next` decides only when `first` is a tie. */
  function Then(first: Ordering, next: Ordering): Ordering {
    if first == Equal then next else first
  }

  ghost predicate Antisymmetric<T(!new)>(cmp: (T, T) -> Ordering) {
    forall a, b :: cmp(a, b) == cmp(b, a).Flip()
  }

  /** Only equal values compare `Equal` (what derived `Eq` and `Ord` agree on). */
  ghost predicate Separating<T(!new)>(cmp: (T, T) -> Ordering) {
    forall a, b :: cmp(a, b) == Equal ==> a == b
  }

  ghost predicate Transitive<T(!new)>(cmp: (T, T) -> Ordering) {
    forall a, b, c :: cmp(a, b) != Greater && cmp(b, c) != Greater ==> cmp(a, c) != Greater
  }

  ghost predicate TotalOrder<T(!new)>(cmp: (T, T) -> Ordering) {
    Antisymmetric(cmp) && Separating(cmp) && Transitive(cmp)
  }

  function CmpInt(a: int, b: int): Ordering {
    if a < b then Less else if a == b then Equal else Greater
  }

  function CmpBool(a: bool, b: bool): Ordering {
    if a == b then Equal else if !a then Less else Greater
  }

  /** Code-point order; on UTF-8 strings it agrees with Rust's byte order. */
  function CmpChar(a: char, b: char): Ordering {
    if a < b then Less else if a == b then Equal else Greater
  }

  function CmpOption<T>(cmp: (T, T) -> Ordering, a: Option<T>, b: Option<T>): Ordering {
    match (a, b)
    case (None, None) => Equal
    case (None, Some(_)) => Less
    case (Some(_), None) => Greater
    case (Some(x), Some(y)) => cmp(x, y)
  }

  /** Lexicographic order on sequences, a proper prefix first. */
  function LexCmp<T>(cmp: (T, T) -> Ordering, a: seq<T>, b: seq<T>): Ordering
    decreases |a|
  {
    if |a| == 0 then (if |b| == 0 then Equal else Less)
    else if |b| == 0 then Greater
    else Then(cmp(a[0], b[0]), LexCmp(cmp, a[1..], b[1..]))
  }

  /** Rust's `Ord` on `String` and `&str`. */
  function CmpString(a: string, b: string): Ordering {
    LexCmp(CmpChar, a, b)
  }

  lemma CmpIntTotal()
    ensures TotalOrder(CmpInt)
  {
  }

  lemma CmpBoolTotal()
    ensures TotalOrder(CmpBool)
  {
  }

  lemma CmpCharTotal()
    ensures TotalOrder(CmpChar)
  {
  }

  lemma OptionAntisymmetric<T(!new)>(cmp: (T, T) -> Ordering, a: Option<T>, b: Option<T>)
    requires Antisymmetric(cmp)
    ensures CmpOption(cmp, a, b) == CmpOption(cmp, b, a).Flip()
  {
  }

  lemma OptionSeparating<T(!new)>(cmp: (T, T) -> Ordering, a: Option<T>, b: Option<T>)
    requires Separating(cmp)
    ensures CmpOption(cmp, a, b) == Equal ==> a == b
  {
  }

  lemma OptionTransitive<T(!new)>(cmp: (T, T) -> Ordering, a: Option<T>, b: Option<T>, c: Option<T>)
    requires Transitive(cmp)
    ensures CmpOption(cmp, a, b) != Greater && CmpOption(cmp, b, c) != Greater ==> CmpOption(cmp, a, c) != Greater
  {
  }

  lemma {:induction false} LexAntisymmetric<T(!new)>(cmp: (T, T) -> Ordering, a: seq<T>, b: seq<T>)
    requires Antisymmetric(cmp)
    ensures LexCmp(cmp, a, b) == LexCmp(cmp, b, a).Flip()
    decreases |a|
  {
    if |a| > 0 && |b| > 0 {
      LexAntisymmetric(cmp, a[1..], b[1..]);
    }
  }

  lemma {:induction false} LexSeparating<T(!new)>(cmp: (T, T) -> Ordering, a: seq<T>, b: seq<T>)
    requires Separating(cmp)
    ensures LexCmp(cmp, a, b) == Equal ==> a == b
    decreases |a|
  {
    if |a| > 0 && |b| > 0 && LexCmp(cmp, a, b) == Equal {
      LexSeparating(cmp, a[1..], b[1..]);
      assert a == [a[0]] + a[1..] && b == [b[0]] + b[1..];
    }
  }

  lemma {:induction false} LexTransitive<T(!new)>(cmp: (T, T) -> Ordering, a: seq<T>, b: seq<T>, c: seq<T>)
    requires TotalOrder(cmp)
    ensures LexCmp(cmp, a, b) != Greater && LexCmp(cmp, b, c) != Greater ==> LexCmp(cmp, a, c) != Greater
    decreases |a|
  {
    if |a| > 0 && |b| > 0 && |c| > 0 {
      LexTransitive(cmp, a[1..], b[1..], c[1..]);
      assert cmp(a[0], b[0]) == cmp(b[0], a[0]).Flip();
      assert cmp(b[0], c[0]) == cmp(c[0], b[0]).Flip();
      assert cmp(a[0], c[0]) == cmp(c[0], a[0]).Flip();
    }
  }

  /** The derived order on `String` is a total order. */
  lemma CmpStringTotal()
    ensures TotalOrder(CmpString)
  {
    CmpCharTotal();
    forall a: string, b: string
      ensures CmpString(a, b) == CmpString(b, a).Flip()
    {
      LexAntisymmetric(CmpChar, a, b);
    }
    forall a: string, b: string | CmpString(a, b) == Equal
      ensures a == b
    {
      LexSeparating(CmpChar, a, b);
    }
    forall a: string, b: string, c: string | CmpString(a, b) != Greater && CmpString(b, c) != Greater
      ensures CmpString(a, c) != Greater
    {
      LexTransitive(CmpChar, a, b, c);
    }
  }

  /** A proper prefix sorts before the longer sequence. */
  lemma {:induction false} LexPrefixFirst<T(!new)>(cmp: (T, T) -> Ordering, a: seq<T>, b: seq<T>)
    requires Antisymmetric(cmp)
    requires |a| < |b| && a == b[..|a|]
    ensures LexCmp(cmp, a, b) == Less
    decreases |a|
  {
    if |a| > 0 {
      assert cmp(a[0], a[0]) == cmp(a[0], a[0]).Flip();
      assert b[1..][..|a| - 1] == a[1..];
      LexPrefixFirst(cmp, a[1..], b[1..]);
    }
  }
}
