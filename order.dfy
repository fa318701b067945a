/** Strict total orders and the lexicographic order pandas uses when it sorts group keys
    and Python uses when it compares strings and tuples. */
module Order {

  ghost predicate Irreflexive<T(!new)>(less: (T, T) -> bool) {
    forall a :: !less(a, a)
  }

  ghost predicate Transitive<T(!new)>(less: (T, T) -> bool) {
    forall a, b, c :: less(a, b) && less(b, c) ==> less(a, c)
  }

  ghost predicate Trichotomous<T(!new)>(less: (T, T) -> bool) {
    forall a, b :: a != b ==> less(a, b) || less(b, a)
  }

  ghost predicate StrictTotalOrder<T(!new)>(less: (T, T) -> bool) {
    Irreflexive(less) && Transitive(less) && Trichotomous(less)
  }

  function IntLess(a: int, b: int): bool { a < b }

  /** Lexicographic comparison: Python's `<` on tuples and strings. */
  function LexLess<T(==)>(a: seq<T>, b: seq<T>, less: (T, T) -> bool): bool
    decreases |a|
  {
    if |a| == 0 then |b| > 0
    else if |b| == 0 then false
    else if less(a[0], b[0]) then true
    else if a[0] == b[0] then LexLess(a[1..], b[1..], less)
    else false
  }

  /** Integer sequences in lexicographic order: the order of the tuple keys. */
  function IntSeqLess(a: seq<int>, b: seq<int>): bool
  {
    LexLess(a, b, IntLess)
  }

  lemma {:induction false} LexIrreflexive<T(!new)>(a: seq<T>, less: (T, T) -> bool)
    requires Irreflexive(less)
    ensures !LexLess(a, a, less)
    decreases |a|
  {
    if |a| > 0 {
      LexIrreflexive(a[1..], less);
    }
  }

  lemma {:induction false} LexTransitive<T(!new)>(a: seq<T>, b: seq<T>, c: seq<T>, less: (T, T) -> bool)
    requires StrictTotalOrder(less)
    requires LexLess(a, b, less) && LexLess(b, c, less)
    ensures LexLess(a, c, less)
    decreases |a|
  {
    if |a| > 0 && |b| > 0 && |c| > 0 {
      if a[0] == b[0] && b[0] == c[0] {
        LexTransitive(a[1..], b[1..], c[1..], less);
      } else {
        assert less(a[0], c[0]) by {
          if a[0] == b[0] {
          } else if b[0] == c[0] {
          } else {
            assert less(a[0], b[0]) && less(b[0], c[0]);
          }
        }
      }
    }
  }

  lemma {:induction false} LexTrichotomous<T(!new)>(a: seq<T>, b: seq<T>, less: (T, T) -> bool)
    requires Trichotomous(less)
    requires a != b
    ensures LexLess(a, b, less) || LexLess(b, a, less)
    decreases |a|
  {
    if |a| > 0 && |b| > 0 && a[0] == b[0] {
      assert a == [a[0]] + a[1..] && b == [b[0]] + b[1..];
      LexTrichotomous(a[1..], b[1..], less);
    }
  }

  /** The lexicographic order over a strict total order is one. */
  lemma LexIsStrictTotal<T(!new)>(less: (T, T) -> bool, lex: (seq<T>, seq<T>) -> bool)
    requires StrictTotalOrder(less)
    requires forall a, b :: lex(a, b) == LexLess(a, b, less)
    ensures StrictTotalOrder(lex)
  {
    forall a: seq<T> ensures !lex(a, a) {
      LexIrreflexive(a, less);
    }
    forall a: seq<T>, b: seq<T>, c: seq<T> | lex(a, b) && lex(b, c) ensures lex(a, c) {
      LexTransitive(a, b, c, less);
    }
    forall a: seq<T>, b: seq<T> | a != b ensures lex(a, b) || lex(b, a) {
      LexTrichotomous(a, b, less);
    }
  }

  /** The lexicographic order on integer sequences is a strict total order. */
  lemma IntSeqLessIsStrictTotal()
    ensures StrictTotalOrder(IntSeqLess)
  {
    assert StrictTotalOrder(IntLess);
    LexIsStrictTotal(IntLess, IntSeqLess);
  }

  function CharLess(a: char, b: char): bool { a < b }

  /** Python's `<` on `str`: code points compared lexicographically. */
  function StringLess(a: string, b: string): bool
  {
    LexLess(a, b, CharLess)
  }

  lemma StringLessIsStrictTotal()
    ensures StrictTotalOrder(StringLess)
  {
    assert StrictTotalOrder(CharLess);
    LexIsStrictTotal(CharLess, StringLess);
  }

  /** An order read through an injective encoding is a strict total order when the
      order on the codes is one. */
  lemma PullbackStrictTotal<T(!new), U(!new)>(enc: T -> U, lessU: (U, U) -> bool, less: (T, T) -> bool)
    requires StrictTotalOrder(lessU)
    requires forall a, b :: enc(a) == enc(b) ==> a == b
    requires forall a, b :: less(a, b) == lessU(enc(a), enc(b))
    ensures StrictTotalOrder(less)
  {
  }
}
