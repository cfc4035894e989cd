/** The lock coordinator: every handler that moves money locks its two wallet rows in the
    order that Go's sort.Strings gives them, so two requests over the same pair never wait on
    each other in opposite orders. */
module Locking {
  import opened Base

  /** Go's string comparison: lexicographic by character (UTF-8 byte order and code-point order agree). */
  predicate LexLe(a: string, b: string)
    decreases |a|
  {
    a == [] || (b != [] && (a[0] < b[0] || (a[0] == b[0] && LexLe(a[1..], b[1..]))))
  }

  lemma {:induction false} LexLeTotal(a: string, b: string)
    ensures LexLe(a, b) || LexLe(b, a)
    decreases |a|
  {
    if a != [] && b != [] && a[0] == b[0] {
      LexLeTotal(a[1..], b[1..]);
    }
  }

  lemma {:induction false} LexLeAntisymmetric(a: string, b: string)
    requires LexLe(a, b) && LexLe(b, a)
    ensures a == b
    decreases |a|
  {
    if a != [] {
      assert b != [] && a[0] == b[0];
      LexLeAntisymmetric(a[1..], b[1..]);
      assert a == [a[0]] + a[1..] && b == [b[0]] + b[1..];
    }
  }

  lemma {:induction false} LexLeTransitive(a: string, b: string, c: string)
    requires LexLe(a, b) && LexLe(b, c)
    ensures LexLe(a, c)
    decreases |a|
  {
    if a != [] && a[0] == b[0] && b[0] == c[0] {
      LexLeTransitive(a[1..], b[1..], c[1..]);
    }
  }

  /** sort.Strings applied to the two wallet ids a handler is about to lock. */
  function LockOrder(a: WalletId, b: WalletId): (r: seq<WalletId>)
    ensures |r| == 2 && LexLe(r[0], r[1])
    ensures multiset(r) == multiset{a, b}
    ensures r[0] != r[1] ==> !LexLe(r[1], r[0])
  {
    LexLeTotal(a, b);
    if LexLe(a, b) then
      assert a != b ==> !LexLe(b, a) by {
        if a != b && LexLe(b, a) { LexLeAntisymmetric(a, b); }
      }
      [a, b]
    else [b, a]
  }

  /** Two requests over the same pair of wallets, in either role, lock them in the same order. */
  lemma LockOrderSymmetric(a: WalletId, b: WalletId)
    ensures LockOrder(a, b) == LockOrder(b, a)
  {
    if LexLe(a, b) && LexLe(b, a) {
      LexLeAntisymmetric(a, b);
    }
  }
}
