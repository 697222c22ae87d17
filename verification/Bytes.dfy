/** Bytes, and a piece of a sequence at a position. */
module Bytes {
  type Byte = b: int | 0 <= b < 256

  function Pow256(n: nat): (p: nat)
    ensures p > 0
  {
    if n == 0 then 1 else 256 * Pow256(n - 1)
  }

  // The k-th byte of a number, counted from the least significant.
  function ByteOf(n: int, k: nat): Byte { (n / Pow256(k)) % 256 }

  // A number in so many bytes, the least significant first or last.
  function NumberBytes(n: int, size: nat, little: bool): (s: seq<Byte>)
    ensures |s| == size
  {
    seq(size, i requires 0 <= i < size => ByteOf(n, if little then i else size - 1 - i))
  }

  predicate Occurs<T(==)>(s: seq<T>, i: nat, piece: seq<T>) { i + |piece| <= |s| && s[i..i + |piece|] == piece }

  lemma OccursSum<T>(s: seq<T>, i: nat, a: seq<T>, b: seq<T>)
    requires Occurs(s, i, a + b)
    ensures Occurs(s, i, a) && Occurs(s, i + |a|, b)
  {
    assert s[i..i + |a|] == s[i..i + |a + b|][..|a|];
    assert s[i + |a|..i + |a| + |b|] == s[i..i + |a + b|][|a|..];
  }

  lemma OccursAt<T>(s: seq<T>, i: nat, piece: seq<T>, k: nat)
    requires Occurs(s, i, piece) && k < |piece|
    ensures i + k < |s| && s[i + k] == piece[k]
  {
    assert s[i..i + |piece|][k] == piece[k];
  }
}
