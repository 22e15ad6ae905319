/** Small notions that several modules share. */
module Basics {

  function Min(a: int, b: int): int { if a <= b then a else b }

  function Pow2(n: nat): (p: int)
    ensures 1 <= p
  {
    if n == 0 then 1 else 2 * Pow2(n - 1)
  }

  predicate Distinct<T(==)>(s: seq<T>) {
    forall i, j :: 0 <= i < j < |s| ==> s[i] != s[j]
  }

  /** The text form of a content digest. */
  predicate Digest(s: string) {
    |s| == 71 && s[..7] == "sha256:" && forall c <- s[7..] :: '0' <= c <= '9' || 'a' <= c <= 'f'
  }
}
