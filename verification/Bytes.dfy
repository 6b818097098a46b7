/** Bytes, little-endian words, and the modular arithmetic shared by the buffer models. */
module Bytes {

  type byte = x: int | 0 <= x < 256

  const U64_LIMIT := 0x1_0000_0000_0000_0000

  /** The `n` low bytes of `v`, least significant first. */
  function LittleEndian(v: nat, n: nat): (bs: seq<byte>)
    ensures |bs| == n
  {
    if n == 0 then [] else [v % 256] + LittleEndian(v / 256, n - 1)
  }

  function FromLittleEndian(bs: seq<byte>): nat {
    if bs == [] then 0 else bs[0] + 256 * FromLittleEndian(bs[1..])
  }

  function Pow256(n: nat): nat {
    if n == 0 then 1 else 256 * Pow256(n - 1)
  }

  lemma {:induction false} LittleEndianRoundTrip(v: nat, n: nat)
    requires v < Pow256(n)
    ensures FromLittleEndian(LittleEndian(v, n)) == v
  {
    if n > 0 {
      LittleEndianRoundTrip(v / 256, n - 1);
      assert LittleEndian(v, n)[1..] == LittleEndian(v / 256, n - 1);
    }
  }

  lemma U64RoundTrip(v: nat)
    requires v < U64_LIMIT
    ensures FromLittleEndian(LittleEndian(v, 8)) == v
  {
    assert Pow256(4) == 0x1_0000_0000;
    assert Pow256(8) == U64_LIMIT;
    LittleEndianRoundTrip(v, 8);
  }

  lemma {:induction false} TurnsApart(m: int, a: int, b: int)
    requires m > 0 && a < b
    ensures m * a + m <= m * b
    decreases b - a
  {
    assert m * b == m * (b - 1) + m;
    if a < b - 1 { TurnsApart(m, a, b - 1); }
  }

  lemma ModUnique(x: int, q: int, r: int, m: int)
    requires m > 0 && x == m * q + r && 0 <= r < m
    ensures x % m == r && x / m == q
  {
    var a, t := x / m, x % m;
    assert x == m * a + t && 0 <= t < m;
    if a < q { TurnsApart(m, a, q); }
    if q < a { TurnsApart(m, q, a); }
  }

  /** Two offsets less than one turn apart have different residues. */
  lemma ModInjective(x: int, y: int, m: int)
    requires m > 0 && x % m == y % m && -m < x - y < m
    ensures x == y
  {
    var a, b := x / m, y / m;
    if a < b { TurnsApart(m, a, b); }
    if b < a { TurnsApart(m, b, a); }
  }

  /**
   The remainder of `x` by `m`. The definition sits `m` recursive calls deep, so
   that proofs meet it only through the lemmas below and never through the
   solver's non-linear arithmetic.
   */
  function Fold(x: nat, m: nat): (r: nat)
    requires m > 0
    ensures r < m
  {
    FoldFrom(x, m, m)
  }

  function FoldFrom(x: nat, m: nat, depth: nat): (r: nat)
    requires m > 0
    ensures r < m
    decreases depth
  {
    if depth == 0 then x % m else FoldFrom(x, m, depth - 1)
  }

  lemma {:induction false} FoldFromIsModulo(x: nat, m: nat, depth: nat)
    requires m > 0
    ensures FoldFrom(x, m, depth) == x % m
    decreases depth
  {
    if depth > 0 { FoldFromIsModulo(x, m, depth - 1); }
  }

  lemma FoldIsModulo(x: nat, m: nat)
    requires m > 0
    ensures Fold(x, m) == x % m
  {
    FoldFromIsModulo(x, m, m);
  }

  /** Two offsets less than one turn apart fold to different places. */
  lemma FoldInjective(x: nat, y: nat, m: nat)
    requires m > 0 && Fold(x, m) == Fold(y, m) && x - y < m && y - x < m
    ensures x == y
  {
    FoldIsModulo(x, m);
    FoldIsModulo(y, m);
    ModInjective(x, y, m);
  }

  /** No wrap inside a span that ends before the next multiple of `m`. */
  lemma FoldShift(x: nat, i: nat, m: nat)
    requires m > 0 && Fold(x, m) + i < m
    ensures Fold(x + i, m) == Fold(x, m) + i
  {
    FoldIsModulo(x, m);
    FoldIsModulo(x + i, m);
    ModUnique(x + i, x / m, x % m + i, m);
  }

  /** Jumping to the end of the turn folds to 0. */
  lemma FoldToEnd(x: nat, m: nat)
    requires m > 0
    ensures Fold(x + (m - Fold(x, m)), m) == 0
  {
    FoldIsModulo(x, m);
    var q, y := x / m, x + (m - x % m);
    FoldIsModulo(y, m);
    assert m * (q + 1) == m * q + m;
    ModUnique(y, q + 1, 0, m);
  }

  /** Taking the remainder away leaves a multiple. */
  lemma FoldDown(x: nat, m: nat)
    requires m > 0
    ensures Fold(x, m) <= x && Fold(x - Fold(x, m), m) == 0
  {
    FoldIsModulo(x, m);
    var q, r := x / m, x % m;
    assert x == m * q + r;
    FoldIsModulo(x - r, m);
    ModUnique(x - r, q, 0, m);
  }

  /** Alignment as a factor, so that proofs can stay with multiples. */
  lemma Sixteenth(x: int) returns (q: int)
    requires x % 16 == 0
    ensures x == 16 * q
  {
    q := x / 16;
  }

  lemma Multiple(x: int, q: int)
    requires x == 16 * q
    ensures x % 16 == 0
  {
  }

  lemma AlignedRest(x: nat, z: int, r: nat, m: nat)
    requires x % 16 == 0 && m % 16 == 0 && x == 16 * z + r && r < m
    ensures r % 16 == 0 && r + 16 <= m
  {
    var i := Sixteenth(x);
    var k := Sixteenth(m);
    Multiple(r, i - z);
  }

  /** Folding an aligned offset onto an aligned size keeps the alignment. */
  lemma FoldAligned(x: nat, m: nat)
    requires m > 0 && x % 16 == 0 && m % 16 == 0
    ensures Fold(x, m) % 16 == 0 && Fold(x, m) + 16 <= m
  {
    FoldIsModulo(x, m);
    var q, k := x / m, m / 16;
    assert m == 16 * k;
    assert m * q == 16 * (k * q);
    AlignedRest(x, k * q, x % m, m);
  }
}
