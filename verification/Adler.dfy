/** Adler-32 with deferred reductions, on 32-bit accumulators. */
module Adler {
  import opened Bits
  import opened Inflate

  const BASE := 65521
  const BLOCK := 5552
  const WRAP := 0x1_0000_0000

  /** 0 + 1 + ... + n */
  function Triangle(n: nat): nat {
    if n == 0 then 0 else n + Triangle(n - 1)
  }

  lemma {:induction false} TriangleBound(n: nat, m: nat)
    requires n <= m
    ensures 2 * Triangle(m) == m * (m + 1) && Triangle(n) <= Triangle(m)
    decreases m
  {
    if m > 0 {
      TriangleBound(if n == m then n - 1 else n, m - 1);
    }
  }

  /** How large the two sums can be after n additions to reduced values. */
  predicate Bounded(s1: nat, s2: nat, n: nat) {
    s1 <= BASE - 1 + 255 * n && s2 <= (BASE - 1) * (n + 1) + 255 * Triangle(n)
  }

  /** One block never wraps: 5552 is small enough. */
  lemma NoWrap(s1: nat, s2: nat, n: nat)
    requires Bounded(s1, s2, n) && n <= BLOCK
    ensures s1 < WRAP && s2 < WRAP
  {
    TriangleBound(n, BLOCK);
  }

  lemma BoundedStep(s1: nat, s2: nat, n: nat, b: byte)
    requires Bounded(s1, s2, n) && n < BLOCK
    ensures Bounded(s1 + b, s2 + s1 + b, n + 1) && s1 + b < WRAP && s2 + s1 + b < WRAP
  {
    NoWrap(s1 + b, s2 + s1 + b, n + 1);
  }

  lemma AddMod(a: nat, b: nat)
    ensures (a + b) % BASE == (a % BASE + b) % BASE
  {
  }

  lemma SumsStep(data: seq<byte>, k: nat, s1: nat, s2: nat)
    requires k < |data|
    requires (s1 % BASE, s2 % BASE) == AdlerSums(data[..k])
    ensures ((s1 + data[k]) % BASE, (s2 + s1 + data[k]) % BASE) == AdlerSums(data[..k + 1])
  {
    assert data[..k + 1][..k] == data[..k];
    AddMod(s1, data[k]);
    AddMod(s1 + data[k], s2);
    AddMod(s2, (s1 + data[k]) % BASE);
  }

  /** The accumulators end up as RFC 1950 defines them; were one to wrap, they would not. */
  method Sums(data: seq<byte>) returns (s1: nat, s2: nat)
    ensures (s1, s2) == AdlerSums(data)
  {
    s1, s2 := 1, 0;
    var blocklen := |data| % BLOCK;
    var j := 0;
    while j < |data|
      invariant j <= |data| && blocklen <= BLOCK
      invariant (j == 0 && blocklen == |data| % BLOCK) || (blocklen == BLOCK && (|data| - j) % BLOCK == 0)
      invariant s1 < BASE && s2 < BASE && (s1, s2) == AdlerSums(data[..j])
      decreases |data| - j, BLOCK - blocklen
    {
      s1, s2 := AddBlock(data, j, blocklen, s1, s2);
      j := j + blocklen;
      blocklen := BLOCK;
    }
    assert data[..j] == data;
  }

  /** The inner loop and the two reductions after it. */
  method AddBlock(data: seq<byte>, j: nat, blocklen: nat, a1: nat, a2: nat) returns (s1: nat, s2: nat)
    requires j + blocklen <= |data| && blocklen <= BLOCK
    requires a1 < BASE && a2 < BASE && (a1, a2) == AdlerSums(data[..j])
    ensures s1 < BASE && s2 < BASE && (s1, s2) == AdlerSums(data[..j + blocklen])
  {
    hide AdlerSums, U32;
    s1, s2 := a1, a2;
    for i := 0 to blocklen
      invariant Bounded(s1, s2, i)
      invariant (s1 % BASE, s2 % BASE) == AdlerSums(data[..j + i])
    {
      SumsStep(data, j + i, s1, s2);
      BoundedStep(s1, s2, i, data[j + i]);
      s1 := U32(s1 + data[j + i]);
      s2 := U32(s2 + s1);
    }
    s1, s2 := s1 % BASE, s2 % BASE;
  }
}
