/** Bytes, bit strings and the unsigned C bit operators the encoders use.
    A bit string is a `seq<bool>` in transmission order. */
module Bits {
  import opened Basics

  type byte = x: int | 0 <= x < 256

  type bits = seq<bool>

  datatype Option<+T> = None | Some(value: T)

  function Pow2(n: nat): (p: nat)
    ensures p > 0
  {
    if n == 0 then 1 else 2 * Pow2(n - 1)
  }

  /** C's `a | b` on unsigned values. */
  function Or(a: nat, b: nat): nat
    decreases a + b
  {
    if a == 0 then b
    else if b == 0 then a
    else 2 * Or(a / 2, b / 2) + (if a % 2 == 1 || b % 2 == 1 then 1 else 0)
  }

  /** C's `a ^ b` on unsigned values. */
  function Xor(a: nat, b: nat): nat
    decreases a + b
  {
    if a == 0 then b
    else if b == 0 then a
    else 2 * Xor(a / 2, b / 2) + (if a % 2 != b % 2 then 1 else 0)
  }

  /** The value of an unsigned 32-bit variable after x is assigned to it. */
  function U32(x: nat): (r: nat)
    ensures x < 0x1_0000_0000 ==> r == x
  {
    x % 0x1_0000_0000
  }

  /** C's `a << k` on a 32-bit unsigned value. */
  function Shl32(a: nat, k: nat): nat {
    U32(a * Pow2(k))
  }

  /** The low n bits of x, least significant bit first. */
  function Lsb(x: nat, n: nat): (s: bits)
    ensures |s| == n
  {
    if n == 0 then [] else [x % 2 == 1] + Lsb(x / 2, n - 1)
  }

  /** The low n bits of x, most significant bit first. */
  function Msb(x: nat, n: nat): (s: bits)
    ensures |s| == n
  {
    if n == 0 then [] else Msb(x / 2, n - 1) + [x % 2 == 1]
  }

  /** The number written least significant bit first in s. */
  function FromLsb(s: bits): (x: nat)
    ensures x < Pow2(|s|)
  {
    if s == [] then 0 else (if s[0] then 1 else 0) + 2 * FromLsb(s[1..])
  }

  /** The number written most significant bit first in s. */
  function FromMsb(s: bits): nat {
    if s == [] then 0 else 2 * FromMsb(s[..|s| - 1]) + (if s[|s| - 1] then 1 else 0)
  }

  /** The bits of a byte string, each byte least significant bit first
      (section 3.1.1 of RFC 1951). */
  function ByteBits(bs: seq<byte>): (s: bits)
    ensures |s| == 8 * |bs|
  {
    if bs == [] then [] else ByteBits(bs[..|bs| - 1]) + Lsb(bs[|bs| - 1], 8)
  }

  lemma {:induction false} FromLsbLsb(x: nat, n: nat)
    requires x < Pow2(n)
    ensures FromLsb(Lsb(x, n)) == x
  {
    if n > 0 {
      FromLsbLsb(x / 2, n - 1);
      assert Lsb(x, n)[1..] == Lsb(x / 2, n - 1);
    }
  }

  lemma {:induction false} FromMsbMsb(x: nat, n: nat)
    requires x < Pow2(n)
    ensures FromMsb(Msb(x, n)) == x
  {
    if n > 0 {
      FromMsbMsb(x / 2, n - 1);
      assert Msb(x, n)[..n - 1] == Msb(x / 2, n - 1);
    }
  }

  lemma FromMsbMsb5(x: nat)
    requires x < 32
    ensures FromMsb(Msb(x, 5)) == x
  {
    assert Pow2(5) == 32;
    FromMsbMsb(x, 5);
  }

  /** Dropping the last bit of a big-endian code halves it. */
  lemma MsbInit(x: nat, n: nat)
    requires n > 0
    ensures Msb(x, n)[..n - 1] == Msb(x / 2, n - 1)
  {
  }

  /** x mod d; kept apart from its definition, like division by a variable. */
  function Low(x: nat, d: nat): nat
    requires d > 0
  {
    x % d
  }

  lemma LowIs(x: nat, d: nat) returns (q: nat)
    requires d > 0
    ensures x == q * d + Low(x, d) && Low(x, d) < d
  {
    q := x / d;
  }

  lemma LowUnique(x: nat, d: nat, q: nat, r: nat)
    requires d > 0 && x == q * d + r && r < d
    ensures Low(x, d) == r
  {
    DivUnique(x, d, q, r);
  }

  /** Writing b above the low k bits of a concatenates the two bit strings. */
  lemma {:induction false} LsbConcat(a: nat, k: nat, b: nat, m: nat)
    requires a < Pow2(k)
    ensures Lsb(a + b * Pow2(k), k + m) == Lsb(a, k) + Lsb(b, m)
    decreases k
  {
    if k == 0 {
      assert Lsb(a, 0) + Lsb(b, m) == Lsb(b, m);
    } else {
      HalfSum(a, b, Pow2(k - 1));
      LsbConcat(a / 2, k - 1, b, m);
      SeqAssoc([a % 2 == 1], Lsb(a / 2, k - 1), Lsb(b, m));
    }
  }

  lemma HalfSum(a: nat, b: nat, p: nat)
    ensures (a + b * (2 * p)) / 2 == a / 2 + b * p && (a + b * (2 * p)) % 2 == a % 2
  {
    assert b * (2 * p) == 2 * (b * p);
  }

  /** Writing b below a concatenates the two codes. */
  lemma {:induction false} MsbConcat(a: nat, m: nat, b: nat, n: nat)
    requires b < Pow2(n)
    ensures Msb(a * Pow2(n) + b, m + n) == Msb(a, m) + Msb(b, n)
    decreases n
  {
    if n == 0 {
      assert Msb(a, m) + Msb(b, 0) == Msb(a, m);
    } else {
      var p := Pow2(n - 1);
      var x := a * Pow2(n) + b;
      assert a * (2 * p) == 2 * (a * p);
      assert x / 2 == a * p + b / 2 && x % 2 == b % 2;
      MsbConcat(a, m, b / 2, n - 1);
      SeqAssoc(Msb(a, m), Msb(b / 2, n - 1), [b % 2 == 1]);
    }
  }

  lemma Pow2Half(n: nat)
    requires n > 0
    ensures Pow2(n) == 2 * Pow2(n - 1)
  {
  }

  /** One bit at a time, also where an operand is already 0. */
  lemma OrHalves(a: nat, b: nat)
    ensures Or(a, b) == 2 * Or(a / 2, b / 2) + (if a % 2 == 1 || b % 2 == 1 then 1 else 0)
  {
  }

  lemma Doubled(b: nat, p: nat)
    ensures b * (2 * p) == 2 * (b * p) && b * (2 * p) / 2 == b * p && b * (2 * p) % 2 == 0
  {
  }

  /** On operands with no common bit, `|` is addition. */
  lemma {:induction false} OrIsAdd(a: nat, k: nat, b: nat)
    requires a < Pow2(k)
    ensures Or(a, b * Pow2(k)) == a + b * Pow2(k)
    decreases k
  {
    if k > 0 {
      hide Or, Pow2;
      Pow2Half(k);
      Doubled(b, Pow2(k - 1));
      OrIsAdd(a / 2, k - 1, b);
      OrHalves(a, b * Pow2(k));
    }
  }

  lemma {:induction false} Pow2Add(a: nat, b: nat)
    ensures Pow2(a + b) == Pow2(a) * Pow2(b)
  {
    if a > 0 {
      hide Pow2;
      Pow2Add(a - 1, b);
      Pow2Half(a);
      Pow2Half(a + b);
      TwiceTimes(Pow2(a - 1), Pow2(b));
    }
  }

  lemma TwiceTimes(x: nat, y: nat)
    ensures (2 * x) * y == 2 * (x * y)
  {
  }

  lemma {:induction false} Pow2Mono(a: nat, b: nat)
    requires a <= b
    ensures Pow2(a) <= Pow2(b)
    decreases b
  {
    if a < b {
      Pow2Mono(a, b - 1);
    }
  }

  lemma Pow2At24()
    ensures Pow2(24) == 0x100_0000
  {
    Pow2Small();
  }

  lemma Pow2At32()
    ensures Pow2(32) == 0x1_0000_0000
  {
    Pow2Small();
  }

  lemma Pow2Small()
    ensures Pow2(0) == 1 && Pow2(1) == 2 && Pow2(2) == 4 && Pow2(3) == 8 && Pow2(4) == 16
    ensures Pow2(5) == 32 && Pow2(6) == 64 && Pow2(7) == 128 && Pow2(8) == 256 && Pow2(9) == 512
    ensures Pow2(13) == 8192 && Pow2(16) == 65536 && Pow2(24) == 0x100_0000
    ensures Pow2(32) == 0x1_0000_0000
  {
    assert Pow2(10) == 1024;
    assert Pow2(13) == 8192;
    Pow2Add(8, 8);
    Pow2Add(16, 8);
    Pow2Add(16, 16);
  }

  lemma {:induction false} ByteBitsConcat(a: seq<byte>, b: seq<byte>)
    ensures ByteBits(a + b) == ByteBits(a) + ByteBits(b)
    decreases |b|
  {
    hide Lsb;
    if b == [] {
      assert a + b == a;
    } else {
      var n := |b| - 1;
      ByteBitsConcat(a, b[..n]);
      assert (a + b)[..|a + b| - 1] == a + b[..n] && (a + b)[|a + b| - 1] == b[n];
      SeqAssoc(ByteBits(a), ByteBits(b[..n]), Lsb(b[n], 8));
    }
  }

  lemma ByteBitsPush(a: seq<byte>, x: byte)
    ensures ByteBits(a + [x]) == ByteBits(a) + Lsb(x, 8)
  {
    assert (a + [x])[..|a|] == a;
  }

  lemma ByteBitsCons(x: byte, a: seq<byte>)
    ensures ByteBits([x] + a) == Lsb(x, 8) + ByteBits(a)
  {
    ByteBitsConcat([x], a);
    ByteBitsPush([], x);
    assert [] + [x] == [x];
  }

  /** Two bytes, low byte first. */
  function Word(lo: byte, hi: byte): (w: bits)
    ensures |w| == 16
  {
    Lsb(lo, 8) + Lsb(hi, 8)
  }

  lemma ByteBitsPair(x: byte, y: byte)
    ensures ByteBits([x, y]) == Word(x, y)
  {
    ByteBitsCons(x, [y]);
    ByteBitsPush([], y);
    assert [x] + [y] == [x, y] && [] + [y] == [y];
  }
}
