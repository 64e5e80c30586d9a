/** Huffman entropy coding of quantised blocks: ITU-T T.81, Annex F, decoding side,
    and the code strings the encoder sends. */
module JpegSpec {
  import opened Basics
  import opened Bits
  import opened JpegTables

  // ---- Huffman decoding ----

  /** What is read and the unread bits. */
  datatype Read = Failed | Sym(v: nat, rest: bits)

  /** DECODE (section F.2.2.3), having read len bits with value code: one more bit, until
      the code is not above the last one of its length. */
  function Decode(s: bits, d: Dht, code: nat, len: nat): (r: Read)
    ensures r.Sym? ==> |r.rest| < |s|
    decreases 16 - len
  {
    if len >= 16 || s == [] then Failed
    else
      var c, n := 2 * code + (if s[0] then 1 else 0), len + 1;
      if c < MinCode(d, n) + Count(d, n) then
        if c < MinCode(d, n) then Failed else Sym(Value(d, ValPtr(d, n) + c - MinCode(d, n)), s[1..])
      else Decode(s[1..], d, c, n)
  }

  function SymBits(d: Dht, sym: nat): bits {
    Msb(Ht(d, sym).code, Ht(d, sym).len)
  }

  /** sym has a code. */
  predicate Coded(d: Dht, sym: nat) {
    Ht(d, sym).len > 0
  }

  /** Codes of one length stay below those of any greater length. */
  lemma {:induction false} MinCodeGrows(d: Dht, k: nat, n: nat)
    requires 1 <= k < n <= 16
    ensures (MinCode(d, k) + Count(d, k)) * Pow2(n - k) <= MinCode(d, n)
    decreases n
  {
    hide Count, MinCode;
    var x := MinCode(d, k) + Count(d, k);
    Generated(d, n - 1);
    assert Pow2(n - k) == 2 * Pow2(n - 1 - k);
    hide Pow2;
    MulAssoc(x, Pow2(n - 1 - k));
    if k == n - 1 {
      assert Pow2(0) == 1 by { Pow2Zero(); }
    } else {
      MinCodeGrows(d, k, n - 1);
    }
  }

  lemma Pow2Zero()
    ensures Pow2(0) == 1
  {
  }

  lemma MulAssoc(x: nat, p: nat)
    ensures x * (2 * p) == 2 * (x * p)
  {
  }

  lemma MsbCons(b: nat, x: nat, m: nat)
    requires b < 2 && x < Pow2(m)
    ensures Msb(b * Pow2(m) + x, 1 + m) == [b == 1] + Msb(x, m)
  {
    MsbConcat(b, 1, x, m);
    assert Msb(b, 1) == [b == 1];
  }

  /** With p read, the remaining m bits x of a placed code lead to its symbol. */
  lemma {:induction false} DecodeTail(d: Dht, code: nat, n: nat, p: nat, m: nat, x: nat, rest: bits)
    requires 1 <= n <= 16 && 1 <= m <= n && code == p * Pow2(m) + x && x < Pow2(m)
    requires MinCode(d, n) <= code < MinCode(d, n) + Count(d, n)
    ensures Decode(Msb(x, m) + rest, d, p, n - m) == Sym(Value(d, ValPtr(d, n) + code - MinCode(d, n)), rest)
    decreases m
  {
    hide Count, Value, ValPtr, MinCode, Decode, Pow2;
    var q := Pow2(m - 1);
    var b, y := x / q, x % q;
    SplitTop(x, m, b, y);
    Shuffle(p, b, q, y);
    MsbCons(b, y, m - 1);
    hide Msb;
    var s := Msb(x, m) + rest;
    assert s[0] == (b == 1) && s[1..] == Msb(y, m - 1) + rest;
    if m == 1 {
      Pow2Zero();
      assert s[1..] == rest;
      LastBit(d, s, p, n - 1, code);
    } else {
      NotYet(d, code, n, 2 * p + b, m - 1, y);
      NextBit(d, s, p, n - m, 2 * p + b);
      DecodeTail(d, code, n, 2 * p + b, m - 1, y, rest);
    }
  }

  lemma NextBit(d: Dht, s: bits, p: nat, len: nat, c: nat)
    requires s != [] && len < 16 && c == 2 * p + (if s[0] then 1 else 0)
    requires MinCode(d, len + 1) + Count(d, len + 1) <= c
    ensures Decode(s, d, p, len) == Decode(s[1..], d, c, len + 1)
  {
    hide Count, Value, ValPtr, MinCode;
  }

  lemma SplitTop(x: nat, m: nat, b: nat, y: nat)
    requires 1 <= m && x < Pow2(m) && b == x / Pow2(m - 1) && y == x % Pow2(m - 1)
    ensures b < 2 && x == b * Pow2(m - 1) + y && Pow2(m) == 2 * Pow2(m - 1)
  {
    var q := Pow2(m - 1);
    assert x < 2 * q;
    hide Pow2;
    if b >= 2 {
      MulMono(2, b, q);
    }
  }

  lemma LastBit(d: Dht, s: bits, p: nat, len: nat, c: nat)
    requires s != [] && len < 16 && c == 2 * p + (if s[0] then 1 else 0)
    requires MinCode(d, len + 1) <= c < MinCode(d, len + 1) + Count(d, len + 1)
    ensures Decode(s, d, p, len) == Sym(Value(d, ValPtr(d, len + 1) + c - MinCode(d, len + 1)), s[1..])
  {
    hide Count, Value, ValPtr, MinCode;
  }

  lemma Shuffle(p: nat, b: nat, q: nat, y: nat)
    ensures p * (2 * q) + (b * q + y) == (2 * p + b) * q + y
  {
  }

  /** A proper prefix of a placed code is above every code of its own length. */
  lemma NotYet(d: Dht, code: nat, n: nat, p: nat, m: nat, x: nat)
    requires 1 <= m < n <= 16 && code == p * Pow2(m) + x && x < Pow2(m) && MinCode(d, n) <= code
    ensures MinCode(d, n - m) + Count(d, n - m) <= p
  {
    MinCodeGrows(d, n - m, n);
    hide *;
    var z := MinCode(d, n - m) + Count(d, n - m);
    if p < z {
      MulMono(p + 1, z, Pow2(m));
      MulSucc(p, Pow2(m));
    }
  }

  /** A placed code is less than two to the power of its length. */
  lemma CodeFits(d: Dht, n: nat, code: nat)
    requires 1 <= n <= 16 && code < MinCode(d, n) + Count(d, n)
    ensures code < Pow2(n)
  {
    hide Count, MinCode, Pow2;
    Room(d);
    Pow2At16();
    if n < 16 {
      MinCodeGrows(d, n, 16);
      Pow2Add(n, 16 - n);
      Below(code, MinCode(d, n) + Count(d, n), Pow2(n), Pow2(16 - n));
    }
  }

  lemma Below(code: nat, end: nat, p: nat, q: nat)
    requires code < end && q > 0 && end * q <= p * q
    ensures code < p
  {
    if code >= p {
      MulLess(p, end, q);
    }
  }

  lemma Pow2At16()
    ensures Pow2(16) == 65536
  {
    Pow2Small();
  }

  /** A coded symbol is read back whatever follows: the code is instantaneous. */
  lemma DecodeCode(d: Dht, sym: nat, rest: bits)
    requires Coded(d, sym)
    ensures Decode(SymBits(d, sym) + rest, d, 0, 0) == Sym(sym, rest)
    ensures Ht(d, sym).len <= 16 && Ht(d, sym).code < Pow2(Ht(d, sym).len)
  {
    hide Ht, Count, Value, ValPtr, MinCode, Decode, Msb, Pow2;
    var e := Ht(d, sym);
    EncoderTableMatchesDht(d, sym);
    CodeFits(d, e.len, e.code);
    assert e.code == 0 * Pow2(e.len) + e.code;
    DecodeTail(d, e.code, e.len, 0, e.len, e.code, rest);
  }

  // ---- Magnitudes ----

  /** The number of bits of n. */
  function Size(n: nat): (k: nat)
    ensures n < Pow2(k) && (n > 0 ==> k > 0 && Pow2(k - 1) <= n)
  {
    if n == 0 then 0 else 1 + Size(n / 2)
  }

  /** The SSSS bits that follow a symbol: v, or v - 1 for negative v, truncated. */
  function Magnitude(v: int): nat {
    (if v < 0 then v - 1 else v) % Pow2(Size(Abs(v)))
  }

  /** EXTEND (section F.2.2.1). */
  function Extend(v: nat, t: nat): int
    requires t > 0
  {
    if v < Pow2(t - 1) then v - Pow2(t) + 1 else v
  }

  lemma ExtendMagnitude(v: int)
    requires v != 0
    ensures var t := Size(Abs(v));
            t > 0 && Magnitude(v) < Pow2(t) && Extend(Magnitude(v), t) == v
  {
    var t := Size(Abs(v));
    var p := Pow2(t);
    assert p == 2 * Pow2(t - 1);
    if v < 0 {
      DivUnique(v - 1, p, -1, v - 1 + p);
    } else {
      DivUnique(v, p, 0, v);
    }
  }

  /** RECEIVE then EXTEND; zero bits stand for 0. */
  function Receive(s: bits, t: nat): int
    requires t <= |s|
  {
    if t == 0 then 0 else Extend(FromMsb(s[..t]), t)
  }

  lemma ReceiveMagnitude(v: int, rest: bits)
    ensures var t := Size(Abs(v));
            Receive(Msb(Magnitude(v), t) + rest, t) == v
  {
    var t := Size(Abs(v));
    if v != 0 {
      ExtendMagnitude(v);
      FromMsbMsb(Magnitude(v), t);
      TakeDrop(Msb(Magnitude(v), t), rest);
    }
  }

  // ---- Blocks: decoding (section F.2.2.1 and F.2.2.2) ----

  const EOB := 0x00
  const ZRL := 0xf0

  function Zeros(n: nat): (z: seq<int>)
    ensures |z| == n && forall k :: 0 <= k < n ==> z[k] == 0
  {
    seq(n, _ => 0)
  }

  datatype Block = Bad | Good(zz: seq<int>, rest: bits)

  /** Decode_AC_coefficients, with zz the coefficients decoded so far. */
  function ReadAc(s: bits, t: Dht, zz: seq<int>): (r: Block)
    ensures r.Good? ==> |r.rest| <= |s|
    decreases |s|
  {
    if |zz| == 64 then Good(zz, s)
    else if |zz| > 64 then Bad
    else
      match Decode(s, t, 0, 0)
      case Failed => Bad
      case Sym(rs, s1) =>
        var run, size := rs / 16, rs % 16;
        if size == 0 then
          if run == 15 then ReadAc(s1, t, zz + Zeros(16)) else Good(zz + Zeros(64 - |zz|), s1)
        else if |s1| < size then Bad
        else ReadAc(s1[size..], t, zz + Zeros(run) + [Receive(s1, size)])
  }

  /** A whole block: the DC difference from pred, then the AC coefficients. */
  function ReadBlock(s: bits, dcTable: Dht, acTable: Dht, pred: int): (r: Block)
    ensures r.Good? ==> |r.rest| <= |s|
  {
    match Decode(s, dcTable, 0, 0)
    case Failed => Bad
    case Sym(size, s1) =>
      if |s1| < size then Bad else ReadAc(s1[size..], acTable, [pred + Receive(s1, size)])
  }

  // ---- Blocks: what the encoder sends ----

  function ValueBits(t: Dht, sym: nat, v: int): bits
  {
    SymBits(t, sym) + Msb(Magnitude(v), Size(Abs(v)))
  }

  function Pack(run: nat, size: nat): nat {
    run * 16 + size
  }

  /** Size classes up to 11 for DC differences have a code. */
  ghost predicate DcComplete(t: Dht) {
    forall size: nat :: size <= 11 ==> Coded(t, size)
  }

  /** So have the end of block, runs of 16 zeros, and shorter runs before a coefficient
      of a size class up to 10. */
  ghost predicate AcComplete(t: Dht) {
    Coded(t, EOB) && Coded(t, ZRL) &&
    forall run: nat, size: nat :: run < 16 && 1 <= size <= 10 ==> Coded(t, Pack(run, size))
  }

  lemma StandardTablesAreComplete()
    ensures DcComplete(DcLum) && DcComplete(DcChrom) && AcComplete(AcLum) && AcComplete(AcChrom)
  {
    hide Ht;
    forall d: Dht, size: nat | (d == DcLum || d == DcChrom) && size <= 11
      ensures Coded(d, size)
    {
      DcSizesCoded(d, size);
    }
    forall d: Dht, run: nat, size: nat | (d == AcLum || d == AcChrom) && run < 16 && 1 <= size <= 10
      ensures Coded(d, Pack(run, size))
    {
      AcSizesCoded(d, run, size);
    }
    AcSizesCoded(AcLum, 0, 0);
    AcSizesCoded(AcLum, 15, 0);
    AcSizesCoded(AcChrom, 0, 0);
    AcSizesCoded(AcChrom, 15, 0);
  }

  predicate AcFits(zz: seq<int>) {
    |zz| == 64 && forall k :: 1 <= k < 64 ==> Size(Abs(zz[k])) <= 10
  }

  /** The first index from i whose coefficient is not zero, or 64. */
  function NextNonzero(zz: seq<int>, i: nat): (r: nat)
    requires |zz| == 64 && i <= 64
    ensures i <= r <= 64 && (forall k :: i <= k < r ==> zz[k] == 0) && (r < 64 ==> zz[r] != 0)
    decreases 64 - i
  {
    if i < 64 && zz[i] == 0 then NextNonzero(zz, i + 1) else i
  }

  function Repeated(code: bits, n: nat): bits {
    if n == 0 then [] else code + Repeated(code, n - 1)
  }

  /** The bits for coefficients i and up. */
  function AcBits(t: Dht, zz: seq<int>, i: nat): bits
    requires AcFits(zz) && 1 <= i <= 64
    decreases 64 - i
  {
    if i == 64 then []
    else
      var r := NextNonzero(zz, i);
      if r == 64 then SymBits(t, EOB)
      else
        Repeated(SymBits(t, ZRL), (r - i) / 16) +
        ValueBits(t, Pack((r - i) % 16, Size(Abs(zz[r]))), zz[r]) +
        AcBits(t, zz, r + 1)
  }

  predicate BlockFits(zz: seq<int>, pred: int) {
    AcFits(zz) && Size(Abs(zz[0] - pred)) <= 11
  }

  function BlockBits(dcTable: Dht, acTable: Dht, zz: seq<int>, pred: int): bits
    requires BlockFits(zz, pred)
  {
    ValueBits(dcTable, Size(Abs(zz[0] - pred)), zz[0] - pred) + AcBits(acTable, zz, 1)
  }

  // ---- Blocks: round trip ----

  lemma ReadZrl(t: Dht, zz: seq<int>, rest: bits)
    requires Coded(t, ZRL) && |zz| < 64
    ensures ReadAc(SymBits(t, ZRL) + rest, t, zz) == ReadAc(rest, t, zz + Zeros(16))
  {
    hide Coded, Decode, SymBits;
    DecodeCode(t, ZRL, rest);
  }

  lemma {:induction false} ReadZrls(t: Dht, zz: seq<int>, n: nat, rest: bits)
    requires Coded(t, ZRL) && |zz| + 16 * n <= 64
    ensures ReadAc(Repeated(SymBits(t, ZRL), n) + rest, t, zz) == ReadAc(rest, t, zz + Zeros(16 * n))
    decreases n
  {
    hide Coded, ReadAc, SymBits;
    var code := SymBits(t, ZRL);
    if n == 0 {
      assert Repeated(code, n) + rest == rest;
      assert zz + Zeros(0) == zz;
    } else {
      SeqAssoc(code, Repeated(code, n - 1), rest);
      ReadZrl(t, zz, Repeated(code, n - 1) + rest);
      ReadZrls(t, zz + Zeros(16), n - 1, rest);
      assert zz + Zeros(16) + Zeros(16 * (n - 1)) == zz + Zeros(16 * n);
    }
  }

  /** A coded value after a run of zeros. */
  lemma ReadValue(t: Dht, zz: seq<int>, run: nat, v: int, rest: bits)
    requires run < 16 && v != 0 && |zz| < 64 && Size(Abs(v)) <= 10
    requires Coded(t, Pack(run, Size(Abs(v))))
    ensures ReadAc(ValueBits(t, Pack(run, Size(Abs(v))), v) + rest, t, zz) == ReadAc(rest, t, zz + Zeros(run) + [v])
  {
    hide Coded, Decode, SymBits, Size, Magnitude, Msb, Receive;
    var size := Size(Abs(v));
    var m := Msb(Magnitude(v), size);
    var sym := Pack(run, size);
    SeqAssoc(SymBits(t, sym), m, rest);
    DecodeCode(t, sym, m + rest);
    DivUnique(sym, 16, run, size);
    ReceiveMagnitude(v, rest);
    TakeDrop(m, rest);
    assert size > 0 by { assert Abs(v) > 0; SizePositive(Abs(v)); }
  }

  lemma SizePositive(n: nat)
    ensures Size(n) > 0 <==> n > 0
  {
  }

  lemma ReadEob(t: Dht, zz: seq<int>, rest: bits)
    requires Coded(t, EOB) && |zz| < 64
    ensures ReadAc(SymBits(t, EOB) + rest, t, zz) == Good(zz + Zeros(64 - |zz|), rest)
  {
    hide Coded, Decode, SymBits;
    DecodeCode(t, EOB, rest);
  }

  /** The coefficients from i on are read back: runs over 15, end of block, and a
      nonzero last coefficient included. */
  lemma {:induction false} AcRoundTrip(t: Dht, zz: seq<int>, i: nat, rest: bits)
    requires AcComplete(t) && AcFits(zz) && 1 <= i <= 64
    ensures ReadAc(AcBits(t, zz, i) + rest, t, zz[..i]) == Good(zz, rest)
    decreases 64 - i
  {
    hide Coded, AcBits, ReadAc, NextNonzero, AcComplete, Size;
    if i == 64 {
      AcDone(t, zz, rest);
    } else {
      var r := NextNonzero(zz, i);
      if r == 64 {
        AcEnd(t, zz, i, rest);
      } else {
        AcStep(t, zz, i, r, rest);
        AcRoundTrip(t, zz, r + 1, rest);
      }
    }
  }

  lemma AcDone(t: Dht, zz: seq<int>, rest: bits)
    requires AcFits(zz)
    ensures ReadAc(AcBits(t, zz, 64) + rest, t, zz[..64]) == Good(zz, rest)
  {
    assert AcBits(t, zz, 64) + rest == rest;
    assert zz[..64] == zz;
  }

  lemma AcEnd(t: Dht, zz: seq<int>, i: nat, rest: bits)
    requires AcComplete(t) && AcFits(zz) && 1 <= i < 64 && NextNonzero(zz, i) == 64
    ensures ReadAc(AcBits(t, zz, i) + rest, t, zz[..i]) == Good(zz, rest)
  {
    hide Coded, ReadAc, SymBits, Size;
    ReadEob(t, zz[..i], rest);
    assert zz[..i] + Zeros(64 - i) == zz;
  }

  lemma AcStep(t: Dht, zz: seq<int>, i: nat, r: nat, rest: bits)
    requires AcComplete(t) && AcFits(zz) && 1 <= i < 64 && r == NextNonzero(zz, i) < 64
    ensures ReadAc(AcBits(t, zz, i) + rest, t, zz[..i]) == ReadAc(AcBits(t, zz, r + 1) + rest, t, zz[..r + 1])
  {
    var q, m := (r - i) / 16, (r - i) % 16;
    var value := ValueBits(t, Pack(m, Size(Abs(zz[r]))), zz[r]);
    AcBitsAt(t, zz, i, r);
    ReadRun(t, zz, i, r, q, m, AcBits(t, zz, r + 1) + rest);
    hide *;
    Regroup(Repeated(SymBits(t, ZRL), q), value, AcBits(t, zz, r + 1), rest);
  }

  lemma AcBitsAt(t: Dht, zz: seq<int>, i: nat, r: nat)
    requires AcFits(zz) && 1 <= i < 64 && r == NextNonzero(zz, i) < 64
    ensures AcBits(t, zz, i) ==
            Repeated(SymBits(t, ZRL), (r - i) / 16) +
            ValueBits(t, Pack((r - i) % 16, Size(Abs(zz[r]))), zz[r]) +
            AcBits(t, zz, r + 1)
  {
    hide Coded, ValueBits, SymBits, Repeated, Size, NextNonzero;
  }

  /** A run of zeros and the coefficient after it, whatever follows. */
  lemma ReadRun(t: Dht, zz: seq<int>, i: nat, r: nat, q: nat, m: nat, more: bits)
    requires AcComplete(t) && AcFits(zz) && 1 <= i <= r < 64 && r == i + 16 * q + m && m < 16
    requires zz[r] != 0 && forall k :: i <= k < r ==> zz[k] == 0
    ensures ReadAc(Repeated(SymBits(t, ZRL), q) + (ValueBits(t, Pack(m, Size(Abs(zz[r]))), zz[r]) + more), t,
              zz[..i]) ==
            ReadAc(more, t, zz[..r + 1])
  {
    hide Coded, ReadAc, SymBits, ValueBits, Repeated, Size, Zeros, Pack;
    SizePositive(Abs(zz[r]));
    ReadZrls(t, zz[..i], q, ValueBits(t, Pack(m, Size(Abs(zz[r]))), zz[r]) + more);
    ReadValue(t, zz[..i] + Zeros(16 * q), m, zz[r], more);
    ZeroRun(zz, i, r, q, m);
  }

  lemma ZeroRun(zz: seq<int>, i: nat, r: nat, q: nat, m: nat)
    requires i <= r < |zz| && r == i + 16 * q + m && forall k :: i <= k < r ==> zz[k] == 0
    ensures zz[..i] + Zeros(16 * q) + Zeros(m) + [zz[r]] == zz[..r + 1]
  {
  }

  lemma BlockRoundTrip(dcTable: Dht, acTable: Dht, zz: seq<int>, pred: int, rest: bits)
    requires DcComplete(dcTable) && AcComplete(acTable) && BlockFits(zz, pred)
    ensures ReadBlock(BlockBits(dcTable, acTable, zz, pred) + rest, dcTable, acTable, pred) == Good(zz, rest)
  {
    hide Coded, Decode, SymBits, Size, Magnitude, Msb, Receive, AcComplete, ReadAc, AcBits;
    var diff := zz[0] - pred;
    var size := Size(Abs(diff));
    var m, ac := Msb(Magnitude(diff), size), AcBits(acTable, zz, 1);
    Regroup(SymBits(dcTable, size), m, ac, rest);
    DecodeCode(dcTable, size, m + (ac + rest));
    ReceiveMagnitude(diff, ac + rest);
    TakeDrop(m, ac + rest);
    assert [pred + diff] == zz[..1];
    AcRoundTrip(acTable, zz, 1, rest);
  }
}
