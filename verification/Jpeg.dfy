/** The integer part of the JPEG writer: bit packing with byte stuffing and the
    entropy coding of quantised blocks. */
module Jpeg {
  import opened Basics
  import opened Bits
  import opened JpegSpec
  import opened JpegTables

  // ---- Byte stuffing (section F.1.2.3 of ITU-T T.81) ----

  function MsbBits(bs: seq<byte>): (s: bits)
    ensures |s| == 8 * |bs|
  {
    if bs == [] then [] else MsbBits(bs[..|bs| - 1]) + Msb(bs[|bs| - 1], 8)
  }

  /** Coded bytes as sent: a zero after every 0xFF. */
  function Stuff(bs: seq<byte>): seq<byte> {
    if bs == [] then []
    else
      var last := bs[|bs| - 1];
      Stuff(bs[..|bs| - 1]) + (if last == 255 then [255, 0] else [last])
  }

  /** Drops the stuffed zeros; anything else after 0xFF is a marker, not coded data. */
  function Unstuff(s: seq<byte>): Option<seq<byte>> {
    if s == [] then Some([])
    else if s[0] != 255 then Cons(s[0], Unstuff(s[1..]))
    else if |s| > 1 && s[1] == 0 then Cons(255, Unstuff(s[2..]))
    else None
  }

  function Cons(b: byte, r: Option<seq<byte>>): Option<seq<byte>> {
    match r
    case None => None
    case Some(bs) => Some([b] + bs)
  }

  function Piece(b: byte): seq<byte> {
    if b == 255 then [255, 0] else [b]
  }

  lemma UnstuffPiece(b: byte, tail: seq<byte>)
    ensures Unstuff(Piece(b) + tail) == Cons(b, Unstuff(tail))
  {
    assert (Piece(b) + tail)[|Piece(b)|..] == tail;
  }

  lemma StuffLast(bs: seq<byte>)
    requires bs != []
    ensures Stuff(bs) == Stuff(bs[..|bs| - 1]) + Piece(bs[|bs| - 1])
  {
  }

  lemma {:induction false} UnstuffStuff(bs: seq<byte>, tail: seq<byte>, more: seq<byte>)
    requires Unstuff(tail) == Some(more)
    ensures Unstuff(Stuff(bs) + tail) == Some(bs + more)
    decreases |bs|
  {
    if bs == [] {
      assert Stuff(bs) + tail == tail && bs + more == more;
    } else {
      hide Stuff, Unstuff, Piece;
      var init, last := bs[..|bs| - 1], bs[|bs| - 1];
      StuffLast(bs);
      UnstuffPiece(last, tail);
      UnstuffStuff(init, Piece(last) + tail, [last] + more);
      SeqAssoc(Stuff(init), Piece(last), tail);
      SeqAssoc(init, [last], more);
      assert bs == init + [last];
    }
  }

  /** No 0xFF byte of coded data can be taken for a marker. */
  lemma {:induction false} StuffedIsMarkerFree(bs: seq<byte>, k: nat)
    requires k < |Stuff(bs)| && Stuff(bs)[k] == 255
    ensures k + 1 < |Stuff(bs)| && Stuff(bs)[k + 1] == 0
    decreases |bs|
  {
    var init := bs[..|bs| - 1];
    if k < |Stuff(init)| {
      StuffedIsMarkerFree(init, k);
    }
  }

  // ---- The bit writer ----

  /** The write context with the bit buffer: a 32-bit word whose top 24 bits' worth of
      codes are sent byte by byte. */
  class JpegWriter {
    var sent: seq<byte>
    var bitBuf: nat
    var bitCnt: nat
    /** The coded bytes before stuffing, and bitBuf without its trailing zeros. */
    ghost var coded: seq<byte>
    ghost var top: nat

    ghost predicate Packing()
      reads this
    {
      sent == Stuff(coded) && bitCnt <= 24 && bitBuf == top * Pow2(24 - bitCnt)
    }

    ghost predicate Valid()
      reads this
    {
      Packing() && bitCnt < 8
    }

    /** Every bit written, in order. */
    ghost function Written(): bits
      reads this
    {
      MsbBits(coded) + Msb(top, bitCnt)
    }

    constructor ()
      ensures Valid() && sent == [] && Written() == []
    {
      sent, bitBuf, bitCnt := [], 0, 0;
      coded, top := [], 0;
    }

    /** `stbiw__jpg_writeBits`. */
    method WriteBits(code: nat, len: nat)
      requires Valid() && len <= 16 && code < Pow2(len)
      modifies this
      ensures Valid() && Written() == old(Written()) + Msb(code, len)
      ensures bitCnt == (old(bitCnt) + len) % 8
    {
      hide MsbBits, Stuff, Msb, Pow2, Low, U32, Shl32;
      AddBits(code, len);
      ghost var bytes := 0;
      while bitCnt >= 8
        invariant Packing() && Written() == old(Written()) + Msb(code, len)
        invariant old(bitCnt) + len == bytes * 8 + bitCnt
        decreases bitCnt
      {
        SendByte();
        bytes := bytes + 1;
      }
      DivUnique(old(bitCnt) + len, 8, bytes, bitCnt);
    }

    method AddBits(code: nat, len: nat)
      requires Valid() && len <= 16 && code < Pow2(len)
      modifies this
      ensures Packing() && Written() == old(Written()) + Msb(code, len)
      ensures bitCnt == old(bitCnt) + len
    {
      hide Or, MsbBits, Stuff, Msb, Pow2, Shl32, Appended;
      AppendCode(bitBuf, top, bitCnt, code, len);
      SeqAssoc(MsbBits(coded), Msb(top, bitCnt), Msb(code, len));
      bitCnt := bitCnt + len;
      bitBuf := Or(bitBuf, Shl32(code, 24 - bitCnt));
      top := Appended(top, len, code);
    }

    /** Sends the top byte of the buffer, stuffing a zero after 0xFF. */
    method SendByte()
      requires Packing() && bitCnt >= 8
      modifies this
      ensures Packing() && Written() == old(Written()) && bitCnt == old(bitCnt) - 8
    {
      hide MsbBits, Stuff, Msb, Pow2, U32, Low;
      TopByte(bitBuf, top, bitCnt);
      ShiftOut(bitBuf, top, bitCnt);
      var c := bitBuf / 65536 % 256;
      sent := sent + [c];
      if c == 255 {
        sent := sent + [0];
      }
      PushCoded(coded, c);
      SeqAssoc(MsbBits(coded), Msb(c, 8), Msb(Low(top, Pow2(bitCnt)), bitCnt - 8));
      coded := coded + [c];
      top := Low(top, Pow2(bitCnt));
      bitBuf := Shl32(bitBuf, 8);
      bitCnt := bitCnt - 8;
    }
  }

  lemma PushCoded(bs: seq<byte>, c: byte)
    ensures MsbBits(bs + [c]) == MsbBits(bs) + Msb(c, 8)
    ensures Stuff(bs + [c]) == Stuff(bs) + if c == 255 then [255] + [0] else [c]
  {
    assert (bs + [c])[..|bs|] == bs;
  }

  ghost function Appended(top: nat, len: nat, code: nat): nat {
    top * Pow2(len) + code
  }

  /** Appending a code below the bits already in the buffer. */
  lemma AppendCode(bitBuf: nat, top: nat, cnt: nat, code: nat, len: nat)
    requires cnt < 8 && len <= 16 && code < Pow2(len) && bitBuf == top * Pow2(24 - cnt)
    ensures Or(bitBuf, Shl32(code, 24 - (cnt + len))) == Appended(top, len, code) * Pow2(24 - (cnt + len))
    ensures Msb(Appended(top, len, code), cnt + len) == Msb(top, cnt) + Msb(code, len)
  {
    var k := 24 - (cnt + len);
    MsbConcat(top, cnt, code, len);
    ShiftedCode(code, len, k);
    Pow2Add(k, len);
    var low := code * Pow2(k);
    OrIsAdd(low, 24 - cnt, top);
    OrCommutes(bitBuf, low);
    Factor(top, code, Pow2(len), Pow2(k));
  }

  lemma Factor(top: nat, code: nat, p: nat, k: nat)
    ensures (top * p + code) * k == top * (k * p) + code * k
  {
  }

  lemma ShiftedCode(code: nat, len: nat, k: nat)
    requires code < Pow2(len) && k + len <= 24
    ensures Shl32(code, k) == code * Pow2(k) < Pow2(k + len)
  {
    hide Pow2, U32;
    Pow2Add(k, len);
    Pow2Mono(k + len, 24);
    Pow2At24();
    MulLess(code, Pow2(len), Pow2(k));
    TimesCommutes(Pow2(len), Pow2(k));
  }

  lemma TimesCommutes(a: nat, b: nat)
    ensures a * b == b * a
  {
  }

  lemma {:induction false} OrCommutes(a: nat, b: nat)
    ensures Or(a, b) == Or(b, a)
    decreases a + b
  {
    if a != 0 && b != 0 {
      OrCommutes(a / 2, b / 2);
    }
  }

  /** Bits above the n-th do not matter. */
  lemma {:induction false} MsbMod(x: nat, n: nat, m: nat)
    requires n <= m
    ensures Msb(Low(x, Pow2(m)), n) == Msb(x, n)
    decreases n
  {
    hide Low;
    if n > 0 {
      HalfLow(x, Pow2(m - 1), Pow2(m));
      MsbMod(x / 2, n - 1, m - 1);
    }
  }

  lemma HalfLow(x: nat, p: nat, d: nat)
    requires p > 0 && d == 2 * p
    ensures Low(x, d) % 2 == x % 2 && Low(x, d) / 2 == Low(x / 2, p)
  {
    hide Low;
    var q := LowIs(x, d);
    var r := Low(x, d);
    assert q * d == 2 * (q * p);
    assert x / 2 == q * p + r / 2 && x % 2 == r % 2;
    LowUnique(x / 2, p, q, r / 2);
  }

  /** A number split at bit k, and moved up by j bits, is split at bit k + j. */
  lemma SplitShift(h: nat, l: nat, k: nat, j: nat)
    requires l < Pow2(k)
    ensures (h * Pow2(k) + l) * Pow2(j) == h * Pow2(k + j) + l * Pow2(j) && l * Pow2(j) < Pow2(k + j)
  {
    hide Pow2;
    Pow2Add(j, k);
    MulLess(l, Pow2(k), Pow2(j));
    Factor(h, l, Pow2(k), Pow2(j));
  }

  /** (bitBuf >> 16) & 255 is the first 8 of the pending bits. */
  lemma TopByte(bitBuf: nat, top: nat, n: nat)
    requires 8 <= n <= 24 && bitBuf == top * Pow2(24 - n)
    ensures Msb(top, n) == Msb(bitBuf / 65536 % 256, 8) + Msb(Low(top, Pow2(n)), n - 8)
  {
    hide Pow2, Msb, Low;
    var l := Low(top, Pow2(n - 8));
    var h := LowIs(top, Pow2(n - 8));
    SplitShift(h, l, n - 8, 24 - n);
    Pow2At16();
    DivUnique(bitBuf, 65536, h, l * Pow2(24 - n));
    MsbConcat(h, 8, l, n - 8);
    MsbMod(h, 8, 8);
    LowByte(h);
    MsbMod(top, n - 8, n - 8);
    MsbMod(top, n - 8, n);
  }

  lemma LowByte(h: nat)
    ensures Low(h, Pow2(8)) == h % 256
  {
    assert Pow2(8) == 256;
  }

  /** Shifting the buffer by a byte drops bits above the pending ones. */
  lemma ShiftOut(bitBuf: nat, top: nat, n: nat)
    requires 8 <= n <= 24 && bitBuf == top * Pow2(24 - n)
    ensures Shl32(bitBuf, 8) == Low(top, Pow2(n)) * Pow2(24 - (n - 8))
  {
    hide Pow2, Low;
    var l := Low(top, Pow2(n));
    var h := LowIs(top, Pow2(n));
    SplitShift(h, l, n, 32 - n);
    Pow2Add(24 - n, 8);
    Pow2At32();
    MulAssoc(top, Pow2(24 - n), Pow2(8));
    DivUnique(bitBuf * Pow2(8), 0x1_0000_0000, h, l * Pow2(32 - n));
  }

  lemma MulAssoc(a: nat, b: nat, c: nat)
    ensures a * b * c == a * (b * c)
  {
  }

  // ---- Blocks ----

  /** `stbiw__jpg_calcBits`: size class and magnitude bits of a nonzero value. */
  method CalcBits(val: int) returns (code: nat, len: nat)
    requires val != 0
    ensures len == Size(Abs(val)) && code == Magnitude(val)
  {
    var tmp1 := Abs(val);
    var v := if val < 0 then val - 1 else val;
    len := 1;
    tmp1 := tmp1 / 2;
    while tmp1 != 0
      invariant Size(Abs(val)) == len + Size(tmp1)
      decreases tmp1
    {
      len := len + 1;
      tmp1 := tmp1 / 2;
    }
    code := v % Pow2(len);
  }

  method WriteEntry(w: JpegWriter, t: Dht, sym: nat)
    requires w.Valid() && Coded(t, sym)
    modifies w
    ensures w.Valid() && w.Written() == old(w.Written()) + SymBits(t, sym)
  {
    hide Ht, Decode;
    DecodeCode(t, sym, []);
    w.WriteBits(Ht(t, sym).code, Ht(t, sym).len);
  }

  /** A symbol and the magnitude bits of its value. */
  method WriteValue(w: JpegWriter, t: Dht, run: nat, val: int)
    requires w.Valid() && run < 16 && val != 0 && Size(Abs(val)) <= 11
    requires Coded(t, Pack(run, Size(Abs(val))))
    modifies w
    ensures w.Valid() && w.Written() == old(w.Written()) + ValueBits(t, Pack(run, Size(Abs(val))), val)
  {
    hide Size, Magnitude, Msb, SymBits;
    ExtendMagnitude(val);
    var code, len := CalcBits(val);
    WriteEntry(w, t, Pack(run, len));
    w.WriteBits(code, len);
    SeqAssoc(old(w.Written()), SymBits(t, Pack(run, len)), Msb(code, len));
  }

  method WriteDc(w: JpegWriter, t: Dht, diff: int)
    requires w.Valid() && DcComplete(t) && Size(Abs(diff)) <= 11
    modifies w
    ensures w.Valid() && w.Written() == old(w.Written()) + ValueBits(t, Size(Abs(diff)), diff)
  {
    hide SymBits, Msb;
    if diff == 0 {
      WriteEntry(w, t, 0);
      assert ValueBits(t, 0, 0) == SymBits(t, 0);
    } else {
      WriteValue(w, t, 0, diff);
    }
  }

  /** Runs of sixteen zeros. */
  method WriteZrls(w: JpegWriter, t: Dht, lng: nat)
    requires w.Valid() && Coded(t, ZRL)
    modifies w
    ensures w.Valid() && w.Written() == old(w.Written()) + Repeated(SymBits(t, ZRL), lng)
  {
    hide SymBits;
    ghost var code := SymBits(t, ZRL);
    assert w.Written() + [] == w.Written();
    for k := 0 to lng
      invariant w.Valid() && w.Written() == old(w.Written()) + Repeated(code, k)
    {
      WriteEntry(w, t, ZRL);
      RepeatSnoc(code, k);
      SeqAssoc(old(w.Written()), Repeated(code, k), code);
    }
  }

  lemma {:induction false} RepeatSnoc(code: bits, n: nat)
    ensures Repeated(code, n + 1) == Repeated(code, n) + code
  {
    if n == 0 {
      assert code + [] == code && [] + code == code;
    } else {
      RepeatSnoc(code, n - 1);
      SeqAssoc(code, Repeated(code, n - 1), code);
    }
  }

  lemma NoneNonzero(zz: seq<int>, i: nat)
    requires |zz| == 64 && i <= 64 && forall k :: i <= k < 64 ==> zz[k] == 0
    ensures NextNonzero(zz, i) == 64
  {
  }

  lemma FirstNonzero(zz: seq<int>, i: nat, r: nat)
    requires |zz| == 64 && i <= r < 64 && zz[r] != 0 && forall k :: i <= k < r ==> zz[k] == 0
    ensures NextNonzero(zz, i) == r
  {
  }

  method SkipZeros(du: seq<int>, start: nat, end0pos: nat) returns (i: nat)
    requires |du| == 64 && 1 <= start <= end0pos < 64 && du[end0pos] != 0
    ensures start <= i <= end0pos && i == NextNonzero(du, start)
  {
    i := start;
    while i <= end0pos && du[i] == 0
      invariant start <= i <= end0pos && forall k :: start <= k < i ==> du[k] == 0
    {
      i := i + 1;
    }
    FirstNonzero(du, start, i);
  }

  /** The next coefficient that is not zero, after its run. */
  method WriteRun(w: JpegWriter, t: Dht, du: seq<int>, start: nat, end0pos: nat) returns (i: nat)
    requires w.Valid() && AcComplete(t) && AcFits(du) && 1 <= start <= end0pos < 64 && du[end0pos] != 0
    modifies w
    ensures w.Valid() && start <= i <= end0pos
    ensures w.Written() + AcBits(t, du, i + 1) == old(w.Written()) + AcBits(t, du, start)
  {
    hide Coded, SymBits, AcBits, Repeated, ValueBits, Size, NextNonzero;
    i := SkipZeros(du, start, end0pos);
    AcBitsAt(t, du, start, i);
    SizePositive(Abs(du[i]));
    var nrzeroes := i - start;
    if nrzeroes >= 16 {
      WriteZrls(w, t, nrzeroes / 16);
      nrzeroes := nrzeroes % 16;
    } else {
      NoRepeat(SymBits(t, ZRL));
      assert w.Written() + [] == w.Written();
    }
    WriteValue(w, t, nrzeroes, du[i]);
    ghost var a, b := Repeated(SymBits(t, ZRL), (i - start) / 16),
        ValueBits(t, Pack(nrzeroes, Size(Abs(du[i]))), du[i]);
    Regroup3(old(w.Written()), a, b, AcBits(t, du, i + 1));
  }

  lemma NoRepeat(code: bits)
    ensures Repeated(code, 0) == []
  {
  }

  method WriteAc(w: JpegWriter, t: Dht, du: seq<int>)
    requires w.Valid() && AcComplete(t) && AcFits(du)
    modifies w
    ensures w.Valid() && w.Written() == old(w.Written()) + AcBits(t, du, 1)
  {
    hide SymBits, Size;
    var end0pos := 63;
    while end0pos > 0 && du[end0pos] == 0
      invariant 0 <= end0pos <= 63 && forall k :: end0pos < k < 64 ==> du[k] == 0
    {
      end0pos := end0pos - 1;
    }
    if end0pos == 0 {
      NoneNonzero(du, 1);
      WriteEntry(w, t, EOB);
      return;
    }
    WriteRuns(w, t, du, end0pos);
    NoneNonzero(du, end0pos + 1);
    if end0pos != 63 {
      WriteEntry(w, t, EOB);
    } else {
      assert w.Written() + [] == w.Written();
    }
  }

  method WriteRuns(w: JpegWriter, t: Dht, du: seq<int>, end0pos: nat)
    requires w.Valid() && AcComplete(t) && AcFits(du) && 1 <= end0pos < 64 && du[end0pos] != 0
    modifies w
    ensures w.Valid() && w.Written() + AcBits(t, du, end0pos + 1) == old(w.Written()) + AcBits(t, du, 1)
  {
    hide SymBits, AcBits, Size;
    var i := 1;
    while i <= end0pos
      invariant 1 <= i <= end0pos + 1 && w.Valid()
      invariant w.Written() + AcBits(t, du, i) == old(w.Written()) + AcBits(t, du, 1)
    {
      i := WriteRun(w, t, du, i, end0pos);
      i := i + 1;
    }
  }

  /** The entropy part of `stbiw__jpg_processDU`; returns the next DC prediction. */
  method ProcessDU(w: JpegWriter, du: seq<int>, dc: int, dcTable: Dht, acTable: Dht) returns (pred: int)
    requires w.Valid() && DcComplete(dcTable) && AcComplete(acTable) && BlockFits(du, dc)
    modifies w
    ensures w.Valid() && w.Written() == old(w.Written()) + BlockBits(dcTable, acTable, du, dc)
    ensures pred == du[0]
  {
    hide Size, AcBits, ValueBits, AcComplete, DcComplete;
    WriteDc(w, dcTable, du[0] - dc);
    WriteAc(w, acTable, du);
    SeqAssoc(old(w.Written()), ValueBits(dcTable, Size(Abs(du[0] - dc)), du[0] - dc), AcBits(acTable, du, 1));
    pred := du[0];
  }

  // ---- Scans ----

  /** The tables the encoder uses: luminance for component 0, chrominance for 1 and 2. */
  function Dc(comp: nat): Dht {
    if comp == 0 then DcLum else DcChrom
  }

  function Ac(comp: nat): Dht {
    if comp == 0 then AcLum else AcChrom
  }

  // ---- What the file says about tables and components ----

  /** The SOS segment (section B.2.3 of ITU-T T.81): for each component its id and its
      selector, the DC table in the high half and the AC table in the low one. */
  const SOS: seq<byte> := [0xff, 0xda, 0x00, 0x0c, 3, 1, 0x00, 2, 0x11, 3, 0x11, 0x00, 0x3f, 0x00]

  /** One table of the DHT segment: its class and id, and which it is. */
  datatype Sent = Sent(info: byte, table: Dht)

  /** The tables in the order they are written (section B.2.4.2). */
  const DHT: seq<Sent> := [Sent(0x00, DcLum), Sent(0x10, AcLum), Sent(0x01, DcChrom), Sent(0x11, AcChrom)]

  /** The table a reader has stored under a class and id. */
  function Stored(info: byte, k: nat): Option<Dht>
    requires k <= |DHT|
    decreases |DHT| - k
  {
    if k == |DHT| then None else if DHT[k].info == info then Some(DHT[k].table) else Stored(info, k + 1)
  }

  /** The tables a reader selects for a component. */
  function DcSelected(comp: nat): Option<Dht>
    requires comp < 3
  {
    Stored(SOS[6 + 2 * comp] / 16, 0)
  }

  function AcSelected(comp: nat): Option<Dht>
    requires comp < 3
  {
    Stored(16 + SOS[6 + 2 * comp] % 16, 0)
  }

  /** The encoder uses the tables its own headers announce. */
  lemma SelectorsAgree(comp: nat)
    requires comp < 3
    ensures DcSelected(comp) == Some(Dc(comp)) && AcSelected(comp) == Some(Ac(comp))
  {
    assert Stored(0x11, 3) == Some(AcChrom) && Stored(0x10, 1) == Some(AcLum) && Stored(0x01, 2) == Some(DcChrom);
    assert Stored(0x11, 2) == Some(AcChrom) && Stored(0x11, 1) == Some(AcChrom) && Stored(0x01, 1) == Some(DcChrom);
  }

  /** The components of one MCU when the first is sampled h by v times (section A.2.3). */
  function McuComps(sampling: byte): seq<nat> {
    Repeat(0, sampling / 16 * (sampling % 16)) + [1, 2]
  }

  function AllComps(sampling: byte, mcus: nat): seq<nat> {
    if mcus == 0 then [] else McuComps(sampling) + AllComps(sampling, mcus - 1)
  }

  /** A quantised block, in zigzag order, of one of the three components. */
  datatype Unit = Unit(comp: nat, zz: seq<int>)

  type Preds = p: seq<int> | |p| == 3 witness [0, 0, 0]

  /** Each block is predicted from the previous one of its component. */
  predicate ScanFits(us: seq<Unit>, preds: Preds) {
    us == [] ||
    (us[0].comp < 3 && BlockFits(us[0].zz, preds[us[0].comp]) &&
     ScanFits(us[1..], preds[us[0].comp := us[0].zz[0]]))
  }

  function ScanBits(us: seq<Unit>, preds: Preds): bits
    requires ScanFits(us, preds)
  {
    if us == [] then []
    else
      var c := us[0].comp;
      BlockBits(Dc(c), Ac(c), us[0].zz, preds[c]) + ScanBits(us[1..], preds[c := us[0].zz[0]])
  }

  /** Decodes one block per entry of comps. */
  function ReadScan(s: bits, comps: seq<nat>, preds: Preds): Option<seq<Unit>>
    decreases |comps|
  {
    if comps == [] then Some([])
    else if comps[0] >= 3 then None
    else
      var c := comps[0];
      if DcSelected(c).None? || AcSelected(c).None? then None else
      match ReadBlock(s, DcSelected(c).value, AcSelected(c).value, preds[c])
      case Bad => None
      case Good(zz, rest) =>
        if zz == [] then None
        else
          match ReadScan(rest, comps[1..], preds[c := zz[0]])
          case None => None
          case Some(us) => Some([Unit(c, zz)] + us)
  }

  function Comps(us: seq<Unit>): (r: seq<nat>)
    ensures |r| == |us|
  {
    if us == [] then [] else [us[0].comp] + Comps(us[1..])
  }

  lemma {:induction false} ScanRoundTrip(us: seq<Unit>, preds: Preds, rest: bits)
    requires ScanFits(us, preds)
    ensures ReadScan(ScanBits(us, preds) + rest, Comps(us), preds) == Some(us)
    decreases |us|
  {
    if us != [] {
      hide DcComplete, AcComplete, ReadBlock, ReadScan, BlockBits, AcFits, Size;
      var c, zz := us[0].comp, us[0].zz;
      var more := ScanBits(us[1..], preds[c := zz[0]]);
      SeqAssoc(BlockBits(Dc(c), Ac(c), zz, preds[c]), more, rest);
      StandardTablesAreComplete();
      BlockRoundTrip(Dc(c), Ac(c), zz, preds[c], more + rest);
      ScanRoundTrip(us[1..], preds[c := zz[0]], rest);
      ReadScanCons(ScanBits(us, preds) + rest, us, preds, more + rest);
    }
  }

  lemma ReadScanCons(s: bits, us: seq<Unit>, preds: Preds, rest: bits)
    requires us != [] && us[0].comp < 3 && us[0].zz != []
    requires ReadBlock(s, Dc(us[0].comp), Ac(us[0].comp), preds[us[0].comp]) == Good(us[0].zz, rest)
    requires ReadScan(rest, Comps(us[1..]), preds[us[0].comp := us[0].zz[0]]) == Some(us[1..])
    ensures ReadScan(s, Comps(us), preds) == Some(us)
  {
    hide ReadBlock, ReadScan, Comps, Dc, Ac;
    var u := us[0];
    CompsFirst(us);
    ReadUnit(s, u, Comps(us[1..]), preds, us[1..], rest);
    assert [u.comp] + Comps(us[1..]) == Comps(us) && [u] + us[1..] == us;
  }

  lemma ReadUnit(s: bits, u: Unit, comps: seq<nat>, preds: Preds, us: seq<Unit>, rest: bits)
    requires u.comp < 3 && u.zz != [] && ReadBlock(s, Dc(u.comp), Ac(u.comp), preds[u.comp]) == Good(u.zz, rest)
    requires ReadScan(rest, comps, preds[u.comp := u.zz[0]]) == Some(us)
    ensures ReadScan(s, [u.comp] + comps, preds) == Some([u] + us)
  {
    SelectorsAgree(u.comp);
    hide ReadBlock, DcSelected, AcSelected, Dc, Ac;
    assert ([u.comp] + comps)[1..] == comps;
  }

  lemma CompsFirst(us: seq<Unit>)
    requires us != []
    ensures Comps(us) != [] && Comps(us)[0] == us[0].comp && Comps(us)[1..] == Comps(us[1..])
  {
  }

  /** A reader of entropy-coded data: unstuff, then decode block by block. */
  function DecodeScan(sent: seq<byte>, comps: seq<nat>): Option<seq<Unit>> {
    match Unstuff(sent)
    case None => None
    case Some(coded) => ReadScan(MsbBits(coded), comps, [0, 0, 0])
  }

  /** The bytes sent for the blocks: only the last coded byte is filled, with one bits. */
  ghost predicate Scanned(us: seq<Unit>, sent: seq<byte>, coded: seq<byte>)
    requires ScanFits(us, [0, 0, 0])
  {
    var s := ScanBits(us, [0, 0, 0]);
    sent == Stuff(coded) && |s| <= 8 * |coded| < |s| + 8 && s <= MsbBits(coded) &&
    forall k :: |s| <= k < 8 * |coded| ==> MsbBits(coded)[k]
  }

  /** All blocks of an image and the fill bits after them. */
  method EncodeScan(us: seq<Unit>) returns (sent: seq<byte>, ghost coded: seq<byte>)
    requires ScanFits(us, [0, 0, 0])
    // The decoder recovers every coefficient,
    ensures DecodeScan(sent, Comps(us)) == Some(us)
    // no coded 0xFF looks like a marker, and the bytes are those of the coding.
    ensures forall k :: 0 <= k < |sent| && sent[k] == 255 ==> k + 1 < |sent| && sent[k + 1] == 0
    ensures Scanned(us, sent, coded)
  {
    hide ReadScan, Stuff, Unstuff, ScanBits, ScanFits, MsbBits, Msb, Comps, DecodeScan, Pow2;
    var w := new JpegWriter();
    WriteUnits(w, us);
    Ones();
    w.WriteBits(0x7f, 7);
    sent, coded := w.sent, w.coded;
    ScanDone(us, coded, Msb(w.top, w.bitCnt));
    forall k | 0 <= k < |sent| && sent[k] == 255
      ensures k + 1 < |sent| && sent[k + 1] == 0
    {
      StuffedIsMarkerFree(coded, k);
    }
  }

  /** The sampling byte of component 1 in the frame header. */
  function Sampling(subsample: bool): byte {
    if subsample then 0x22 else 0x11
  }

  /** The blocks of one MCU: luminance, four when subsampled, and the two others. */
  datatype Mcu = Mcu(y: seq<seq<int>>, u: seq<int>, v: seq<int>)

  function Luma(y: seq<seq<int>>): (us: seq<Unit>)
    ensures |us| == |y| && forall k :: 0 <= k < |us| ==> us[k] == Unit(0, y[k])
  {
    seq(|y|, k requires 0 <= k < |y| => Unit(0, y[k]))
  }

  /** The blocks in the order `stbiw__jpg_processDU` is called on them. */
  function Units(mcus: seq<Mcu>): seq<Unit> {
    if mcus == [] then [] else Luma(mcus[0].y) + [Unit(1, mcus[0].u), Unit(2, mcus[0].v)] + Units(mcus[1..])
  }

  lemma {:induction false} CompsConcat(a: seq<Unit>, b: seq<Unit>)
    ensures Comps(a + b) == Comps(a) + Comps(b)
  {
    if a == [] {
      assert a + b == b;
    } else {
      assert (a + b)[1..] == a[1..] + b;
      CompsConcat(a[1..], b);
    }
  }

  lemma {:induction false} CompsAt(us: seq<Unit>)
    ensures forall k :: 0 <= k < |us| ==> Comps(us)[k] == us[k].comp
  {
    if us != [] {
      CompsAt(us[1..]);
    }
  }

  /** The blocks come in the order a reader expects from the frame header. */
  lemma {:induction false} UnitsInOrder(mcus: seq<Mcu>, subsample: bool)
    requires forall m :: m in mcus ==> |m.y| == if subsample then 4 else 1
    ensures Comps(Units(mcus)) == AllComps(Sampling(subsample), |mcus|)
    decreases |mcus|
  {
    if mcus != [] {
      var m := mcus[0];
      var one := Luma(m.y) + [Unit(1, m.u), Unit(2, m.v)];
      CompsAt(one);
      assert Comps(one) == McuComps(Sampling(subsample));
      CompsConcat(one, Units(mcus[1..]));
      UnitsInOrder(mcus[1..], subsample);
    }
  }

  /** The scan of a whole image: a reader that knows the headers and the number of MCUs
      recovers every block in its place. */
  method EncodeImage(mcus: seq<Mcu>, subsample: bool) returns (sent: seq<byte>, ghost coded: seq<byte>)
    requires forall m :: m in mcus ==> |m.y| == if subsample then 4 else 1
    requires ScanFits(Units(mcus), [0, 0, 0])
    ensures DecodeScan(sent, AllComps(Sampling(subsample), |mcus|)) == Some(Units(mcus))
    ensures Scanned(Units(mcus), sent, coded)
  {
    hide Units, DecodeScan, AllComps, Comps, ScanFits, Scanned;
    UnitsInOrder(mcus, subsample);
    sent, coded := EncodeScan(Units(mcus));
  }

  /** What the coded bytes hold when the fill bits have followed the scan. */
  lemma ScanDone(us: seq<Unit>, coded: seq<byte>, pending: bits)
    requires ScanFits(us, [0, 0, 0]) && |pending| < 8
    requires MsbBits(coded) + pending == ScanBits(us, [0, 0, 0]) + [true, true, true, true, true, true, true]
    ensures DecodeScan(Stuff(coded), Comps(us)) == Some(us)
    ensures var s := ScanBits(us, [0, 0, 0]);
            |s| <= 8 * |coded| < |s| + 8 && s <= MsbBits(coded) &&
            forall k :: |s| <= k < 8 * |coded| ==> MsbBits(coded)[k]
  {
    hide ReadScan, Stuff, Unstuff, ScanBits, ScanFits, MsbBits, Comps;
    var s := ScanBits(us, [0, 0, 0]);
    FillBits(s, MsbBits(coded), pending);
    var fill := MsbBits(coded)[|s|..];
    ScanRoundTrip(us, [0, 0, 0], fill);
    assert MsbBits(coded) == s + fill;
    UnstuffAll(coded);
  }

  lemma UnstuffAll(coded: seq<byte>)
    ensures Unstuff(Stuff(coded)) == Some(coded)
  {
    UnstuffStuff(coded, [], []);
    assert Stuff(coded) + [] == Stuff(coded) && coded + [] == coded;
  }

  lemma Ones()
    ensures Msb(0x7f, 7) == [true, true, true, true, true, true, true] && 0x7f < Pow2(7)
  {
    MsbConcat(0xf, 4, 0x7, 3);
    assert Msb(0x7, 3) == [true, true, true] && Pow2(3) == 8;
    assert Msb(0xf, 4) == [true, true, true, true];
    assert Pow2(7) == 128;
  }

  lemma FillBits(s: bits, sent: bits, pending: bits)
    requires sent + pending == s + [true, true, true, true, true, true, true]
    requires |pending| < 8 && exists n :: |sent| == 8 * n
    ensures |s| <= |sent| < |s| + 8 && s == sent[..|s|] && forall k :: |s| <= k < |sent| ==> sent[k]
  {
    var all := sent + pending;
    assert |sent| + |pending| == |s| + 7;
    assert forall k :: 0 <= k < |sent| ==> sent[k] == all[k];
    assert s == all[..|s|];
  }

  method WriteUnits(w: JpegWriter, us: seq<Unit>)
    requires w.Valid() && w.Written() == [] && ScanFits(us, [0, 0, 0])
    modifies w
    ensures w.Valid() && w.Written() == ScanBits(us, [0, 0, 0])
  {
    StandardTablesAreComplete();
    hide DcComplete, AcComplete, BlockBits, AcFits, Size;
    var preds: Preds := [0, 0, 0];
    assert us[0..] == us;
    ghost var all := ScanBits(us, preds);
    assert [] + all == all;
    for j := 0 to |us|
      invariant w.Valid() && ScanFits(us[j..], preds)
      invariant w.Written() + ScanBits(us[j..], preds) == all
    {
      var u := us[j];
      assert us[j..][0] == u && us[j..][1..] == us[j + 1..];
      ghost var before := w.Written();
      var pred := ProcessDU(w, u.zz, preds[u.comp], Dc(u.comp), Ac(u.comp));
      SeqAssoc(before, BlockBits(Dc(u.comp), Ac(u.comp), u.zz, preds[u.comp]),
               ScanBits(us[j + 1..], preds[u.comp := pred]));
      preds := preds[u.comp := pred];
    }
    assert w.Written() + [] == w.Written();
  }
}
