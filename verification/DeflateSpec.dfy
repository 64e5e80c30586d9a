/** What the compressor writes, as pure functions, and that the reference decoder
    reads it back. */
module DeflateSpec {
  import opened Basics
  import opened Bits
  import opened Inflate

  // ---- Fixed Huffman code, encoding direction ----

  function CodeLen(n: nat): nat
  {
    if n <= 143 then 8 else if n <= 255 then 9 else if n <= 279 then 7 else 8
  }

  function Code(n: nat): (c: nat)
    requires n < 288
  {
    if n <= 143 then 0x30 + n
    else if n <= 255 then 0x190 + (n - 144)
    else if n <= 279 then n - 256
    else 0xc0 + (n - 280)
  }

  function SymbolBits(n: nat): bits
    requires n < 288
  {
    Msb(Code(n), CodeLen(n))
  }

  /** The fixed code is instantaneous: a coded symbol is read back whatever follows it. */
  lemma SymbolRoundTrip(n: nat, rest: bits)
    requires n < 288
    ensures ReadSymbol(SymbolBits(n) + rest) == Number(n, rest)
  {
    if CodeLen(n) == 7 {
      ReadCode7(Code(n), rest);
    } else if CodeLen(n) == 8 {
      ReadCode8(Code(n), rest);
    } else {
      ReadCode9(Code(n), rest);
    }
  }

  lemma ReadCode7(c: nat, rest: bits)
    requires c < 24
    ensures ReadSymbol(Msb(c, 7) + rest) == Number(256 + c, rest)
  {
    var s := Msb(c, 7) + rest;
    assert s[..7] == Msb(c, 7) && s[7..] == rest;
    assert Pow2(7) == 128;
    FromMsbMsb(c, 7);
  }

  lemma ReadCode8(c: nat, rest: bits)
    requires 48 <= c < 200
    ensures ReadSymbol(Msb(c, 8) + rest) == Number(if c < 192 then c - 48 else 280 + c - 192, rest)
  {
    var s := Msb(c, 8) + rest;
    assert Pow2(7) == 128 && Pow2(8) == 256;
    assert s[..8] == Msb(c, 8) && s[8..] == rest;
    FromMsbMsb(c, 8);
    MsbInit(c, 8);
    assert s[..7] == Msb(c, 8)[..7];
    FromMsbMsb(c / 2, 7);
  }

  lemma ReadCode9(c: nat, rest: bits)
    requires 400 <= c < 512
    ensures ReadSymbol(Msb(c, 9) + rest) == Number(144 + c - 400, rest)
  {
    var s := Msb(c, 9) + rest;
    assert Pow2(7) == 128 && Pow2(8) == 256 && Pow2(9) == 512;
    assert s[..9] == Msb(c, 9) && s[9..] == rest;
    FromMsbMsb(c, 9);
    MsbInit(c, 9);
    assert s[..8] == Msb(c, 9)[..8];
    FromMsbMsb(c / 2, 8);
    MsbInit(c / 2, 8);
    assert s[..7] == s[..8][..7];
    FromMsbMsb(c / 2 / 2, 7);
  }

  // ---- Matches ----

  /** The last length class starting at or below len, searching up from c. */
  function LengthClass(len: nat, c: nat): (r: nat)
    requires c < 29 && LengthBase(c) <= len <= 258
    ensures r < 29 && LengthBase(r) <= len && (r < 28 ==> len < LengthBase(r + 1))
    decreases 29 - c
  {
    if c < 28 && LengthBase(c + 1) <= len then LengthClass(len, c + 1) else c
  }

  function DistClass(dist: nat, c: nat): (r: nat)
    requires c < 30 && DistBase(c) <= dist <= 32767
    ensures r < 30 && DistBase(r) <= dist && (r < 29 ==> dist < DistBase(r + 1))
    decreases 30 - c
  {
    if c < 29 && DistBase(c + 1) <= dist then DistClass(dist, c + 1) else c
  }

  /** The matches the compressor may emit. */
  predicate Encodable(t: Token) {
    t.Match? ==> 3 <= t.len <= 258 && 1 <= t.dist <= 32767
  }

  function LengthBits(len: nat): bits
    requires 3 <= len <= 258
  {
    var c := LengthClass(len, 0);
    SymbolBits(257 + c) + Lsb(len - LengthBase(c), LengthExtra(c))
  }

  function DistBits(dist: nat): bits
    requires 1 <= dist <= 32767
    ensures |DistBits(dist)| >= 5
  {
    var c := DistClass(dist, 0);
    Msb(c, 5) + Lsb(dist - DistBase(c), DistExtra(c))
  }

  function TokenBits(t: Token): bits
    requires Encodable(t)
  {
    match t
    case Literal(b) => SymbolBits(b)
    case Match(len, dist) => LengthBits(len) + DistBits(dist)
  }

  /** The extra bits of each class reach its last member. */
  lemma LengthExtraFits(len: nat, c: nat)
    requires c < 29 && LengthBase(c) <= len <= 258 && (c < 28 ==> len < LengthBase(c + 1))
    ensures LengthExtra(c) <= 5 && len - LengthBase(c) < Pow2(LengthExtra(c))
  {
    assert Pow2(0) == 1 && Pow2(1) == 2 && Pow2(2) == 4 && Pow2(3) == 8 && Pow2(4) == 16 && Pow2(5) == 32;
  }

  lemma DistExtraFits(dist: nat, c: nat)
    requires c < 30 && DistBase(c) <= dist <= 32767 && (c < 29 ==> dist < DistBase(c + 1))
    ensures DistExtra(c) <= 13 && dist - DistBase(c) < Pow2(DistExtra(c))
  {
    Pow2Small();
    assert Pow2(10) == 1024 && Pow2(11) == 2048 && Pow2(12) == 4096;
  }

  lemma NumberRoundTrip(v: nat, n: nat, rest: bits)
    requires v < Pow2(n)
    ensures ReadNumber(Lsb(v, n) + rest, n) == Number(v, rest)
  {
    FromLsbLsb(v, n);
    TakeDrop(Lsb(v, n), rest);
  }

  lemma ReadDist(dist: nat, d: nat, rest: bits)
    requires 1 <= dist <= 32767 && d == DistClass(dist, 0)
    ensures var s := DistBits(dist) + rest;
            FromMsb(s[..5]) == d && ReadNumber(s[5..], DistExtra(d)) == Number(dist - DistBase(d), rest)
  {
    hide DistBase, DistExtra, DistClass, Lsb, Msb, FromMsb, Pow2, ReadNumber;
    DistExtraFits(dist, d);
    var n := Lsb(dist - DistBase(d), DistExtra(d));
    assert DistBits(dist) == Msb(d, 5) + n;
    hide DistBits;
    TakeDrop3(Msb(d, 5), n, rest);
    FromMsbMsb5(d);
    NumberRoundTrip(dist - DistBase(d), DistExtra(d), rest);
  }

  lemma ReadLengthAndDist(len: nat, c: nat, dist: nat, rest: bits)
    requires Encodable(Match(len, dist)) && c == LengthClass(len, 0)
    ensures ReadMatch(257 + c, Lsb(len - LengthBase(c), LengthExtra(c)) + (DistBits(dist) + rest)) ==
            MatchOf(Match(len, dist), rest)
  {
    hide LengthBase, LengthExtra, DistBase, DistExtra, DistBits, LengthClass, DistClass;
    hide Lsb, FromMsb, Pow2, ReadNumber;
    LengthExtraFits(len, c);
    NumberRoundTrip(len - LengthBase(c), LengthExtra(c), DistBits(dist) + rest);
    ReadDist(dist, DistClass(dist, 0), rest);
  }

  /** A coded match is read back, length and distance, whatever follows it. */
  lemma MatchRoundTrip(len: nat, dist: nat, rest: bits) returns (sym: nat, s: bits)
    requires Encodable(Match(len, dist))
    ensures ReadSymbol(TokenBits(Match(len, dist)) + rest) == Number(sym, s)
    ensures sym > 256 && ReadMatch(sym, s) == MatchOf(Match(len, dist), rest)
  {
    hide LENGTH_BASE, LENGTH_EXTRA, LengthClass, DistBits, SymbolBits, ReadSymbol, ReadMatch;
    var c := LengthClass(len, 0);
    var e, d := Lsb(len - LengthBase(c), LengthExtra(c)), DistBits(dist);
    sym, s := 257 + c, e + (d + rest);
    assert TokenBits(Match(len, dist)) + rest == SymbolBits(257 + c) + s;
    SymbolRoundTrip(257 + c, s);
    ReadLengthAndDist(len, c, dist, rest);
  }

  // ---- Token strings ----

  /** Copying text that recurs later in data extends the copied prefix by it, even
      where source and target overlap. */
  lemma {:induction false} CopyRecurring(data: seq<byte>, i: nat, dist: nat, len: nat)
    requires 1 <= dist <= i && i + len <= |data|
    requires data[i - dist..i - dist + len] == data[i..i + len]
    ensures Copy(data[..i], dist, len) == data[..i + len]
    decreases len
  {
    if len > 0 {
      assert data[i - dist..i - dist + len][0] == data[i..i + len][0];
      assert data[..i] + [data[i - dist]] == data[..i + 1];
      assert data[i + 1 - dist..i + 1 - dist + (len - 1)] == data[i - dist..i - dist + len][1..];
      assert data[i + 1..i + 1 + (len - 1)] == data[i..i + len][1..];
      CopyRecurring(data, i + 1, dist, len - 1);
    }
  }

  ghost predicate AllEncodable(ts: seq<Token>) {
    forall t :: t in ts ==> Encodable(t)
  }

  function TokensBits(ts: seq<Token>): bits
    requires AllEncodable(ts)
  {
    if ts == [] then [] else TokensBits(ts[..|ts| - 1]) + TokenBits(ts[|ts| - 1])
  }

  /** The text a token string stands for, when every match points into it. */
  function Expand(ts: seq<Token>): Option<seq<byte>> {
    if ts == [] then Some([])
    else
      match Expand(ts[..|ts| - 1])
      case None => None
      case Some(out) =>
        if Applies(ts[|ts| - 1], out) then Some(Apply(ts[|ts| - 1], out)) else None
  }

  /** A fixed block is decoded to the expansion of its tokens. */
  lemma {:induction false} FixedBlockRoundTrip(ts: seq<Token>, rest: bits)
    requires AllEncodable(ts) && Expand(ts).Some?
    ensures FixedBlock(TokensBits(ts) + rest, []) == FixedBlock(rest, Expand(ts).value)
    decreases |ts|
  {
    if ts == [] {
      assert TokensBits(ts) + rest == rest;
    } else {
      var init, t := ts[..|ts| - 1], ts[|ts| - 1];
      var out := Expand(init).value;
      var s := TokenBits(t) + rest;
      assert TokensBits(ts) + rest == TokensBits(init) + s;
      FixedBlockRoundTrip(init, s);
      match t {
        case Literal(b) => SymbolRoundTrip(b, rest);
        case Match(len, dist) => var _, _ := MatchRoundTrip(len, dist, rest);
      }
    }
  }

  /** A final block in the fixed code: BFINAL, BTYPE = 01, tokens, end of block. */
  function FixedBits(ts: seq<Token>): bits
    requires AllEncodable(ts)
  {
    Lsb(1, 1) + Lsb(1, 2) + TokensBits(ts) + SymbolBits(256)
  }

  // ---- Stored blocks ----

  const MAX_STORED := 32767

  function StoredLen(data: seq<byte>): (n: nat)
    ensures n <= |data| && n <= MAX_STORED && (data != [] ==> n > 0)
  {
    if |data| > MAX_STORED then MAX_STORED else |data|
  }

  /** BFINAL and BTYPE = 00 padded to a byte, LEN, NLEN. */
  function StoredHeader(len: nat, final: bool): (h: seq<byte>)
    requires len <= MAX_STORED
    ensures |h| == 5
  {
    [if final then 1 else 0, len % 256, len / 256, 255 - len % 256, 255 - len / 256]
  }

  function StoredBytes(data: seq<byte>): seq<byte> {
    if data == [] then []
    else
      var n := StoredLen(data);
      StoredHeader(n, n == |data|) + data[..n] + StoredBytes(data[n..])
  }

  function StoredSize(n: nat): nat {
    n + (n + 32766) / MAX_STORED * 5
  }

  lemma {:induction false} StoredBytesSize(data: seq<byte>)
    ensures |StoredBytes(data)| == StoredSize(|data|)
    decreases |data|
  {
    if data != [] {
      var n := StoredLen(data);
      StoredBytesSize(data[n..]);
      if |data| > MAX_STORED {
        assert (|data| + 32766) / MAX_STORED == (|data| - MAX_STORED + 32766) / MAX_STORED + 1;
      }
    }
  }

  lemma ReadByte(b: byte, rest: bits)
    ensures var s := Lsb(b, 8) + rest;
            FirstByte(s) == b && s[8..] == rest
  {
    assert Pow2(8) == 256;
    FromLsbLsb(b, 8);
    TakeDrop(Lsb(b, 8), rest);
  }

  lemma ReadOneByte(b: byte, more: bits, n: nat, out: seq<byte>)
    ensures ReadBytes(Lsb(b, 8) + more, n + 1, out) == ReadBytes(more, n, out + [b])
  {
    ReadByte(b, more);
    hide Lsb;
  }

  lemma {:induction false} ReadBytesRoundTrip(bs: seq<byte>, rest: bits, out: seq<byte>)
    ensures ReadBytes(ByteBits(bs) + rest, |bs|, out) == Text(out + bs, rest)
    decreases |bs|
  {
    if bs == [] {
      assert ByteBits(bs) + rest == rest;
      assert out + bs == out;
    } else {
      hide Lsb, ByteBits, ReadBytes;
      var more := ByteBits(bs[1..]) + rest;
      ByteBitsCons(bs[0], bs[1..]);
      assert [bs[0]] + bs[1..] == bs;
      SeqAssoc(Lsb(bs[0], 8), ByteBits(bs[1..]), rest);
      ReadOneByte(bs[0], more, |bs| - 1, out);
      ReadBytesRoundTrip(bs[1..], rest, out + [bs[0]]);
      SeqAssoc(out, [bs[0]], bs[1..]);
    }
  }

  /** Two bytes hold a 16-bit number, low byte first. */
  lemma ReadWord(lo: byte, hi: byte)
    ensures FromLsb(Word(lo, hi)) == lo + 256 * hi
  {
    assert Pow2(8) == 256;
    LsbConcat(lo, 8, hi, 8);
    Pow2Add(8, 8);
    FromLsbLsb(lo + hi * 256, 16);
  }

  lemma StoredHeaderBits(len: nat, final: bool)
    requires len <= MAX_STORED
    ensures ByteBits(StoredHeader(len, final)) ==
            Lsb(if final then 1 else 0, 8) + (Word(len % 256, len / 256) + Word(255 - len % 256, 255 - len / 256))
  {
    var f: byte := if final then 1 else 0;
    var lo: byte, hi: byte, nlo: byte, nhi: byte := len % 256, len / 256, 255 - len % 256, 255 - len / 256;
    assert StoredHeader(len, final) == [f] + ([lo, hi] + [nlo, nhi]);
    hide Lsb, ByteBits, StoredHeader, Word;
    ByteBitsCons(f, [lo, hi] + [nlo, nhi]);
    ByteBitsConcat([lo, hi], [nlo, nhi]);
    ByteBitsPair(lo, hi);
    ByteBitsPair(nlo, nhi);
  }

  lemma LsbStep(x: nat, n: nat)
    requires n > 0
    ensures Lsb(x, n) == [x % 2 == 1] + Lsb(x / 2, n - 1)
  {
  }

  lemma {:induction false} LsbZero(n: nat)
    ensures Lsb(0, n) == seq(n, _ => false)
  {
    if n > 0 {
      LsbZero(n - 1);
    }
  }

  lemma HeaderByteBits(final: bool)
    ensures Lsb(if final then 1 else 0, 8) == [final, false, false] + [false, false, false, false, false]
  {
    hide Lsb;
    LsbStep(if final then 1 else 0, 8);
    LsbZero(7);
  }

  lemma AlignPad(pad: bits, s: bits, k: nat)
    requires |pad| < 8 && |s| == 8 * k
    ensures Align(pad + s) == s
  {
    DivUnique(|pad + s|, 8, k, |pad|);
    TakeDrop(pad, s);
  }

  /** Reading LEN and NLEN after the block header. */
  lemma StoredBlockStep(pad: bits, w: bits, nw: bits, payload: bits, k: nat, out: seq<byte>)
    requires |pad| < 8 && |w| == 16 && |nw| == 16 && |payload| == 8 * k
    requires FromLsb(w) + FromLsb(nw) == 65535
    ensures StoredBlock(pad + (w + nw + payload), out) == ReadBytes(payload, FromLsb(w), out)
  {
    AlignPad(pad, w + nw + payload, k + 4);
    var a := w + nw + payload;
    assert a[..16] == w && a[16..32] == nw && a[32..] == payload;
  }

  lemma BlocksStep(f: bool, after: bits, out: seq<byte>, out1: seq<byte>, rest: bits)
    requires StoredBlock(after, out) == Text(out1, rest)
    ensures Blocks([f, false, false] + after, out) == if f then Text(out1, rest) else Blocks(rest, out1)
  {
    var s := [f, false, false] + after;
    assert s[1..3] == [false, false] && FromLsb([false, false]) == 0;
    assert s[3..] == after;
  }

  lemma StoredBlockBits(chunk: seq<byte>, final: bool, tail: seq<byte>)
    requires |chunk| <= MAX_STORED
    ensures var n := |chunk|;
            ByteBits(StoredHeader(n, final) + (chunk + tail)) ==
            [final, false, false] + ([false, false, false, false, false] +
            (Word(n % 256, n / 256) + Word(255 - n % 256, 255 - n / 256) + (ByteBits(chunk) + ByteBits(tail))))
  {
    hide ByteBits, Lsb, StoredHeader, Word;
    ByteBitsConcat(StoredHeader(|chunk|, final), chunk + tail);
    ByteBitsConcat(chunk, tail);
    StoredHeaderBits(|chunk|, final);
    HeaderByteBits(final);
  }

  lemma StoredBlockRoundTrip(chunk: seq<byte>, final: bool, tail: seq<byte>, out: seq<byte>)
    requires |chunk| <= MAX_STORED
    ensures Blocks(ByteBits(StoredHeader(|chunk|, final) + (chunk + tail)), out) ==
            if final then Text(out + chunk, ByteBits(tail)) else Blocks(ByteBits(tail), out + chunk)
  {
    hide ByteBits, Lsb, StoredHeader, Word, StoredBlock, Blocks, ReadBytes, FromLsb;
    var n := |chunk|;
    var w, nw := Word(n % 256, n / 256), Word(255 - n % 256, 255 - n / 256);
    var payload := ByteBits(chunk) + ByteBits(tail);
    var pad := [false, false, false, false, false];
    StoredBlockBits(chunk, final, tail);
    ReadWord(n % 256, n / 256);
    ReadWord(255 - n % 256, 255 - n / 256);
    ReadBytesRoundTrip(chunk, ByteBits(tail), out);
    StoredBlockStep(pad, w, nw, payload, n + |tail|, out);
    BlocksStep(final, pad + (w + nw + payload), out, out + chunk, ByteBits(tail));
  }

  /** Stored blocks are decoded to the data they were cut from. */
  lemma {:induction false} StoredRoundTrip(data: seq<byte>, tail: seq<byte>, out: seq<byte>)
    requires data != []
    ensures Blocks(ByteBits(StoredBytes(data) + tail), out) == Text(out + data, ByteBits(tail))
    decreases |data|
  {
    hide Blocks, ByteBits, StoredHeader, StoredBytes;
    var n := StoredLen(data);
    var rest := StoredBytes(data[n..]);
    StoredBytesSplit(data);
    Regroup(StoredHeader(n, n == |data|), data[..n], rest, tail);
    StoredBlockRoundTrip(data[..n], n == |data|, rest + tail, out);
    if n < |data| {
      StoredRoundTrip(data[n..], tail, out + data[..n]);
      SeqAssoc(out, data[..n], data[n..]);
      assert data[..n] + data[n..] == data;
    } else {
      assert rest + tail == tail;
      assert data[..n] == data;
    }
  }

  lemma StoredBytesSplit(data: seq<byte>)
    requires data != []
    ensures var n := StoredLen(data);
            StoredBytes(data) == StoredHeader(n, n == |data|) + data[..n] + StoredBytes(data[n..]) &&
            (n == |data| ==> StoredBytes(data[n..]) == [])
  {
    hide StoredHeader;
  }

  // ---- Whole streams ----

  const ZLIB_HEADER: seq<byte> := [0x78, 0x5e]

  lemma ZlibUnwrap(body: seq<byte>, data: seq<byte>, pad: bits)
    requires |pad| < 8
    requires Blocks(ByteBits(body + AdlerBytes(data)), []) == Text(data, pad + ByteBits(AdlerBytes(data)))
    ensures Zlib(ZLIB_HEADER + body + AdlerBytes(data)) == Some(data)
  {
    hide AdlerBytes, ByteBits, Blocks, Align;
    var stream := ZLIB_HEADER + body + AdlerBytes(data);
    assert stream[0] == 0x78 && stream[1] == 0x5e && HeaderOk(0x78, 0x5e);
    assert stream[2..] == body + AdlerBytes(data);
    AlignPad(pad, ByteBits(AdlerBytes(data)), 4);
  }

  lemma FixedHeaderBits()
    ensures Lsb(1, 1) + Lsb(1, 2) == [true, true, false]
  {
  }

  lemma EndOfBlock(rest: bits, out: seq<byte>)
    ensures FixedBlock(SymbolBits(256) + rest, out) == Text(out, rest)
  {
    SymbolRoundTrip(256, rest);
  }

  lemma FixedBlocks(ts: seq<Token>, rest: bits, data: seq<byte>)
    requires AllEncodable(ts) && Expand(ts) == Some(data)
    ensures Blocks(FixedBits(ts) + rest, []) == Text(data, rest)
  {
    hide Lsb, TokensBits, SymbolBits, FixedBlock, Expand;
    var after := TokensBits(ts) + (SymbolBits(256) + rest);
    FixedBlockRoundTrip(ts, SymbolBits(256) + rest);
    EndOfBlock(rest, data);
    var s := FixedBits(ts) + rest;
    FixedHeaderBits();
    assert s == [true, true, false] + after;
    assert s[1..3] == [true, false] && FromLsb([true, false]) == 1;
    assert s[3..] == after;
  }

  /** A fixed-code stream, padded to a byte, decodes to the expansion of its tokens. */
  lemma FixedStreamRoundTrip(ts: seq<Token>, body: seq<byte>, pad: bits, data: seq<byte>)
    requires AllEncodable(ts) && Expand(ts) == Some(data)
    requires ByteBits(body) == FixedBits(ts) + pad && |pad| < 8
    ensures Zlib(ZLIB_HEADER + body + AdlerBytes(data)) == Some(data)
  {
    hide Lsb, AdlerBytes, ByteBits, FixedBits, TokensBits, Blocks, Zlib, Expand;
    var rest := pad + ByteBits(AdlerBytes(data));
    ByteBitsConcat(body, AdlerBytes(data));
    assert ByteBits(body + AdlerBytes(data)) == FixedBits(ts) + rest;
    FixedBlocks(ts, rest, data);
    ZlibUnwrap(body, data, pad);
  }

  lemma StoredStreamRoundTrip(data: seq<byte>)
    requires data != []
    ensures Zlib(ZLIB_HEADER + StoredBytes(data) + AdlerBytes(data)) == Some(data)
  {
    StoredRoundTrip(data, AdlerBytes(data), []);
    assert [] + ByteBits(AdlerBytes(data)) == ByteBits(AdlerBytes(data));
    assert [] + data == data;
    ZlibUnwrap(StoredBytes(data), data, []);
  }

  /** With no data there is no block, and the stream is malformed. */
  lemma EmptyStreamIsMalformed()
    ensures Zlib(ZLIB_HEADER + StoredBytes([]) + AdlerBytes([])) == None
  {
    var a := AdlerBytes([]);
    assert (ZLIB_HEADER + StoredBytes([]) + a)[2..] == [0] + [0, 0, 1];
    ByteBitsCons(0, [0, 0, 1]);
    HeaderByteBits(false);
    var s := ByteBits([0] + [0, 0, 1]);
    assert s[1..3] == [false, false] && FromLsb([false, false]) == 0;
    assert |Align(s[3..])| == 24;
  }
}
