/** `stbi_zlib_compress`. */
module Deflate {
  import opened Basics
  import opened Bits
  import opened Inflate
  import opened DeflateSpec
  import opened BitWriters
  import opened Matching
  import Adler

  const LENGTHC: seq<nat> :=
    [3, 4, 5, 6, 7, 8, 9, 10, 11, 13, 15, 17, 19, 23, 27, 31, 35, 43, 51, 59, 67, 83, 99, 115, 131, 163, 195, 227,
     258, 259]

  const LENGTHEB: seq<nat> :=
    [0, 0, 0, 0, 0, 0, 0, 0, 1, 1, 1, 1, 2, 2, 2, 2, 3, 3, 3, 3, 4, 4, 4, 4, 5, 5, 5, 5, 0]

  const DISTC: seq<nat> :=
    [1, 2, 3, 4, 5, 7, 9, 13, 17, 25, 33, 49, 65, 97, 129, 193, 257, 385, 513, 769, 1025, 1537, 2049, 3073,
     4097, 6145, 8193, 12289, 16385, 24577, 32768]

  const DISTEB: seq<nat> :=
    [0, 0, 0, 0, 1, 1, 2, 2, 3, 3, 4, 4, 5, 5, 6, 6, 7, 7, 8, 8, 9, 9, 10, 10, 11, 11, 12, 12, 13, 13]

  /** The compressor's tables are those of section 3.2.5 of RFC 1951, each with one
      more entry that stops the search. */
  lemma TablesAgree()
    ensures |LENGTHC| == 30 && |LENGTHEB| == 29 && |DISTC| == 31 && |DISTEB| == 30
    ensures forall c :: 0 <= c < 29 ==> LENGTHC[c] == LengthBase(c) && LENGTHEB[c] == LengthExtra(c)
    ensures forall c :: 0 <= c < 30 ==> DISTC[c] == DistBase(c) && DISTEB[c] == DistExtra(c)
    ensures LENGTHC[29] == 259 && DISTC[30] == 32768
  {
    assert LENGTHC == LENGTH_BASE + [259];
    assert DISTC == DIST_BASE + [32768];
    assert LENGTHEB == LENGTH_EXTRA;
    assert DISTEB == DIST_EXTRA;
  }

  /** Reverses the low codebits bits of code. */
  method BitRev(code: nat, codebits: nat) returns (res: nat)
    ensures res < Pow2(codebits) && Lsb(res, codebits) == Msb(code, codebits)
  {
    hide Or, Lsb, Msb, Pow2;
    res := 0;
    var c, n := code, 0;
    assert Msb(code, codebits) == Msb(c, codebits) + Lsb(0, 0);
    assert 0 < Pow2(0);
    while n < codebits
      invariant n <= codebits && res < Pow2(n)
      invariant Msb(code, codebits) == Msb(c, codebits - n) + Lsb(res, n)
    {
      RevStep(c, codebits - n, res, n);
      res := Or(2 * res, c % 2);
      c := c / 2;
      n := n + 1;
    }
  }

  /** The last code bit becomes the first result bit. */
  lemma RevStep(c: nat, m: nat, res: nat, n: nat)
    requires m > 0 && res < Pow2(n)
    ensures Or(2 * res, c % 2) < Pow2(n + 1)
    ensures Msb(c, m) + Lsb(res, n) == Msb(c / 2, m - 1) + Lsb(Or(2 * res, c % 2), n + 1)
  {
    OrLow(res, c % 2);
    var r := 2 * res + c % 2;
    assert r / 2 == res && r % 2 == c % 2;
    assert Lsb(r, n + 1) == [c % 2 == 1] + Lsb(res, n);
    assert Msb(c, m) == Msb(c / 2, m - 1) + [c % 2 == 1];
    hide Or, Lsb, Msb;
    SeqAssoc(Msb(c / 2, m - 1), [c % 2 == 1], Lsb(res, n));
  }

  lemma OrLow(x: nat, b: nat)
    requires b < 2
    ensures Or(2 * x, b) == 2 * x + b
  {
    assert Or(x, 0) == x;
  }

  /** Sends one code of the fixed Huffman code, most significant bit first. */
  method HuffA(w: BitWriter, code: nat, codebits: nat)
    requires w.Valid() && codebits <= 24
    modifies w, w.out, w.out.data
    ensures w.Valid() && w.Written() == old(w.Written()) + Msb(code, codebits)
    ensures w.out.data == old(w.out.data) || fresh(w.out.data)
  {
    var r := BitRev(code, codebits);
    w.Add(r, codebits);
  }

  method Huff(w: BitWriter, n: nat)
    requires w.Valid() && n < 288
    modifies w, w.out, w.out.data
    ensures w.Valid() && w.Written() == old(w.Written()) + SymbolBits(n)
    ensures w.out.data == old(w.out.data) || fresh(w.out.data)
  {
    hide Msb;
    if n <= 143 {
      HuffA(w, 0x30 + n, 8);
    } else if n <= 255 {
      HuffA(w, 0x190 + n - 144, 9);
    } else if n <= 279 {
      HuffA(w, n - 256, 7);
    } else {
      HuffA(w, 0xc0 + n - 280, 8);
    }
  }

  /** The last length class not above a match length. */
  method LengthIndex(best: nat) returns (j: nat)
    requires 3 <= best <= 258
    ensures j == LengthClass(best, 0)
  {
    TablesAgree();
    hide LENGTHC, LengthBase;
    j := 0;
    while best > LENGTHC[j + 1] as int - 1
      invariant j < 29 && LengthBase(j) <= best
      invariant LengthClass(best, 0) == LengthClass(best, j)
      decreases 29 - j
    {
      j := j + 1;
    }
  }

  /** Sends a match length: its class, and the excess over the class's first length. */
  method PutLength(w: BitWriter, best: nat)
    requires w.Valid() && 3 <= best <= 258
    modifies w, w.out, w.out.data
    ensures w.Valid() && w.Written() == old(w.Written()) + LengthBits(best)
    ensures w.out.data == old(w.out.data) || fresh(w.out.data)
  {
    TablesAgree();
    hide LENGTHC, LENGTHEB, LengthBase, LengthExtra, LengthClass, SymbolBits, Lsb, Pow2;
    var j := LengthIndex(best);
    LengthExtraFits(best, j);
    Huff(w, j + 257);
    ghost var before := w.Written();
    if LENGTHEB[j] != 0 {
      w.Add(best - LENGTHC[j], LENGTHEB[j]);
    } else {
      assert before + Lsb(best - LengthBase(j), 0) == before;
    }
    SeqAssoc(old(w.Written()), SymbolBits(257 + j), Lsb(best - LengthBase(j), LengthExtra(j)));
  }

  /** The last distance class not above a distance. */
  method DistIndex(d: nat) returns (j: nat)
    requires 1 <= d <= 32767
    ensures j == DistClass(d, 0)
  {
    TablesAgree();
    hide DISTC, DistBase;
    j := 0;
    while d > DISTC[j + 1] as int - 1
      invariant j < 30 && DistBase(j) <= d
      invariant DistClass(d, 0) == DistClass(d, j)
      decreases 30 - j
    {
      j := j + 1;
    }
  }

  method PutDist(w: BitWriter, d: nat)
    requires w.Valid() && 1 <= d <= 32767
    modifies w, w.out, w.out.data
    ensures w.Valid() && w.Written() == old(w.Written()) + DistBits(d)
    ensures w.out.data == old(w.out.data) || fresh(w.out.data)
  {
    TablesAgree();
    hide DISTC, DISTEB, DistBase, DistExtra, DistClass, Lsb, Msb, Pow2;
    var j := DistIndex(d);
    DistExtraFits(d, j);
    HuffA(w, j, 5);
    ghost var before := w.Written();
    if DISTEB[j] != 0 {
      w.Add(d - DISTC[j], DISTEB[j]);
    } else {
      assert before + Lsb(d - DistBase(j), 0) == before;
    }
    SeqAssoc(old(w.Written()), Msb(j, 5), Lsb(d - DistBase(j), DistExtra(j)));
  }

  method PutMatch(w: BitWriter, best: nat, d: nat)
    requires w.Valid() && Encodable(Match(best, d))
    modifies w, w.out, w.out.data
    ensures w.Valid() && w.Written() == old(w.Written()) + TokenBits(Match(best, d))
    ensures w.out.data == old(w.out.data) || fresh(w.out.data)
  {
    hide LengthBits, DistBits;
    PutLength(w, best);
    PutDist(w, d);
    SeqAssoc(old(w.Written()), LengthBits(best), DistBits(d));
  }

  // ---- What the tokens say about the data ----

  /** Every match goes on for as long as the text recurs. */
  ghost predicate MatchesAreFull(ts: seq<Token>, data: seq<byte>) {
    ts != [] ==>
      MatchesAreFull(ts[..|ts| - 1], data) &&
      (ts[|ts| - 1].Match? ==>
         var prev := Expand(ts[..|ts| - 1]);
         prev.Some? && ts[|ts| - 1].dist <= |prev.value| <= |data| &&
         ts[|ts| - 1].len == MatchLen(data, |prev.value| - ts[|ts| - 1].dist, |prev.value|, 0))
  }

  /** ts stands for the first i bytes of data. */
  ghost predicate Covers(ts: seq<Token>, data: seq<byte>, i: nat) {
    i <= |data| && AllEncodable(ts) && Expand(ts) == Some(data[..i]) && MatchesAreFull(ts, data)
  }

  /** Where the tokens end, and where each of them starts. */
  function End(ts: seq<Token>): nat {
    if ts == [] then 0
    else
      var t := ts[|ts| - 1];
      End(ts[..|ts| - 1]) + if t.Match? then t.len else 1
  }

  function Starts(ts: seq<Token>): seq<nat> {
    if ts == [] then [] else Starts(ts[..|ts| - 1]) + [End(ts[..|ts| - 1])]
  }

  /** The token at i is the one the search sends, when the tokens before it started at the
      given positions and each start was recorded; the last three bytes are not searched. */
  ghost predicate Sent(data: seq<byte>, at: seq<nat>, i: nat, t: Token, quality: nat)
    requires quality > 0
  {
    if i + 3 < |data| then
      Positions(data, at) &&
      var chain := Recorded(data, at, Bucket(data, i), quality);
      var next := Recorded(data, at + [i], Bucket(data, i + 1), quality);
      if t.Match? then t.dist <= i && Sends(data, chain, next, i, t.len, i - t.dist)
      else Sends(data, chain, next, i, 0, -1)
    else t.Literal?
  }

  /** Every token is the one the search sends: this fixes the whole parse. */
  ghost predicate Parsed(ts: seq<Token>, data: seq<byte>, quality: nat)
    requires quality > 0
  {
    ts == [] ||
    (Parsed(ts[..|ts| - 1], data, quality) &&
     Sent(data, Starts(ts[..|ts| - 1]), End(ts[..|ts| - 1]), ts[|ts| - 1], quality))
  }

  lemma ParsedMore(ts: seq<Token>, data: seq<byte>, quality: nat, t: Token)
    requires quality > 0 && Parsed(ts, data, quality) && Sent(data, Starts(ts), End(ts), t, quality)
    ensures Parsed(ts + [t], data, quality) && Starts(ts + [t]) == Starts(ts) + [End(ts)]
    ensures End(ts + [t]) == End(ts) + if t.Match? then t.len else 1
  {
    hide Sent;
    assert (ts + [t])[..|ts|] == ts;
  }

  lemma CoversLiteral(ts: seq<Token>, data: seq<byte>, i: nat)
    requires Covers(ts, data, i) && i < |data|
    ensures Covers(ts + [Literal(data[i])], data, i + 1)
    ensures TokensBits(ts + [Literal(data[i])]) == TokensBits(ts) + SymbolBits(data[i])
  {
    hide SymbolBits;
    assert (ts + [Literal(data[i])])[..|ts|] == ts;
    assert data[..i] + [data[i]] == data[..i + 1];
  }

  lemma CoversMatch(ts: seq<Token>, data: seq<byte>, i: nat, loc: nat, best: nat)
    requires Covers(ts, data, i) && InWindow(loc, i) && 3 <= best == MatchLen(data, loc, i, 0)
    ensures Covers(ts + [Match(best, i - loc)], data, i + best)
    ensures TokensBits(ts + [Match(best, i - loc)]) == TokensBits(ts) + TokenBits(Match(best, i - loc))
  {
    hide TokenBits, MatchLen, Copy;
    assert (ts + [Match(best, i - loc)])[..|ts|] == ts;
    MatchLenExact(data, loc, i, 0);
    CopyRecurring(data, i, i - loc, best);
  }

  // ---- The compressor ----

  /** One round of the main loop: a match or a literal at i. */
  method PutToken(w: BitWriter, data: seq<byte>, table: array<seq<nat>>, i: nat, quality: nat, ghost ts: seq<Token>)
    returns (next: nat, ghost t: Token)
    requires w.Valid() && quality >= 5 && i + 3 < |data| && Covers(ts, data, i) && TableOk(table[..], i, quality)
    requires History(table[..], data, Starts(ts), quality)
    modifies w, w.out, w.out.data, table
    ensures w.Valid() && i < next && Covers(ts + [t], data, next) && TableOk(table[..], next, quality)
    ensures History(table[..], data, Starts(ts) + [i], quality) && Sent(data, Starts(ts), i, t, quality)
    ensures next == i + if t.Match? then t.len else 1
    ensures Encodable(t) && w.Written() == old(w.Written()) + TokenBits(t)
    ensures TokensBits(ts + [t]) == TokensBits(ts) + TokenBits(t)
    ensures w.out.data == old(w.out.data) || fresh(w.out.data)
  {
    hide MatchLen, SymbolBits, LengthBits, DistBits, Bucket, Covers, TokensBits, TableOk, Beaten, History, Sends, Sent;
    HistoryMore(table[..], data, Starts(ts), quality, i);
    ghost var before := table[..];
    var best, loc := FindMatch(data, i, table, quality);
    t := if loc >= 0 then Match(best, i - loc) else Literal(data[i]);
    SentHere(before, table[..], data, Starts(ts), i, best, loc, quality);
    if loc >= 0 {
      PutMatch(w, best, i - loc);
      CoversMatch(ts, data, i, loc, best);
      next := i + best;
      TableGrows(table[..], i + 1, next, quality);
    } else {
      Huff(w, data[i]);
      CoversLiteral(ts, data, i);
      next := i + 1;
    }
  }

  lemma MatchFound(data: seq<byte>, chain: seq<nat>, next: seq<nat>, i: nat, best: nat, loc: nat)
    requires i < |data| && Sends(data, chain, next, i, best, loc)
    ensures InWindow(loc, i) && 3 <= best == MatchLen(data, loc, i, 0)
  {
    hide MatchLen;
  }

  /** What the search sends is what the histories before and after say. */
  lemma SentHere(before: seq<seq<nat>>, after: seq<seq<nat>>, data: seq<byte>, at: seq<nat>, i: nat,
                 best: nat, loc: int, quality: nat)
    requires quality > 0 && i + 3 < |data|
    requires History(before, data, at, quality) && History(after, data, at + [i], quality)
    requires Sends(data, before[Bucket(data, i)], after[Bucket(data, i + 1)], i, best, loc)
    ensures Sent(data, at, i, if loc >= 0 then Match(best, i - loc) else Literal(data[i]), quality)
  {
    hide Bucket, MatchLen, Recorded;
    if loc >= 0 {
      MatchFound(data, before[Bucket(data, i)], after[Bucket(data, i + 1)], i, best, loc);
    }
    hide LastBest, Beaten;
  }

  /** The main loop: all of the data but fewer than four bytes. */
  method PutMatches(w: BitWriter, data: seq<byte>, quality: nat) returns (i: nat, ghost ts: seq<Token>)
    requires w.Valid() && quality >= 5
    modifies w, w.out, w.out.data
    ensures w.Valid() && Covers(ts, data, i) && |data| - 3 <= i
    ensures Parsed(ts, data, quality) && End(ts) == i
    ensures w.Written() == old(w.Written()) + TokensBits(ts)
    ensures w.out.data == old(w.out.data) || fresh(w.out.data)
  {
    hide TokenBits, MatchLen, Bucket, Expand, MatchesAreFull, AllEncodable, Sent, Recorded;
    var table := new seq<nat>[ZHASH](_ => []);
    i := 0;
    ts := Start(data);
    assert old(w.Written()) + [] == w.Written();
    assert History(table[..], data, Starts(ts), quality) && Parsed(ts, data, quality) by {
      Unrecorded(table[..], data, quality);
    }
    while i < |data| - 3
      invariant Covers(ts, data, i) && TableOk(table[..], i, quality)
      invariant History(table[..], data, Starts(ts), quality) && Parsed(ts, data, quality) && End(ts) == i
      invariant w.Valid() && w.Written() == old(w.Written()) + TokensBits(ts)
      invariant w.out.data == old(w.out.data) || fresh(w.out.data)
      decreases |data| - i
    {
      hide TokensBits, TableOk, History, Parsed, Starts, End;
      ghost var t;
      i, t := PutToken(w, data, table, i, quality, ts);
      SeqAssoc(old(w.Written()), TokensBits(ts), TokenBits(t));
      ParsedMore(ts, data, quality, t);
      ts := ts + [t];
    }
  }

  lemma Unrecorded(table: seq<seq<nat>>, data: seq<byte>, quality: nat)
    requires quality > 0 && |table| == ZHASH && forall h :: 0 <= h < ZHASH ==> table[h] == []
    ensures History(table, data, [], quality) && Starts([]) == [] && Parsed([], data, quality)
  {
  }

  /** The whole text: the main loop, then literals for what is left. */
  method PutTokens(w: BitWriter, data: seq<byte>, quality: nat) returns (ghost ts: seq<Token>)
    requires w.Valid() && quality >= 5
    modifies w, w.out, w.out.data
    ensures w.Valid() && Covers(ts, data, |data|) && Parsed(ts, data, quality)
    ensures w.Written() == old(w.Written()) + TokensBits(ts)
    ensures w.out.data == old(w.out.data) || fresh(w.out.data)
  {
    hide TokenBits, SymbolBits, Expand, MatchesAreFull, AllEncodable, TokensBits, Parsed, Starts, End;
    var i;
    i, ts := PutMatches(w, data, quality);
    while i < |data|
      invariant Covers(ts, data, i) && Parsed(ts, data, quality) && End(ts) == i && |data| - 3 <= i
      invariant w.Valid() && w.Written() == old(w.Written()) + TokensBits(ts)
      invariant w.out.data == old(w.out.data) || fresh(w.out.data)
    {
      Huff(w, data[i]);
      CoversLiteral(ts, data, i);
      LiteralBits(data[i]);
      SeqAssoc(old(w.Written()), TokensBits(ts), SymbolBits(data[i]));
      LiteralSent(data, Starts(ts), i, quality);
      ParsedMore(ts, data, quality, Literal(data[i]));
      ts := ts + [Literal(data[i])];
      i := i + 1;
    }
  }

  lemma LiteralSent(data: seq<byte>, at: seq<nat>, i: nat, quality: nat)
    requires quality > 0 && |data| - 3 <= i < |data|
    ensures Sent(data, at, i, Literal(data[i]), quality)
  {
  }

  lemma LiteralBits(b: byte)
    ensures TokenBits(Literal(b)) == SymbolBits(b)
  {
  }

  lemma Start(data: seq<byte>) returns (ts: seq<Token>)
    ensures ts == [] && Covers(ts, data, 0) && TokensBits(ts) == []
  {
    ts := [];
  }

  lemma TableGrows(table: seq<seq<nat>>, n: nat, m: nat, quality: nat)
    requires TableOk(table, n, quality) && n <= m
    ensures TableOk(table, m, quality)
  {
  }

  /** The raw fallback: overwrites everything after the header, in capacity already held. */
  method StoreRaw(out: ByteBuffer, data: seq<byte>)
    requires out.Valid() && out.count > StoredSize(|data|) + 2
    modifies out, out.data
    ensures out.Valid() && out.data == old(out.data)
    ensures out.Bytes() == old(out.Bytes()[..2]) + StoredBytes(data)
  {
    StoredBytesSize(data);
    out.count := 2;
    var j := 0;
    ghost var head := out.Bytes();
    assert head + StoredBytes(data[0..]) == head + StoredBytes(data) by { assert data[0..] == data; }
    while j < |data|
      invariant j <= |data| && out.Valid() && out.data == old(out.data)
      invariant out.Bytes() + StoredBytes(data[j..]) == head + StoredBytes(data)
      invariant |head| + |StoredBytes(data)| < out.data.Length
      decreases |data| - j
    {
      j := StoreBlock(out, data, j);
    }
    assert out.Bytes() + [] == out.Bytes();
  }

  /** One stored block: five header bytes, then a raw copy. */
  method StoreBlock(out: ByteBuffer, data: seq<byte>, j: nat) returns (next: nat)
    requires out.Valid() && j < |data| && out.count + |StoredBytes(data[j..])| < out.data.Length
    modifies out, out.data
    ensures out.Valid() && out.data == old(out.data) && j < next <= |data|
    ensures out.Bytes() + StoredBytes(data[next..]) == old(out.Bytes()) + StoredBytes(data[j..])
  {
    var blocklen := |data| - j;
    if blocklen > 32767 {
      blocklen := 32767;
    }
    StoredBytesAt(data, j, blocklen);
    hide StoredBytes, StoredHeader;
    ghost var head := StoredHeader(blocklen, |data| - j == blocklen);
    PushHeader(out, blocklen, |data| - j == blocklen);
    CopyRaw(out, data, j, blocklen);
    next := j + blocklen;
    Regroup3(old(out.Bytes()), head, data[j..next], StoredBytes(data[next..]));
  }

  lemma StoredBytesAt(data: seq<byte>, j: nat, n: nat)
    requires j < |data| && n == if |data| - j > 32767 then 32767 else |data| - j
    ensures StoredBytes(data[j..]) ==
            StoredHeader(n, |data| - j == n) + data[j..j + n] + StoredBytes(data[j + n..])
  {
    assert data[j..][..n] == data[j..j + n] && data[j..][n..] == data[j + n..];
  }

  method PushHeader(out: ByteBuffer, blocklen: nat, final: bool)
    requires out.Valid() && blocklen <= 32767 && out.count + 5 < out.data.Length
    modifies out, out.data
    ensures out.Valid() && out.data == old(out.data)
    ensures out.Bytes() == old(out.Bytes()) + StoredHeader(blocklen, final)
  {
    out.Push(if final then 1 else 0);
    out.Push(blocklen % 256);
    out.Push(blocklen / 256 % 256);
    out.Push(255 - blocklen % 256);
    out.Push(255 - blocklen / 256 % 256);
  }

  /** `memcpy(out + sbn(out), data + j, n); sbn(out) += n`. */
  method CopyRaw(out: ByteBuffer, data: seq<byte>, j: nat, n: nat)
    requires out.Valid() && j + n <= |data| && out.count + n < out.data.Length
    modifies out, out.data
    ensures out.Valid() && out.data == old(out.data)
    ensures out.Bytes() == old(out.Bytes()) + data[j..j + n]
  {
    forall k | 0 <= k < n {
      out.data[out.count + k] := data[j + k];
    }
    out.count := out.count + n;
  }

  method PadBit(w: BitWriter)
    requires w.Valid() && w.bitcount != 0
    modifies w, w.out, w.out.data
    ensures w.Valid() && w.bitcount == if old(w.bitcount) == 7 then 0 else old(w.bitcount) + 1
    ensures w.Written() == old(w.Written()) + [false]
    ensures w.out.data == old(w.out.data) || fresh(w.out.data)
  {
    assert Lsb(0, 1) == [false] && Pow2(1) == 2;
    w.Add(0, 1);
  }

  /** Ends the fixed block and fills the last byte with zero bits. */
  method Finish(w: BitWriter) returns (ghost pad: bits)
    requires w.Valid()
    modifies w, w.out, w.out.data
    ensures w.Valid() && w.bitcount == 0 && |pad| < 8 && pad == Repeat(false, |pad|)
    ensures w.Written() == old(w.Written()) + SymbolBits(256) + pad
    ensures w.out.data == old(w.out.data) || fresh(w.out.data)
  {
    hide SymbolBits, Lsb, Pow2;
    Huff(w, 256);
    pad := [];
    ghost var done := w.Written();
    assert done + [] == done;
    while w.bitcount != 0
      invariant w.Valid() && w.Written() == done + pad
      invariant |pad| < (if w.bitcount == 0 then 8 else w.bitcount) && pad == Repeat(false, |pad|)
      invariant w.out.data == old(w.out.data) || fresh(w.out.data)
      decreases if w.bitcount == 0 then 0 else 8 - w.bitcount
    {
      PadBit(w);
      SeqAssoc(done, pad, [false]);
      pad := pad + [false];
    }
  }

  /** stream is what the compressor makes of the data at an effort: ts is its parse, body
      the fixed-code form. */
  ghost predicate Compressed(data: seq<byte>, quality: int, stream: seq<byte>, ts: seq<Token>, body: seq<byte>) {
    // The tokens stand for the data, each match as long as the text recurs,
    Covers(ts, data, |data|) &&
    // and each is the one the search sends, with chains of at most twice the effort;
    Parsed(ts, data, if quality < 5 then 5 else quality) &&
    // body is the fixed-code form, filled to a byte with zero bits,
    |FixedBits(ts)| <= |ByteBits(body)| < |FixedBits(ts)| + 8 &&
    ByteBits(body) == FixedBits(ts) + Repeat(false, |ByteBits(body)| - |FixedBits(ts)|) &&
    // and the stream uses it unless stored blocks are smaller.
    stream == ZLIB_HEADER + (if |body| > StoredSize(|data|) then StoredBytes(data) else body) + AdlerBytes(data)
  }

  /** The whole stream: what a caller gets back. */
  method Compress(data: seq<byte>, quality: int)
    returns (stream: seq<byte>, ghost ts: seq<Token>, ghost body: seq<byte>)
    ensures Compressed(data, quality, stream, ts, body)
    ensures |stream| <= |data| + 2 + 5 * ((|data| + 32766) / 32767) + 4
    // Decoding gives the data back, except that no data gives no block at all.
    ensures Zlib(stream) == if |data| > 0 then Some(data) else None
  {
    hide Covers, Parsed, StoredBytes, AdlerBytes, ByteBits, FixedBits, Zlib, StoredSize;
    var out;
    ghost var pad;
    out, ts, body, pad := FixedForm(data, if quality < 5 then 5 else quality);
    Choose(out, data, body);
    PutAdler(out, data);
    stream := out.data[..out.count];
    StreamDecodes(data, ts, body, pad);
    StoredBytesSize(data);
    SizeBound(data);
  }

  lemma SizeBound(data: seq<byte>)
    ensures StoredSize(|data|) == |data| + 5 * ((|data| + 32766) / 32767) && |AdlerBytes(data)| == 4
  {
  }

  /** The header and the fixed-code form of the data. */
  method FixedForm(data: seq<byte>, quality: nat)
    returns (out: ByteBuffer, ghost ts: seq<Token>, ghost body: seq<byte>, ghost pad: bits)
    requires quality >= 5
    ensures fresh(out) && fresh(out.data) && out.Valid() && out.Bytes() == ZLIB_HEADER + body
    ensures Covers(ts, data, |data|) && Parsed(ts, data, quality)
    ensures ByteBits(body) == FixedBits(ts) + pad && |pad| < 8 && pad == Repeat(false, |pad|)
  {
    hide Covers, Parsed, ByteBits, FixedBits, Lsb;
    out := new ByteBuffer();
    out.Push(0x78);
    out.Push(0x5e);
    assert ByteBits([]) + Lsb(0, 0) == [] by { NoBits(); }
    var w := new BitWriter(out);
    ts, pad := PutFixed(w, data, quality);
    body := out.Bytes()[2..];
    assert w.header == ZLIB_HEADER && out.Bytes() == ZLIB_HEADER + body;
  }

  lemma NoBits()
    ensures ByteBits([]) + Lsb(0, 0) == []
  {
  }

  /** Keeps the fixed form unless stored blocks are smaller. */
  method Choose(out: ByteBuffer, data: seq<byte>, ghost body: seq<byte>)
    requires out.Valid() && out.Bytes() == ZLIB_HEADER + body
    modifies out, out.data
    ensures out.Valid() && out.data == old(out.data)
    ensures out.Bytes() == ZLIB_HEADER + if |body| > StoredSize(|data|) then StoredBytes(data) else body
  {
    hide StoredBytes;
    if out.count > |data| + 2 + (|data| + 32766) / 32767 * 5 {
      assert out.Bytes()[..2] == ZLIB_HEADER;
      StoreRaw(out, data);
    }
  }

  /** Block header, tokens, end of block and padding. */
  method PutFixed(w: BitWriter, data: seq<byte>, quality: nat) returns (ghost ts: seq<Token>, ghost pad: bits)
    requires w.Valid() && w.Written() == [] && quality >= 5
    modifies w, w.out, w.out.data
    ensures w.Valid() && w.bitcount == 0 && |pad| < 8 && pad == Repeat(false, |pad|)
    ensures Covers(ts, data, |data|) && Parsed(ts, data, quality)
    ensures ByteBits(w.out.Bytes()[|w.header|..]) == FixedBits(ts) + pad
    ensures w.out.data == old(w.out.data) || fresh(w.out.data)
  {
    assert Pow2(1) == 2 && Pow2(2) == 4;
    hide Lsb, Pow2, TokensBits, SymbolBits, Parsed, Covers;
    w.Add(1, 1);
    w.Add(1, 2);
    assert [] + Lsb(1, 1) == Lsb(1, 1);
    ts := PutTokens(w, data, quality);
    pad := Finish(w);
    ghost var bs := ByteBits(w.out.Bytes()[|w.header|..]);
    assert bs + [] == bs;
  }

  method PutAdler(out: ByteBuffer, data: seq<byte>)
    requires out.Valid()
    modifies out, out.data
    ensures out.Valid() && out.Bytes() == old(out.Bytes()) + AdlerBytes(data)
  {
    var s1, s2 := Adler.Sums(data);
    out.Push(s2 / 256 % 256);
    out.Push(s2 % 256);
    out.Push(s1 / 256 % 256);
    out.Push(s1 % 256);
  }

  lemma StreamDecodes(data: seq<byte>, ts: seq<Token>, body: seq<byte>, pad: bits)
    requires Covers(ts, data, |data|) && ByteBits(body) == FixedBits(ts) + pad && |pad| < 8
    ensures var chosen := if |body| > StoredSize(|data|) then StoredBytes(data) else body;
            Zlib(ZLIB_HEADER + chosen + AdlerBytes(data)) == if |data| > 0 then Some(data) else None
  {
    hide FixedBits, ByteBits, Zlib, AdlerBytes, Expand, MatchesAreFull;
    assert data[..|data|] == data;
    FixedStreamRoundTrip(ts, body, pad, data);
    if data == [] {
      EmptyIsStored(ts, body);
      EmptyStreamIsMalformed();
    } else {
      StoredStreamRoundTrip(data);
    }
  }

  /** The empty text still takes a block header and an end marker, two bytes. */
  lemma EmptyIsStored(ts: seq<Token>, body: seq<byte>)
    requires AllEncodable(ts) && |ByteBits(body)| >= |FixedBits(ts)|
    ensures |body| > StoredSize(0)
  {
    assert |FixedBits(ts)| >= 3;
  }
}
