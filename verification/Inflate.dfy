/** The reference decoder: RFC 1950 (zlib), RFC 1951 (DEFLATE). */
module Inflate {
  import opened Bits

  /** The outcome of reading a number, a match or a run of text: what was read and
      the unread bits. */
  datatype Numeral = NoNumber | Number(v: nat, rest: bits)
  datatype MatchRead = NoMatch | MatchOf(t: Token, rest: bits)
  datatype Decoded = Malformed | Text(out: seq<byte>, rest: bits)

  // ---- LZ77 ----

  /** What a DEFLATE block says between its header and its end marker. */
  datatype Token = Literal(b: byte) | Match(len: nat, dist: nat)

  /** "Move backwards dist bytes and copy len bytes"; the copy may overlap what
      it produces (section 3.2.3 of RFC 1951). */
  function Copy(out: seq<byte>, dist: nat, len: nat): (r: seq<byte>)
    requires 1 <= dist <= |out|
    ensures |r| == |out| + len
    decreases len
  {
    if len == 0 then out else Copy(out + [out[|out| - dist]], dist, len - 1)
  }

  predicate Applies(t: Token, out: seq<byte>) {
    t.Literal? || 1 <= t.dist <= |out|
  }

  function Apply(t: Token, out: seq<byte>): seq<byte>
    requires Applies(t, out)
  {
    match t
    case Literal(b) => out + [b]
    case Match(len, dist) => Copy(out, dist, len)
  }

  // ---- Fixed Huffman codes (section 3.2.6 of RFC 1951) ----

  /** Reads one literal/length symbol, most significant code bit first. */
  function ReadSymbol(s: bits): (r: Numeral)
    ensures r.Number? ==> |r.rest| < |s|
  {
    if |s| < 7 then NoNumber
    else if FromMsb(s[..7]) < 24 then Number(256 + FromMsb(s[..7]), s[7..])
    else if |s| < 8 then NoNumber
    else
      var v := FromMsb(s[..8]);
      if 48 <= v < 192 then Number(v - 48, s[8..])
      else if 192 <= v < 200 then Number(280 + v - 192, s[8..])
      else if |s| < 9 then NoNumber
      else
        var w := FromMsb(s[..9]);
        if 400 <= w < 512 then Number(144 + w - 400, s[9..]) else NoNumber
  }

  // ---- Length and distance codes (section 3.2.5 of RFC 1951) ----

  const LENGTH_BASE: seq<nat> :=
    [3, 4, 5, 6, 7, 8, 9, 10, 11, 13, 15, 17, 19, 23, 27, 31, 35, 43, 51, 59, 67, 83, 99, 115, 131, 163, 195, 227, 258]

  const LENGTH_EXTRA: seq<nat> :=
    [0, 0, 0, 0, 0, 0, 0, 0, 1, 1, 1, 1, 2, 2, 2, 2, 3, 3, 3, 3, 4, 4, 4, 4, 5, 5, 5, 5, 0]

  const DIST_BASE: seq<nat> :=
    [1, 2, 3, 4, 5, 7, 9, 13, 17, 25, 33, 49, 65, 97, 129, 193, 257, 385, 513, 769, 1025, 1537, 2049, 3073,
     4097, 6145, 8193, 12289, 16385, 24577]

  const DIST_EXTRA: seq<nat> :=
    [0, 0, 0, 0, 1, 1, 2, 2, 3, 3, 4, 4, 5, 5, 6, 6, 7, 7, 8, 8, 9, 9, 10, 10, 11, 11, 12, 12, 13, 13]

  function LengthBase(c: nat): (r: nat)
    requires c < 29
    ensures c == 0 ==> r == 3
  {
    LENGTH_BASE[c]
  }

  function LengthExtra(c: nat): nat
    requires c < 29
  {
    LENGTH_EXTRA[c]
  }

  function DistBase(c: nat): (r: nat)
    requires c < 30
    ensures c == 0 ==> r == 1
  {
    DIST_BASE[c]
  }

  function DistExtra(c: nat): nat
    requires c < 30
  {
    DIST_EXTRA[c]
  }

  /** Reads an n-bit number, least significant bit first. */
  function ReadNumber(s: bits, n: nat): (r: Numeral)
    ensures r.Number? ==> |r.rest| <= |s|
  {
    if |s| < n then NoNumber else Number(FromLsb(s[..n]), s[n..])
  }

  /** The match whose length symbol is sym; s follows that symbol. */
  function ReadMatch(sym: nat, s: bits): (r: MatchRead)
    requires 257 <= sym
    ensures r.MatchOf? ==> |r.rest| <= |s|
  {
    if sym - 257 >= 29 then NoMatch
    else
      match ReadNumber(s, LengthExtra(sym - 257))
      case NoNumber => NoMatch
      case Number(e, s1) =>
        if |s1| < 5 || FromMsb(s1[..5]) >= 30 then NoMatch
        else
          var d := FromMsb(s1[..5]);
          match ReadNumber(s1[5..], DistExtra(d))
          case NoNumber => NoMatch
          case Number(f, s2) => MatchOf(Match(LengthBase(sym - 257) + e, DistBase(d) + f), s2)
  }

  // ---- Blocks (section 3.2.3 and 3.2.4 of RFC 1951) ----

  /** Decodes a fixed-Huffman block up to and including its end marker. */
  function FixedBlock(s: bits, out: seq<byte>): (r: Decoded)
    ensures r.Text? ==> |r.rest| < |s|
    decreases |s|
  {
    match ReadSymbol(s)
    case NoNumber => Malformed
    case Number(sym, s1) =>
      if sym < 256 then FixedBlock(s1, out + [sym])
      else if sym == 256 then Text(out, s1)
      else
        match ReadMatch(sym, s1)
        case NoMatch => Malformed
        case MatchOf(t, s2) =>
          if !Applies(t, out) then Malformed else FixedBlock(s2, Apply(t, out))
  }

  /** Skips to the next byte boundary of a stream whose end is on one. */
  function Align(s: bits): (r: bits)
    ensures |r| <= |s|
  {
    s[|s| % 8..]
  }

  function FirstByte(s: bits): byte
    requires |s| >= 8
  {
    assert Pow2(8) == 256;
    FromLsb(s[..8])
  }

  /** Appends n bytes read from s to out. */
  function ReadBytes(s: bits, n: nat, out: seq<byte>): (r: Decoded)
    ensures r.Text? ==> |r.rest| <= |s|
    decreases n
  {
    if n == 0 then Text(out, s)
    else if |s| < 8 then Malformed
    else ReadBytes(s[8..], n - 1, out + [FirstByte(s)])
  }

  /** LEN, its one's complement NLEN, then LEN bytes. */
  function StoredBlock(s: bits, out: seq<byte>): (r: Decoded)
    ensures r.Text? ==> |r.rest| <= |s|
  {
    var a := Align(s);
    if |a| < 32 then Malformed
    else
      var len, nlen := FromLsb(a[..16]), FromLsb(a[16..32]);
      if len + nlen != 65535 then Malformed else ReadBytes(a[32..], len, out)
  }

  /** Decodes blocks until one is marked final; dynamic-Huffman blocks are not part
      of this decoder. */
  function Blocks(s: bits, out: seq<byte>): Decoded
    decreases |s|
  {
    if |s| < 3 then Malformed
    else
      var btype := FromLsb(s[1..3]);
      var r :=
        if btype == 0 then StoredBlock(s[3..], out)
        else if btype == 1 then FixedBlock(s[3..], out)
        else Malformed;
      if r.Malformed? || s[0] then r else Blocks(r.rest, r.out)
  }

  // ---- zlib container (sections 2.2, 2.3 and 8.2 of RFC 1950) ----

  /** The two sums of Adler-32, one byte at a time. */
  function AdlerSums(data: seq<byte>): (nat, nat) {
    if data == [] then (1, 0)
    else
      var (a, b) := AdlerSums(data[..|data| - 1]);
      var a1 := (a + data[|data| - 1]) % 65521;
      (a1, (b + a1) % 65521)
  }

  /** s2 * 65536 + s1, most significant byte first. */
  function AdlerBytes(data: seq<byte>): (r: seq<byte>)
    ensures |r| == 4
  {
    var (a, b) := AdlerSums(data);
    [b / 256 % 256, b % 256, a / 256 % 256, a % 256]
  }

  /** CM = 8, CINFO <= 7, FDICT = 0 and a correct FCHECK. */
  predicate HeaderOk(cmf: byte, flg: byte) {
    cmf % 16 == 8 && cmf / 16 <= 7 && flg / 32 % 2 == 0 && (cmf as int * 256 + flg) % 31 == 0
  }

  /** The content of a zlib stream, or None when it is malformed. */
  function Zlib(stream: seq<byte>): Option<seq<byte>> {
    if |stream| < 2 || !HeaderOk(stream[0], stream[1]) then None
    else
      match Blocks(ByteBits(stream[2..]), [])
      case Malformed => None
      case Text(data, rest) => if Align(rest) == ByteBits(AdlerBytes(data)) then Some(data) else None
  }
}
