/** Run-length coded TGA pictures, written through the 64-byte write buffer. */
module Tga {
  import opened Basics
  import opened Bits

  // ---- The write context ----

  /** The buffered writer; sent is what the callback has received. */
  class WriteContext {
    const buffer: array<byte>
    var used: nat
    var sent: seq<byte>

    ghost predicate Valid()
      reads this
    {
      buffer.Length == 64 && used <= 64
    }

    /** Everything written so far, sent or not. */
    ghost function Written(): seq<byte>
      requires Valid()
      reads this, buffer
    {
      sent + buffer[..used]
    }

    constructor ()
      ensures Valid() && fresh(buffer) && Written() == [] && used == 0
    {
      buffer := new byte[64];
      used, sent := 0, [];
    }

    /** `stbiw__write_flush`. */
    method Flush()
      requires Valid()
      modifies this
      ensures Valid() && used == 0 && Written() == old(Written()) == sent
    {
      if used > 0 {
        sent := sent + buffer[..used];
        used := 0;
      }
    }

    /** `stbiw__write1`. */
    method Write1(a: byte)
      requires Valid()
      modifies this, buffer
      ensures Valid() && Written() == old(Written()) + [a]
    {
      if used + 1 > 64 {
        Flush();
      }
      ghost var before := buffer[..used];
      buffer[used] := a;
      used := used + 1;
      assert buffer[..used] == before + [a];
    }

    /** `stbiw__write3`. */
    method Write3(a: byte, b: byte, c: byte)
      requires Valid()
      modifies this, buffer
      ensures Valid() && Written() == old(Written()) + [a, b, c]
    {
      if used + 3 > 64 {
        Flush();
      }
      ghost var before := buffer[..used];
      var n := used;
      used := n + 3;
      buffer[n] := a;
      buffer[n + 1] := b;
      buffer[n + 2] := c;
      assert buffer[..used] == before + [a, b, c];
    }

    /** `stbiw__write_pixel` as TGA calls it: colours in reverse, then alpha. */
    method WritePixel(d: Pixel)
      requires Valid() && 1 <= |d| <= 4
      modifies this, buffer
      ensures Valid() && Written() == old(Written()) + Stored(d)
    {
      var hasAlpha := |d| == 2 || |d| == 4;
      if |d| < 3 {
        Write1(d[0]);
      } else {
        Write3(d[2], d[1], d[0]);
      }
      if hasAlpha {
        Write1(d[|d| - 1]);
      }
    }
  }

  // ---- The format ----

  /** The components of one pixel: Y, YA, RGB or RGBA. */
  type Pixel = seq<byte>

  /** The file's order of components: red and blue exchanged. */
  function Stored(d: Pixel): (s: seq<byte>)
    ensures |s| == |d|
  {
    if |d| < 3 then d else [d[2], d[1], d[0]] + d[3..]
  }

  lemma StoredTwice(d: Pixel)
    ensures Stored(Stored(d)) == d
  {
  }

  datatype Read<+T> = Done(value: T, rest: seq<byte>) | Malformed

  /** n stored pixels of the given size. */
  function ReadRaw(s: seq<byte>, comp: nat, n: nat): (r: Read<seq<Pixel>>)
    requires 1 <= comp <= 4
    ensures r.Done? ==> |r.value| == n && |r.rest| <= |s|
    decreases n
  {
    if n == 0 then Done([], s)
    else if |s| < comp then Malformed
    else
      var r := ReadRaw(s[comp..], comp, n - 1);
      if r.Malformed? then r else Done([Stored(s[..comp])] + r.value, r.rest)
  }

  /** Reads a row of n pixels, acc of them read so far; no packet may cross the row's end.
      A header of 128 or more repeats one pixel header - 127 times; any other is followed
      by header + 1 pixels. */
  function ReadRow(s: seq<byte>, comp: nat, n: nat, acc: seq<Pixel>): (r: Read<seq<Pixel>>)
    requires 1 <= comp <= 4 && |acc| <= n
    ensures r.Done? ==> |r.value| == n
    decreases |s|
  {
    if |acc| == n then Done(acc, s)
    else if s == [] then Malformed
    else
      var len := if s[0] >= 128 then s[0] - 127 else s[0] + 1;
      var raw := ReadRaw(s[1..], comp, if s[0] >= 128 then 1 else len);
      if raw.Malformed? || |acc| + len > n then Malformed
      else if s[0] >= 128 then ReadRow(raw.rest, comp, n, acc + Repeat(raw.value[0], len))
      else ReadRow(raw.rest, comp, n, acc + raw.value)
  }

  /** The rows of a picture in file order. */
  function ReadRows(s: seq<byte>, comp: nat, n: nat, acc: seq<seq<Pixel>>, rows: nat): Read<seq<seq<Pixel>>>
    requires 1 <= comp <= 4
    decreases rows
  {
    if rows == 0 then Done(acc, s)
    else
      var r := ReadRow(s, comp, n, []);
      if r.Malformed? then Malformed else ReadRows(r.rest, comp, n, acc + [r.value], rows - 1)
  }

  // ---- Packets ----

  datatype Packet = Run(len: nat, pixel: Pixel) | Raw(pixels: seq<Pixel>)

  predicate Sized(d: Pixel, comp: nat) {
    |d| == comp
  }

  ghost predicate Ok(p: Packet, comp: nat) {
    match p
    case Run(len, d) => 1 <= len <= 128 && Sized(d, comp)
    case Raw(ds) => 1 <= |ds| <= 128 && forall d :: d in ds ==> Sized(d, comp)
  }

  function Plain(p: Packet): seq<Pixel> {
    match p
    case Run(len, d) => Repeat(d, len)
    case Raw(ds) => ds
  }

  ghost function StoredAll(ds: seq<Pixel>): seq<byte> {
    if ds == [] then [] else StoredAll(ds[..|ds| - 1]) + Stored(ds[|ds| - 1])
  }

  ghost function Coded(p: Packet, comp: nat): seq<byte>
    requires 1 <= comp <= 4 && Ok(p, comp)
  {
    match p
    case Run(len, d) => [len + 127] + Stored(d)
    case Raw(ds) => [|ds| - 1] + StoredAll(ds)
  }

  ghost predicate AllOk(ps: seq<Packet>, comp: nat) {
    forall p :: p in ps ==> Ok(p, comp)
  }

  ghost function Expand(ps: seq<Packet>): seq<Pixel> {
    if ps == [] then [] else Expand(ps[..|ps| - 1]) + Plain(ps[|ps| - 1])
  }

  ghost function Code(ps: seq<Packet>, comp: nat): seq<byte>
    requires 1 <= comp <= 4 && AllOk(ps, comp)
  {
    if ps == [] then [] else Code(ps[..|ps| - 1], comp) + Coded(ps[|ps| - 1], comp)
  }

  lemma {:induction false} StoredAllFront(d: Pixel, ds: seq<Pixel>)
    ensures StoredAll([d] + ds) == Stored(d) + StoredAll(ds)
    decreases |ds|
  {
    if ds == [] {
      assert ([d] + ds)[..0] == [];
    } else {
      var init := ds[..|ds| - 1];
      StoredAllFront(d, init);
      assert ([d] + ds)[..|ds|] == [d] + init;
      SeqAssoc(Stored(d), StoredAll(init), Stored(ds[|ds| - 1]));
    }
  }

  /** One stored pixel. */
  lemma ReadOne(d: Pixel, comp: nat, n: nat, rest: seq<byte>)
    requires 1 <= comp <= 4 && |d| == comp
    ensures ReadRaw(Stored(d) + rest, comp, n + 1) ==
            var r := ReadRaw(rest, comp, n);
            if r.Malformed? then r else Done([d] + r.value, r.rest)
  {
    hide Stored;
    TakeDrop(Stored(d), rest);
    StoredTwice(d);
  }

  lemma {:induction false} ReadStored(ds: seq<Pixel>, comp: nat, rest: seq<byte>)
    requires 1 <= comp <= 4 && forall d :: d in ds ==> |d| == comp
    ensures ReadRaw(StoredAll(ds) + rest, comp, |ds|) == Done(ds, rest)
    decreases |ds|
  {
    hide Stored, StoredAll, ReadRaw;
    if ds == [] {
      ReadNone(comp, rest);
    } else {
      var d, tail := ds[0], ds[1..];
      assert ds == [d] + tail && d in ds;
      ReadStored(tail, comp, rest);
      ReadFront(d, tail, comp, rest);
    }
  }

  lemma ReadNone(comp: nat, rest: seq<byte>)
    requires 1 <= comp <= 4
    ensures ReadRaw(StoredAll([]) + rest, comp, 0) == Done([], rest)
  {
    assert StoredAll([]) + rest == rest;
  }

  lemma ReadFront(d: Pixel, ds: seq<Pixel>, comp: nat, rest: seq<byte>)
    requires 1 <= comp <= 4 && |d| == comp && ReadRaw(StoredAll(ds) + rest, comp, |ds|) == Done(ds, rest)
    ensures ReadRaw(StoredAll([d] + ds) + rest, comp, |ds| + 1) == Done([d] + ds, rest)
  {
    hide Stored, StoredAll, ReadRaw;
    StoredAllFront(d, ds);
    SeqAssoc(Stored(d), StoredAll(ds), rest);
    ReadOne(d, comp, |ds|, StoredAll(ds) + rest);
  }

  lemma ReadPacket(p: Packet, comp: nat, rest: seq<byte>, n: nat, acc: seq<Pixel>)
    requires 1 <= comp <= 4 && Ok(p, comp) && |acc| + |Plain(p)| <= n
    ensures ReadRow(Coded(p, comp) + rest, comp, n, acc) == ReadRow(rest, comp, n, acc + Plain(p))
  {
    match p
    case Run(len, d) => ReadRunPacket(len, d, comp, rest, n, acc);
    case Raw(ds) => ReadRawPacket(ds, comp, rest, n, acc);
  }

  lemma ReadRunPacket(len: nat, d: Pixel, comp: nat, rest: seq<byte>, n: nat, acc: seq<Pixel>)
    requires 1 <= comp <= 4 && 1 <= len <= 128 && |d| == comp && |acc| + len <= n
    ensures ReadRow([len + 127] + Stored(d) + rest, comp, n, acc) == ReadRow(rest, comp, n, acc + Repeat(d, len))
  {
    hide Stored, StoredAll, ReadRaw;
    var s := [len + 127] + Stored(d) + rest;
    assert s[1..] == Stored(d) + rest && s[0] == len + 127;
    OnePixel(d);
    ReadStored([d], comp, rest);
  }

  lemma ReadRawPacket(ds: seq<Pixel>, comp: nat, rest: seq<byte>, n: nat, acc: seq<Pixel>)
    requires 1 <= comp <= 4 && 1 <= |ds| <= 128 && (forall d :: d in ds ==> |d| == comp) && |acc| + |ds| <= n
    ensures ReadRow([|ds| - 1] + StoredAll(ds) + rest, comp, n, acc) == ReadRow(rest, comp, n, acc + ds)
  {
    hide Stored, StoredAll, ReadRaw;
    var s := [|ds| - 1] + StoredAll(ds) + rest;
    assert s[1..] == StoredAll(ds) + rest && s[0] == |ds| - 1;
    ReadStored(ds, comp, rest);
  }

  lemma OnePixel(d: Pixel)
    ensures StoredAll([d]) == Stored(d)
  {
    assert [d][..0] == [];
  }

  /** Reading the code of packets gives their pixels. */
  lemma {:induction false} ReadPackets(ps: seq<Packet>, comp: nat, rest: seq<byte>, n: nat)
    requires 1 <= comp <= 4 && AllOk(ps, comp) && |Expand(ps)| <= n
    ensures ReadRow(Code(ps, comp) + rest, comp, n, []) == ReadRow(rest, comp, n, Expand(ps))
    decreases |ps|
  {
    hide ReadRow, Coded, Plain, Ok;
    if ps == [] {
      assert Code(ps, comp) + rest == rest;
    } else {
      var init, p := ps[..|ps| - 1], ps[|ps| - 1];
      assert AllOk(init, comp);
      ReadPackets(init, comp, Coded(p, comp) + rest, n);
      SeqAssoc(Code(init, comp), Coded(p, comp), rest);
      ReadPacket(p, comp, rest, n, Expand(init));
    }
  }

  // ---- The encoder ----

  ghost predicate RowOk(row: seq<Pixel>, comp: nat) {
    forall d :: d in row ==> Sized(d, comp)
  }

  /** The packets tile the first i pixels of the row. */
  ghost predicate Tiles(ps: seq<Packet>, row: seq<Pixel>, comp: nat, i: nat) {
    i <= |row| && AllOk(ps, comp) && Expand(ps) == row[..i]
  }

  lemma TilesMore(ps: seq<Packet>, row: seq<Pixel>, comp: nat, i: nat, p: Packet, j: nat)
    requires 1 <= comp <= 4 && Tiles(ps, row, comp, i) && Ok(p, comp) && i <= j <= |row| && Plain(p) == row[i..j]
    ensures AllOk(ps + [p], comp)
    ensures Tiles(ps + [p], row, comp, j) && Code(ps + [p], comp) == Code(ps, comp) + Coded(p, comp)
  {
    hide Ok, Coded, Plain;
    var qs := ps + [p];
    assert qs[..|qs| - 1] == ps;
    assert row[..i] + row[i..j] == row[..j];
  }

  /** The scan's packet at i. It is a run exactly when the next pixel is equal, as long as it
      lasts. A raw packet goes on while each pixel differs from the one two before it, and gives
      the last one back when it meets one that does not. Both are cut at 128 and at the end. */
  ghost predicate Belongs(row: seq<Pixel>, i: nat, len: nat, diff: bool) {
    1 <= len <= 128 && i + len <= |row| &&
    (diff <==> i + 1 == |row| || row[i] != row[i + 1]) &&
    if diff then
      Alternates(row, i + 2, i + len) &&
      (len == 128 || i + len == |row| ||
       (len < 127 && i + len + 1 < |row| && Alternates(row, i + 2, i + len + 1) &&
        row[i + len + 1] == row[i + len - 1]))
    else
      (forall k :: i <= k < i + len ==> row[k] == row[i]) &&
      (len == 128 || i + len == |row| || row[i + len] != row[i])
  }

  /** Pixels lo..hi - 1 differ from those two before them. */
  ghost predicate Alternates(row: seq<Pixel>, lo: nat, hi: nat)
    requires 2 <= lo && hi <= |row|
  {
    forall k :: lo <= k < hi ==> row[k] != row[k - 2]
  }

  /** Length of the next packet and whether it is raw. */
  method Scan(row: seq<Pixel>, i: nat) returns (len: nat, diff: bool)
    requires i < |row|
    ensures Belongs(row, i, len, diff) && (!diff ==> len >= 2)
  {
    len, diff := 1, true;
    if i < |row| - 1 {
      len := 2;
      diff := row[i] != row[i + 1];
      var k := i + 2;
      if diff {
        var prev := i;
        while k < |row| && len < 128
          invariant 2 <= len <= 128 && k == i + len <= |row| && prev == k - 2 && Alternates(row, i + 2, k)
          decreases |row| - k
        {
          if row[prev] != row[k] {
            prev := prev + 1;
            len := len + 1;
          } else {
            len := len - 1;
            break;
          }
          k := k + 1;
        }
      } else {
        while k < |row| && len < 128
          invariant 2 <= len <= 128 && k == i + len <= |row|
          invariant forall m :: i <= m < k ==> row[m] == row[i]
          decreases |row| - k
        {
          if row[i] == row[k] {
            len := len + 1;
          } else {
            break;
          }
          k := k + 1;
        }
      }
    }
  }

  /** Every packet is the scan's where it stands: this fixes the whole coding of a row. */
  ghost predicate Chosen(ps: seq<Packet>, row: seq<Pixel>) {
    ps == [] ||
    var init, p := ps[..|ps| - 1], ps[|ps| - 1];
    Chosen(init, row) && Belongs(row, |Expand(init)|, |Plain(p)|, p.Raw?)
  }

  lemma ChosenMore(ps: seq<Packet>, row: seq<Pixel>, comp: nat, i: nat, p: Packet)
    requires Tiles(ps, row, comp, i) && Chosen(ps, row) && Belongs(row, i, |Plain(p)|, p.Raw?)
    ensures Chosen(ps + [p], row)
  {
    hide Belongs, Expand, AllOk, Plain;
    assert (ps + [p])[..|ps|] == ps;
  }

  /** One row: packets within the format's lengths, none crossing the row's end. */
  method WriteRow(ctx: WriteContext, row: seq<Pixel>, comp: nat) returns (ghost ps: seq<Packet>)
    requires ctx.Valid() && 1 <= comp <= 4 && RowOk(row, comp)
    modifies ctx, ctx.buffer
    ensures ctx.Valid() && Tiles(ps, row, comp, |row|) && ctx.Written() == old(ctx.Written()) + Code(ps, comp)
    ensures Chosen(ps, row)
  {
    hide AllOk, Ok, Expand, Coded, Belongs;
    ps := [];
    NoPackets(row, comp);
    assert Chosen(ps, row);
    hide Tiles, Code, Chosen;
    var i := 0;
    while i < |row|
      invariant ctx.Valid() && i <= |row| && Tiles(ps, row, comp, i) && AllOk(ps, comp) && Chosen(ps, row)
      invariant ctx.Written() == old(ctx.Written()) + Code(ps, comp)
    {
      ghost var p;
      i, p := WriteNext(ctx, row, comp, i, ps);
      SeqAssoc(old(ctx.Written()), Code(ps, comp), Coded(p, comp));
      ps := ps + [p];
      TilesOk(ps, row, comp, i);
    }
  }

  /** The next packet of a row. */
  method WriteNext(ctx: WriteContext, row: seq<Pixel>, comp: nat, i: nat, ghost ps: seq<Packet>)
    returns (j: nat, ghost p: Packet)
    requires ctx.Valid() && 1 <= comp <= 4 && RowOk(row, comp) && i < |row| && Tiles(ps, row, comp, i)
    requires Chosen(ps, row)
    modifies ctx, ctx.buffer
    ensures ctx.Valid() && i < j <= |row| && Ok(p, comp) && ctx.Written() == old(ctx.Written()) + Coded(p, comp)
    ensures AllOk(ps, comp) && Tiles(ps + [p], row, comp, j) && Chosen(ps + [p], row)
    ensures AllOk(ps + [p], comp) && Code(ps + [p], comp) == Code(ps, comp) + Coded(p, comp)
  {
    hide AllOk, Ok, Expand, Coded, Code, RowOk, Plain, Tiles, Chosen, Belongs;
    var len, diff := Scan(row, i);
    BelongsIs(row, i, len, diff);
    TilesOk(ps, row, comp, i);
    PacketOk(row, comp, i, len, diff);
    p := if diff then Raw(row[i..i + len]) else Run(len, row[i]);
    WritePacket(ctx, row[i..i + len], comp, len, diff);
    TilesMore(ps, row, comp, i, p, i + len);
    assert |Plain(p)| == len;
    ChosenMore(ps, row, comp, i, p);
    j := i + len;
  }

  lemma BelongsIs(row: seq<Pixel>, i: nat, len: nat, diff: bool)
    requires Belongs(row, i, len, diff)
    ensures 1 <= len <= 128 && i + len <= |row| && (!diff ==> forall k :: i <= k < i + len ==> row[k] == row[i])
  {
  }

  lemma NoPackets(row: seq<Pixel>, comp: nat)
    requires 1 <= comp <= 4
    ensures Tiles([], row, comp, 0) && AllOk([], comp) && Code([], comp) == []
  {
  }

  lemma TilesOk(ps: seq<Packet>, row: seq<Pixel>, comp: nat, i: nat)
    requires Tiles(ps, row, comp, i)
    ensures AllOk(ps, comp)
  {
  }

  lemma PacketOk(row: seq<Pixel>, comp: nat, i: nat, len: nat, diff: bool)
    requires RowOk(row, comp) && 1 <= len <= 128 && i + len <= |row|
    requires !diff ==> forall k :: i <= k < i + len ==> row[k] == row[i]
    ensures Ok(if diff then Raw(row[i..i + len]) else Run(len, row[i]), comp)
    ensures Plain(if diff then Raw(row[i..i + len]) else Run(len, row[i])) == row[i..i + len]
  {
    assert row[i] in row;
  }

  /** The pixels of a raw packet. */
  method WritePixels(ctx: WriteContext, ds: seq<Pixel>)
    requires ctx.Valid() && forall k :: 0 <= k < |ds| ==> 1 <= |ds[k]| <= 4
    modifies ctx, ctx.buffer
    ensures ctx.Valid() && ctx.Written() == old(ctx.Written()) + StoredAll(ds)
  {
    hide Stored;
    assert ds[..0] == [];
    for k := 0 to |ds|
      invariant ctx.Valid() && ctx.Written() == old(ctx.Written()) + StoredAll(ds[..k])
    {
      ctx.WritePixel(ds[k]);
      assert ds[..k + 1][..k] == ds[..k];
      SeqAssoc(old(ctx.Written()), StoredAll(ds[..k]), Stored(ds[k]));
    }
    assert ds[..|ds|] == ds;
  }

  method WritePacket(ctx: WriteContext, begin: seq<Pixel>, comp: nat, len: nat, diff: bool)
    requires ctx.Valid() && 1 <= comp <= 4 && 1 <= len <= 128 && |begin| == len && (!diff ==> len >= 2)
    requires Ok(if diff then Raw(begin) else Run(len, begin[0]), comp)
    modifies ctx, ctx.buffer
    ensures ctx.Valid()
    ensures ctx.Written() == old(ctx.Written()) + Coded(if diff then Raw(begin) else Run(len, begin[0]), comp)
  {
    hide Stored, StoredAll;
    if diff {
      ctx.Write1(len - 1);
      assert forall k :: 0 <= k < |begin| ==> begin[k] in begin && Sized(begin[k], comp);
      WritePixels(ctx, begin);
      SeqAssoc(old(ctx.Written()), [len - 1], StoredAll(begin));
    } else {
      ctx.Write1(UChar(len - 129));
      ctx.WritePixel(begin[0]);
      SeqAssoc(old(ctx.Written()), [len + 127], Stored(begin[0]));
    }
  }

  /** C's conversion of an int to an unsigned char. */
  function UChar(x: int): (b: byte)
    ensures 2 - 129 <= x < 0 ==> b == x + 256
  {
    x % 256
  }

  /** The file stores the rows bottom first unless the writer flips the picture. */
  function FileOrder(rows: seq<seq<Pixel>>, flip: bool): (r: seq<seq<Pixel>>)
    ensures |r| == |rows|
  {
    if flip then rows else Reversed(rows)
  }

  /** code reads as the rows, whatever follows. */
  ghost predicate Reads(code: seq<byte>, comp: nat, x: nat, rows: seq<seq<Pixel>>)
    requires 1 <= comp <= 4
  {
    forall rest, n: nat :: n >= |rows| ==>
      ReadRows(code + rest, comp, x, [], n) == ReadRows(rest, comp, x, rows, n - |rows|)
  }

  lemma ReadsMore(code: seq<byte>, comp: nat, x: nat, rows: seq<seq<Pixel>>, row: seq<Pixel>, ps: seq<Packet>)
    requires 1 <= comp <= 4 && Reads(code, comp, x, rows) && |row| == x && Tiles(ps, row, comp, x)
    ensures Reads(code + Code(ps, comp), comp, x, rows + [row])
  {
    hide ReadRow, Code, AllOk, Expand;
    forall rest: seq<byte>, n: nat | n >= |rows| + 1
      ensures ReadRows(code + Code(ps, comp) + rest, comp, x, [], n) ==
                ReadRows(rest, comp, x, rows + [row], n - |rows| - 1)
    {
      SeqAssoc(code, Code(ps, comp), rest);
      ReadPackets(ps, comp, rest, x);
      assert row[..x] == row;
      assert ReadRow(rest, comp, x, row) == Done(row, rest) by { FullRow(rest, comp, x, row); }
    }
  }

  lemma FullRow(rest: seq<byte>, comp: nat, x: nat, row: seq<Pixel>)
    requires 1 <= comp <= 4 && |row| == x
    ensures ReadRow(rest, comp, x, row) == Done(row, rest)
  {
  }

  /** code is the coding of the row by the scan's packets. */
  ghost predicate Coding(row: seq<Pixel>, comp: nat, code: seq<byte>)
    requires 1 <= comp <= 4
  {
    exists ps :: Tiles(ps, row, comp, |row|) && Chosen(ps, row) && AllOk(ps, comp) && code == Code(ps, comp)
  }

  function Joined(codes: seq<seq<byte>>): seq<byte> {
    if codes == [] then [] else Joined(codes[..|codes| - 1]) + codes[|codes| - 1]
  }

  /** code is the codings of the rows, joined. */
  ghost predicate RowsCoded(rows: seq<seq<Pixel>>, comp: nat, code: seq<byte>, codes: seq<seq<byte>>)
    requires 1 <= comp <= 4
  {
    |codes| == |rows| && code == Joined(codes) && forall k :: 0 <= k < |rows| ==> Coding(rows[k], comp, codes[k])
  }

  lemma RowsCodedMore(rows: seq<seq<Pixel>>, comp: nat, code: seq<byte>, codes: seq<seq<byte>>,
                      row: seq<Pixel>, ps: seq<Packet>)
    requires 1 <= comp <= 4 && RowsCoded(rows, comp, code, codes)
    requires Tiles(ps, row, comp, |row|) && Chosen(ps, row) && AllOk(ps, comp)
    ensures RowsCoded(rows + [row], comp, code + Code(ps, comp), codes + [Code(ps, comp)])
  {
    hide Tiles, Chosen, AllOk, Code;
    assert (codes + [Code(ps, comp)])[..|codes|] == codes;
    assert Coding(row, comp, Code(ps, comp));
  }

  /** The run-length branch of `stbi_write_tga_core` after its header: everything reaches
      the callback, and reading it gives back the rows in file order. */
  method WritePicture(ctx: WriteContext, rows: seq<seq<Pixel>>, x: nat, comp: nat, flip: bool)
    returns (ghost code: seq<byte>, ghost codes: seq<seq<byte>>)
    requires ctx.Valid() && 1 <= comp <= 4
    requires forall j :: 0 <= j < |rows| ==> |rows[j]| == x && RowOk(rows[j], comp)
    modifies ctx, ctx.buffer
    ensures ctx.Valid() && ctx.sent == old(ctx.Written()) + code && ctx.used == 0
    ensures RowsCoded(FileOrder(rows, flip), comp, code, codes)
    ensures forall rest :: ReadRows(code + rest, comp, x, [], |rows|) == Done(FileOrder(rows, flip), rest)
  {
    hide RowOk, Tiles, Code, Coding, Chosen, AllOk;
    code, codes := [], [];
    var j, jend, jdir := if flip then 0 else |rows| - 1, if flip then |rows| else -1, if flip then 1 else -1;
    ghost var n := 0;
    ghost var done: seq<seq<Pixel>> := [];
    assert Reads(code, comp, x, []) by { NoRows(comp, x); }
    assert RowsCoded(done, comp, code, codes);
    hide Reads, RowsCoded, Joined;
    while j != jend
      invariant ctx.Valid() && 0 <= n <= |rows| && j == if flip then n else |rows| - 1 - n
      invariant done == FileOrder(rows, flip)[..n]
      invariant ctx.Written() == old(ctx.Written()) + code
      invariant RowsCoded(done, comp, code, codes) && Reads(code, comp, x, done)
      decreases |rows| - n
    {
      ghost var ps := WriteRow(ctx, rows[j], comp);
      TilesOk(ps, rows[j], comp, x);
      ReadsMore(code, comp, x, done, rows[j], ps);
      RowsCodedMore(done, comp, code, codes, rows[j], ps);
      SeqAssoc(old(ctx.Written()), code, Code(ps, comp));
      code, codes, done := code + Code(ps, comp), codes + [Code(ps, comp)], done + [rows[j]];
      n := n + 1;
      j := j + jdir;
    }
    ctx.Flush();
    assert FileOrder(rows, flip)[..|rows|] == FileOrder(rows, flip);
    AllRead(code, comp, x, FileOrder(rows, flip));
  }

  lemma NoRows(comp: nat, x: nat)
    requires 1 <= comp <= 4
    ensures Reads([], comp, x, [])
  {
    forall rest: seq<byte>, n: nat
      ensures ReadRows([] + rest, comp, x, [], n) == ReadRows(rest, comp, x, [], n)
    {
      assert [] + rest == rest;
    }
  }

  lemma AllRead(code: seq<byte>, comp: nat, x: nat, rows: seq<seq<Pixel>>)
    requires 1 <= comp <= 4 && Reads(code, comp, x, rows)
    ensures forall rest :: ReadRows(code + rest, comp, x, [], |rows|) == Done(rows, rest)
  {
    forall rest: seq<byte>
      ensures ReadRows(code + rest, comp, x, [], |rows|) == Done(rows, rest)
    {
      assert ReadRows(code + rest, comp, x, [], |rows|) == ReadRows(rest, comp, x, rows, |rows| - |rows|);
    }
  }
}
