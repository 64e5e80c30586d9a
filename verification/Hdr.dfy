/** Run-length coded scanlines of Radiance HDR pictures. */
module Hdr {
  import opened Basics
  import opened Bits

  // ---- The format ----

  datatype Pixel = Pixel(r: byte, g: byte, b: byte, e: byte)

  datatype Read<+T> = Done(value: T, rest: seq<byte>) | Malformed

  /** Reads a plane of n bytes, acc of them read so far: a code above 128 is a run of
      code - 128 copies of the next byte, any other a dump of that many bytes. */
  function ReadPlane(s: seq<byte>, n: nat, acc: seq<byte>): Read<seq<byte>>
    requires |acc| <= n
    decreases |s|
  {
    if |acc| == n then Done(acc, s)
    else if |s| < 2 || s[0] == 0 then Malformed
    else if s[0] > 128 then
      if |acc| + (s[0] - 128) > n then Malformed
      else ReadPlane(s[2..], n, acc + Repeat(s[1], s[0] - 128))
    else if |acc| + s[0] > n || 1 + s[0] > |s| then Malformed
    else ReadPlane(s[1 + s[0]..], n, acc + s[1..1 + s[0]])
  }

  /** Pixels stored one after the other. */
  function ReadFlat(s: seq<byte>, n: nat, acc: seq<Pixel>): Read<seq<Pixel>>
    requires |acc| <= n
    decreases |s|
  {
    if |acc| == n then Done(acc, s)
    else if |s| < 4 then Malformed
    else ReadFlat(s[4..], n, acc + [Pixel(s[0], s[1], s[2], s[3])])
  }

  function Zip(r: seq<byte>, g: seq<byte>, b: seq<byte>, e: seq<byte>): (p: seq<Pixel>)
    requires |r| == |g| == |b| == |e|
    ensures |p| == |r| && forall x :: 0 <= x < |p| ==> p[x] == Pixel(r[x], g[x], b[x], e[x])
  {
    seq(|r|, x requires 0 <= x < |r| => Pixel(r[x], g[x], b[x], e[x]))
  }

  /** The four planes of a scanline. */
  function ReadPlanes(s: seq<byte>, n: nat): Read<seq<Pixel>> {
    var r := ReadPlane(s, n, []);
    if r.Malformed? then Malformed else
    var g := ReadPlane(r.rest, n, []);
    if g.Malformed? then Malformed else
    var b := ReadPlane(g.rest, n, []);
    if b.Malformed? then Malformed else
    var e := ReadPlane(b.rest, n, []);
    if e.Malformed? || |r.value| != n || |g.value| != n || |b.value| != n || |e.value| != n then Malformed
    else Done(Zip(r.value, g.value, b.value, e.value), e.rest)
  }

  /** A scanline of a picture of width n; widths from 8 to 32767 are run-length coded, by
      plane, after a header giving the width. */
  function ReadScanline(s: seq<byte>, n: nat): Read<seq<Pixel>> {
    if n < 8 || n >= 32768 then ReadFlat(s, n, [])
    else if |s| < 4 || s[0] != 2 || s[1] != 2 || s[2] as int * 256 + s[3] as int != n then Malformed
    else ReadPlanes(s[4..], n)
  }

  // ---- Packets ----

  datatype Packet = Run(len: nat, value: byte) | Dump(data: seq<byte>)

  predicate Ok(p: Packet) {
    match p
    case Run(len, _) => 1 <= len <= 127
    case Dump(data) => 1 <= |data| <= 128
  }

  function Plain(p: Packet): (s: seq<byte>) {
    match p
    case Run(len, v) => Repeat(v, len)
    case Dump(data) => data
  }

  function Coded(p: Packet): seq<byte>
    requires Ok(p)
  {
    match p
    case Run(len, v) => [len + 128, v]
    case Dump(data) => [|data|] + data
  }

  function Expand(ps: seq<Packet>): seq<byte> {
    if ps == [] then [] else Expand(ps[..|ps| - 1]) + Plain(ps[|ps| - 1])
  }

  function Code(ps: seq<Packet>): seq<byte>
    requires forall p :: p in ps ==> Ok(p)
  {
    if ps == [] then [] else Code(ps[..|ps| - 1]) + Coded(ps[|ps| - 1])
  }

  lemma ReadPacket(p: Packet, rest: seq<byte>, n: nat, acc: seq<byte>)
    requires Ok(p) && |acc| + |Plain(p)| <= n
    ensures ReadPlane(Coded(p) + rest, n, acc) == ReadPlane(rest, n, acc + Plain(p))
  {
    var s := Coded(p) + rest;
    match p
    case Run(len, v) =>
      assert s[2..] == rest;
    case Dump(data) =>
      assert s[1 + |data|..] == rest && s[1..1 + |data|] == data;
  }

  /** Reading the code of packets gives their bytes. */
  lemma {:induction false} ReadPackets(ps: seq<Packet>, rest: seq<byte>, n: nat)
    requires forall p :: p in ps ==> Ok(p)
    requires |Expand(ps)| <= n
    ensures ReadPlane(Code(ps) + rest, n, []) == ReadPlane(rest, n, Expand(ps))
    decreases |ps|
  {
    hide ReadPlane, Coded, Plain;
    if ps == [] {
      assert Code(ps) + rest == rest;
    } else {
      var init, p := ps[..|ps| - 1], ps[|ps| - 1];
      ReadPackets(init, Coded(p) + rest, n);
      SeqAssoc(Code(init), Coded(p), rest);
      ReadPacket(p, rest, n, Expand(init));
    }
  }

  // ---- The encoder ----

  /** `stbiw__write_run_data`: a reader takes the two bytes as len copies of v. */
  function RunData(len: nat, v: byte): (s: seq<byte>)
    requires 1 <= len <= 127
    ensures forall rest, n: nat, acc :: |acc| + len <= n ==>
              ReadPlane(s + rest, n, acc) == ReadPlane(rest, n, acc + Repeat(v, len))
  {
    ReadAnywhere(Run(len, v));
    [len + 128, v]
  }

  /** `stbiw__write_dump_data`: a reader takes the bytes as the data. */
  function DumpData(data: seq<byte>): (s: seq<byte>)
    requires 1 <= |data| <= 128
    ensures forall rest, n: nat, acc :: |acc| + |data| <= n ==>
              ReadPlane(s + rest, n, acc) == ReadPlane(rest, n, acc + data)
  {
    ReadAnywhere(Dump(data));
    [|data|] + data
  }

  lemma ReadAnywhere(p: Packet)
    requires Ok(p)
    ensures forall rest, n: nat, acc :: |acc| + |Plain(p)| <= n ==>
              ReadPlane(Coded(p) + rest, n, acc) == ReadPlane(rest, n, acc + Plain(p))
  {
    hide ReadPlane, Coded, Plain;
    forall rest: seq<byte>, n: nat, acc: seq<byte> | |acc| + |Plain(p)| <= n
      ensures ReadPlane(Coded(p) + rest, n, acc) == ReadPlane(rest, n, acc + Plain(p))
    {
      ReadPacket(p, rest, n, acc);
    }
  }

  /** out is the code of packets that tile the first x bytes of the plane. */
  ghost predicate Tiles(ps: seq<Packet>, comp: seq<byte>, x: nat, out: seq<byte>) {
    x <= |comp| && (forall p :: p in ps ==> Ok(p)) && Expand(ps) == comp[..x] && out == Code(ps)
  }

  lemma TilesMore(ps: seq<Packet>, comp: seq<byte>, x: nat, out: seq<byte>, p: Packet, y: nat)
    requires Tiles(ps, comp, x, out) && Ok(p) && x <= y <= |comp| && Plain(p) == comp[x..y]
    ensures Tiles(ps + [p], comp, y, out + Coded(p))
  {
    hide Ok, Coded, Plain;
    var qs := ps + [p];
    assert qs[..|qs| - 1] == ps;
    assert comp[..x] + comp[x..y] == comp[..y];
  }

  /** Reading out gives the first x bytes of the plane, whatever follows. */
  ghost predicate ReadsUpTo(out: seq<byte>, comp: seq<byte>, x: nat)
    requires x <= |comp|
  {
    forall rest, n: nat :: n >= x ==> ReadPlane(out + rest, n, []) == ReadPlane(rest, n, comp[..x])
  }

  lemma TilesRead(ps: seq<Packet>, comp: seq<byte>, x: nat, out: seq<byte>)
    requires Tiles(ps, comp, x, out)
    ensures ReadsUpTo(out, comp, x)
  {
    forall rest: seq<byte>, n: nat | n >= x
      ensures ReadPlane(out + rest, n, []) == ReadPlane(rest, n, comp[..x])
    {
      ReadPackets(ps, rest, n);
    }
  }

  predicate RunAt(comp: seq<byte>, k: nat) {
    k + 2 < |comp| && comp[k] == comp[k + 1] == comp[k + 2]
  }

  /** Index of the first run of three at or after x, or the end. */
  method FindRun(comp: seq<byte>, x: nat) returns (r: nat)
    requires x < |comp|
    ensures x <= r <= |comp|
    ensures RunAt(comp, r) || r == |comp|
    ensures forall k :: x <= k < r ==> !RunAt(comp, k)
  {
    r := x;
    while r + 2 < |comp|
      invariant x <= r <= |comp|
      invariant forall k :: x <= k < r ==> !RunAt(comp, k)
    {
      if comp[r] == comp[r + 1] == comp[r + 2] {
        break;
      }
      r := r + 1;
    }
    if r + 2 >= |comp| {
      r := |comp|;
    }
  }

  /** The end of the run starting at x. */
  method RunEnd(comp: seq<byte>, x: nat) returns (r: nat)
    requires x < |comp|
    ensures x < r <= |comp| && forall k :: x <= k < r ==> comp[k] == comp[x]
    ensures r < |comp| ==> comp[r] != comp[x]
  {
    r := x;
    while r < |comp| && comp[r] == comp[x]
      invariant x <= r <= |comp| && forall k :: x <= k < r ==> comp[k] == comp[x]
    {
      r := r + 1;
    }
  }

  /** The packet before x was a run that goes on at x. */
  ghost predicate InRun(ps: seq<Packet>, comp: seq<byte>, x: nat) {
    ps != [] && ps[|ps| - 1].Run? && x < |comp| && comp[x] == ps[|ps| - 1].value
  }

  /** The packet that belongs at x: a run where three equal bytes start or a run goes on, as
      long as it lasts; otherwise a dump up to the next run. Both are cut at the format's
      greatest length only. */
  ghost predicate Belongs(comp: seq<byte>, x: nat, p: Packet, inRun: bool) {
    var y := x + |Plain(p)|;
    x < y <= |comp| &&
    match p
    case Run(len, v) =>
      (inRun || RunAt(comp, x)) && (forall k :: x <= k < y ==> comp[k] == v) &&
      (len == 127 || y == |comp| || comp[y] != v)
    case Dump(data) =>
      !inRun && (forall k :: x <= k < y ==> !RunAt(comp, k)) && (|data| == 128 || y == |comp| || RunAt(comp, y))
  }

  /** Every packet is the one that belongs where it stands: this fixes the whole coding. */
  ghost predicate Chosen(ps: seq<Packet>, comp: seq<byte>) {
    ps == [] ||
    var init := ps[..|ps| - 1];
    Chosen(init, comp) && Belongs(comp, |Expand(init)|, ps[|ps| - 1], InRun(init, comp, |Expand(init)|))
  }

  lemma ChosenMore(ps: seq<Packet>, comp: seq<byte>, x: nat, out: seq<byte>, p: Packet)
    requires Tiles(ps, comp, x, out) && Chosen(ps, comp) && Belongs(comp, x, p, InRun(ps, comp, x))
    ensures Chosen(ps + [p], comp)
  {
    hide Belongs, Expand, InRun;
    assert (ps + [p])[..|ps|] == ps;
  }

  /** Dumps comp[x..r]. */
  method DumpUpTo(comp: seq<byte>, x0: nat, r: nat, out0: seq<byte>, ghost ps0: seq<Packet>)
    returns (out: seq<byte>, ghost ps: seq<Packet>)
    requires x0 <= r <= |comp| && Tiles(ps0, comp, x0, out0) && Chosen(ps0, comp) && !InRun(ps0, comp, x0)
    requires (forall k :: x0 <= k < r ==> !RunAt(comp, k)) && (r == |comp| || RunAt(comp, r))
    ensures Tiles(ps, comp, r, out) && ReadsUpTo(out, comp, r) && Chosen(ps, comp) && !InRun(ps, comp, r)
  {
    hide Tiles, ReadsUpTo, Chosen;
    out, ps := out0, ps0;
    var x := x0;
    while x < r
      invariant x0 <= x <= r && Tiles(ps, comp, x, out) && Chosen(ps, comp) && !InRun(ps, comp, x)
    {
      var len := if r - x > 128 then 128 else r - x;
      var p := Dump(comp[x..x + len]);
      ChosenMore(ps, comp, x, out, p);
      TilesMore(ps, comp, x, out, p, x + len);
      ps := ps + [p];
      out := out + DumpData(comp[x..x + len]);
      x := x + len;
    }
    TilesRead(ps, comp, r, out);
  }

  lemma RunBelongs(ps: seq<Packet>, comp: seq<byte>, x0: nat, x: nat, r: nat, len: nat)
    requires x0 <= x < r <= |comp| && RunAt(comp, x0) && len == (if r - x > 127 then 127 else r - x)
    requires (forall k :: x0 <= k < r ==> comp[k] == comp[x0]) && (r == |comp| || comp[r] != comp[x0])
    requires x > x0 ==> ps != [] && ps[|ps| - 1].Run? && ps[|ps| - 1].value == comp[x0]
    ensures Belongs(comp, x, Run(len, comp[x]), InRun(ps, comp, x))
  {
  }

  lemma RunOver(ps: seq<Packet>, comp: seq<byte>, r: nat)
    requires ps != [] && ps[|ps| - 1].Run? && (r >= |comp| || comp[r] != ps[|ps| - 1].value)
    ensures !InRun(ps, comp, r)
  {
  }

  /** The next packet of a run. */
  method WriteRun(comp: seq<byte>, x0: nat, x: nat, r: nat, out: seq<byte>, ghost ps: seq<Packet>)
    returns (y: nat, out': seq<byte>, ghost ps': seq<Packet>)
    requires x0 <= x < r <= |comp| && Tiles(ps, comp, x, out) && Chosen(ps, comp) && RunAt(comp, x0)
    requires (forall k :: x0 <= k < r ==> comp[k] == comp[x0]) && (r == |comp| || comp[r] != comp[x0])
    requires x > x0 ==> ps != [] && ps[|ps| - 1].Run? && ps[|ps| - 1].value == comp[x0]
    ensures x < y <= r && Tiles(ps', comp, y, out') && Chosen(ps', comp)
    ensures ps' != [] && ps'[|ps'| - 1].Run? && ps'[|ps'| - 1].value == comp[x0]
  {
    hide Tiles, Chosen, Belongs, InRun, RunAt;
    var len := if r - x > 127 then 127 else r - x;
    ghost var p := Run(len, comp[x]);
    assert Plain(p) == comp[x..x + len];
    RunBelongs(ps, comp, x0, x, r, len);
    ChosenMore(ps, comp, x, out, p);
    TilesMore(ps, comp, x, out, p, x + len);
    ps' := ps + [p];
    out' := out + RunData(len, comp[x]);
    y := x + len;
  }

  /** Writes comp[x..r], a whole run, as runs. */
  method RunUpTo(comp: seq<byte>, x0: nat, r: nat, out0: seq<byte>, ghost ps0: seq<Packet>)
    returns (out: seq<byte>, ghost ps: seq<Packet>)
    requires x0 < r <= |comp| && Tiles(ps0, comp, x0, out0) && Chosen(ps0, comp) && RunAt(comp, x0)
    requires (forall k :: x0 <= k < r ==> comp[k] == comp[x0]) && (r == |comp| || comp[r] != comp[x0])
    ensures Tiles(ps, comp, r, out) && ReadsUpTo(out, comp, r) && Chosen(ps, comp) && !InRun(ps, comp, r)
  {
    hide Tiles, ReadsUpTo, Chosen, InRun, RunAt;
    out, ps := out0, ps0;
    var x := x0;
    while x < r
      invariant x0 <= x <= r && Tiles(ps, comp, x, out) && Chosen(ps, comp)
      invariant x > x0 ==> ps != [] && ps[|ps| - 1].Run? && ps[|ps| - 1].value == comp[x0]
    {
      x, out, ps := WriteRun(comp, x0, x, r, out, ps);
    }
    RunOver(ps, comp, r);
    TilesRead(ps, comp, r, out);
  }

  /** One plane of `stbiw__write_hdr_scanline`: packets within the format's lengths tile
      the plane, so reading gives it back whatever follows; runs are coded as runs. */
  method WritePlane(comp: seq<byte>) returns (out: seq<byte>, ghost ps: seq<Packet>)
    ensures Tiles(ps, comp, |comp|, out) && Chosen(ps, comp)
    ensures Codes(out, comp)
  {
    out, ps := [], [];
    var x := 0;
    while x < |comp|
      invariant x <= |comp| && Tiles(ps, comp, x, out) && Chosen(ps, comp) && !InRun(ps, comp, x)
    {
      hide Tiles, Chosen, InRun;
      var r := FindRun(comp, x);
      out, ps := DumpUpTo(comp, x, r, out, ps);
      x := r;
      if r + 2 < |comp| {
        r := RunEnd(comp, x);
        out, ps := RunUpTo(comp, x, r, out, ps);
        x := r;
      }
    }
    PlaneReads(ps, comp, out);
  }

  lemma PlaneReads(ps: seq<Packet>, comp: seq<byte>, out: seq<byte>)
    requires Tiles(ps, comp, |comp|, out)
    ensures Codes(out, comp)
  {
    forall rest: seq<byte>
      ensures ReadPlane(out + rest, |comp|, []) == Done(comp, rest)
    {
      ReadPackets(ps, rest, |comp|);
      assert comp[..|comp|] == comp;
    }
  }

  function Flat(pixels: seq<Pixel>): (s: seq<byte>) {
    if pixels == [] then []
    else
      var p := pixels[|pixels| - 1];
      Flat(pixels[..|pixels| - 1]) + [p.r, p.g, p.b, p.e]
  }

  lemma {:induction false} ReadFlatFlat(pixels: seq<Pixel>, rest: seq<byte>, n: nat)
    requires |pixels| <= n
    ensures ReadFlat(Flat(pixels) + rest, n, []) == ReadFlat(rest, n, pixels)
    decreases |pixels|
  {
    if pixels == [] {
      assert Flat(pixels) + rest == rest;
    } else {
      var init, p := pixels[..|pixels| - 1], pixels[|pixels| - 1];
      var four: seq<byte> := [p.r, p.g, p.b, p.e];
      ReadFlatFlat(init, four + rest, n);
      SeqAssoc(Flat(init), four, rest);
      assert (four + rest)[4..] == rest;
      assert init + [p] == pixels;
    }
  }

  /** One component of every pixel. */
  function Channel(pixels: seq<Pixel>, c: nat): (s: seq<byte>)
    ensures |s| == |pixels|
  {
    seq(|pixels|, x requires 0 <= x < |pixels| =>
      match c case 0 => pixels[x].r case 1 => pixels[x].g case 2 => pixels[x].b case _ => pixels[x].e)
  }

  /** out is the code of the packets that belong in the plane. */
  ghost predicate Coding(comp: seq<byte>, out: seq<byte>) {
    exists ps :: Tiles(ps, comp, |comp|, out) && Chosen(ps, comp)
  }

  /** `stbiw__write_hdr_scanline` after conversion to RGBE: reading the scanline gives its
      pixels back, at every width and whatever follows; codes are those of the four planes. */
  method WriteScanline(pixels: seq<Pixel>) returns (out: seq<byte>, ghost codes: seq<seq<byte>>)
    ensures forall rest :: ReadScanline(out + rest, |pixels|) == Done(pixels, rest)
    ensures if |pixels| < 8 || |pixels| >= 32768 then out == Flat(pixels)
            else
              |codes| == 4 && (forall c :: 0 <= c < 4 ==> Coding(Channel(pixels, c), codes[c])) &&
              out == [2, 2, |pixels| / 256, |pixels| % 256] + codes[0] + codes[1] + codes[2] + codes[3]
  {
    var n := |pixels|;
    codes := [];
    if n < 8 || n >= 32768 {
      out := [];
      for x := 0 to n
        invariant out == Flat(pixels[..x])
      {
        out := out + [pixels[x].r, pixels[x].g, pixels[x].b, pixels[x].e];
        assert pixels[..x + 1][..x] == pixels[..x];
      }
      assert pixels[..n] == pixels;
      forall rest: seq<byte>
        ensures ReadScanline(out + rest, n) == Done(pixels, rest)
      {
        ReadFlatFlat(pixels, rest, n);
      }
    } else {
      hide Tiles, Chosen, Codes, ReadScanline, Channel;
      var scratch := new byte[4 * n];
      FillScratch(pixels, scratch);
      var planes := scratch[..];
      var header: seq<byte> := [2, 2, n / 256, n % 256];
      var r := WriteChannel(planes[..n]);
      var g := WriteChannel(planes[n..2 * n]);
      var b := WriteChannel(planes[2 * n..3 * n]);
      var e := WriteChannel(planes[3 * n..]);
      out, codes := header + r + g + b + e, [r, g, b, e];
      Channels(pixels, planes[..n], planes[n..2 * n], planes[2 * n..3 * n], planes[3 * n..]);
      PlanesRead(pixels, planes[..n], planes[n..2 * n], planes[2 * n..3 * n], planes[3 * n..], r, g, b, e);
    }
  }

  method WriteChannel(comp: seq<byte>) returns (out: seq<byte>)
    ensures Codes(out, comp) && Coding(comp, out)
  {
    ghost var ps;
    out, ps := WritePlane(comp);
  }

  lemma Channels(pixels: seq<Pixel>, r: seq<byte>, g: seq<byte>, b: seq<byte>, e: seq<byte>)
    requires |r| == |g| == |b| == |e| && Zip(r, g, b, e) == pixels
    ensures Channel(pixels, 0) == r && Channel(pixels, 1) == g && Channel(pixels, 2) == b && Channel(pixels, 3) == e
  {
  }

  /** The loop that splits the pixels into four planes. */
  method FillScratch(pixels: seq<Pixel>, scratch: array<byte>)
    requires scratch.Length == 4 * |pixels|
    modifies scratch
    ensures var n, s := |pixels|, scratch[..];
            Zip(s[..n], s[n..2 * n], s[2 * n..3 * n], s[3 * n..]) == pixels
  {
    hide Zip, Filled;
    var n := |pixels|;
    assert Filled(pixels, scratch[..], 0) by { NoneFilled(pixels, scratch[..]); }
    for x := 0 to n
      invariant Filled(pixels, scratch[..], x)
    {
      ghost var before := scratch[..];
      scratch[x] := pixels[x].r;
      scratch[n + x] := pixels[x].g;
      scratch[2 * n + x] := pixels[x].b;
      scratch[3 * n + x] := pixels[x].e;
      assert scratch[..] == Stored(before, n, x, pixels[x]);
      FilledMore(pixels, before, x);
    }
    FourPlanes(pixels, scratch[..]);
  }

  /** The first x pixels are in the scratch buffer. */
  ghost predicate Filled(pixels: seq<Pixel>, s: seq<byte>, x: nat) {
    var n := |pixels|;
    |s| == 4 * n && x <= n &&
    (forall j :: 0 <= j < x ==> s[j] == pixels[j].r) &&
    (forall j :: n <= j < n + x ==> s[j] == pixels[j - n].g) &&
    (forall j :: 2 * n <= j < 2 * n + x ==> s[j] == pixels[j - 2 * n].b) &&
    (forall j :: 3 * n <= j < 3 * n + x ==> s[j] == pixels[j - 3 * n].e)
  }

  function Stored(s: seq<byte>, n: nat, x: nat, p: Pixel): seq<byte>
    requires |s| == 4 * n && x < n
  {
    var s1: seq<byte> := s[x := p.r];
    var s2: seq<byte> := s1[n + x := p.g];
    var s3: seq<byte> := s2[2 * n + x := p.b];
    s3[3 * n + x := p.e]
  }

  lemma NoneFilled(pixels: seq<Pixel>, s: seq<byte>)
    requires |s| == 4 * |pixels|
    ensures Filled(pixels, s, 0)
  {
  }

  lemma FilledMore(pixels: seq<Pixel>, s: seq<byte>, x: nat)
    requires x < |pixels| && Filled(pixels, s, x)
    ensures Filled(pixels, Stored(s, |pixels|, x, pixels[x]), x + 1)
  {
  }

  lemma FourPlanes(pixels: seq<Pixel>, s: seq<byte>)
    requires Filled(pixels, s, |pixels|)
    ensures var n := |pixels|; Zip(s[..n], s[n..2 * n], s[2 * n..3 * n], s[3 * n..]) == pixels
  {
  }

  /** What a plane's code must do. */
  ghost predicate Codes(out: seq<byte>, plane: seq<byte>) {
    forall rest :: ReadPlane(out + rest, |plane|, []) == Done(plane, rest)
  }

  lemma PlanesRead(pixels: seq<Pixel>, r: seq<byte>, g: seq<byte>, b: seq<byte>, e: seq<byte>,
                   r': seq<byte>, g': seq<byte>, b': seq<byte>, e': seq<byte>)
    requires 8 <= |pixels| < 32768 && |r| == |g| == |b| == |e| == |pixels| && Zip(r, g, b, e) == pixels
    requires Codes(r', r) && Codes(g', g) && Codes(b', b) && Codes(e', e)
    ensures forall rest ::
              ReadScanline([2, 2, |pixels| / 256, |pixels| % 256] + r' + g' + b' + e' + rest, |pixels|) ==
                  Done(pixels, rest)
  {
    hide ReadPlane;
    var header: seq<byte> := [2, 2, |pixels| / 256, |pixels| % 256];
    forall rest: seq<byte>
      ensures ReadScanline(header + r' + g' + b' + e' + rest, |pixels|) == Done(pixels, rest)
    {
      var s := header + r' + g' + b' + e' + rest;
      assert s[4..] == r' + (g' + (b' + (e' + rest)));
    }
  }
}
