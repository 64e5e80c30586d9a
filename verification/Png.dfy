/** PNG scanline filtering, and the image data it hands to the compressor. */
module Png {
  import opened Basics
  import opened Bits
  import Inflate
  import Deflate

  // ---- The reference: filter types of section 6 of RFC 2083 ----

  /** a, b and c are the bytes to the left, above and above left. */
  function Paeth(a: byte, b: byte, c: byte): byte {
    var p := a as int + b - c;
    var pa, pb, pc := Abs(p - a), Abs(p - b), Abs(p - c);
    if pa <= pb && pa <= pc then a
    else if pb <= pc then b
    else c
  }

  function Predict(ft: nat, a: byte, b: byte, c: byte): byte
    requires ft < 5
  {
    match ft
    case 0 => 0
    case 1 => a
    case 2 => b
    case 3 => (a as int + b) / 2
    case _ => Paeth(a, b, c)
  }

  /** The byte bpp places before index i of a row, or zero. */
  function Left(row: seq<byte>, i: nat, bpp: nat): byte
    requires i <= |row| && bpp > 0
  {
    if i < bpp then 0 else row[i - bpp]
  }

  /** Undoes a filter: extends the already restored bytes to a whole row. */
  function Unfilter(ft: nat, line: seq<byte>, prior: seq<byte>, bpp: nat, done: seq<byte>): (row: seq<byte>)
    requires ft < 5 && bpp > 0 && |done| <= |line| == |prior|
    ensures |row| == |line|
    decreases |line| - |done|
  {
    var i := |done|;
    if i == |line| then done
    else
      var x := (line[i] as int + Predict(ft, Left(done, i, bpp), prior[i], Left(prior, i, bpp))) % 256;
      Unfilter(ft, line, prior, bpp, done + [x])
  }

  function Zeros(n: nat): (s: seq<byte>)
    ensures |s| == n
  {
    seq(n, _ => 0)
  }

  /** Restores rows of rowBytes bytes, each preceded by its filter type; the row
      before the first is zero. */
  function Recon(s: seq<byte>, rowBytes: nat, bpp: nat, rows: seq<seq<byte>>): Option<seq<seq<byte>>>
    requires bpp > 0 && forall k :: 0 <= k < |rows| ==> |rows[k]| == rowBytes
    decreases |s|
  {
    if s == [] then Some(rows)
    else if |s| < 1 + rowBytes || s[0] > 4 then None
    else
      var prior := if rows == [] then Zeros(rowBytes) else rows[|rows| - 1];
      var row := Unfilter(s[0], s[1..1 + rowBytes], prior, bpp, []);
      Recon(s[1 + rowBytes..], rowBytes, bpp, rows + [row])
  }

  // ---- Filtering ----

  /** What a filter leaves of byte i of a row. */
  function Residue(ft: nat, row: seq<byte>, prior: seq<byte>, bpp: nat, i: nat): byte
    requires ft < 5 && bpp > 0 && i < |row| == |prior|
  {
    (row[i] as int - Predict(ft, Left(row, i, bpp), prior[i], Left(prior, i, bpp))) % 256
  }

  function Filtered(ft: nat, row: seq<byte>, prior: seq<byte>, bpp: nat): (line: seq<byte>)
    requires ft < 5 && bpp > 0 && |row| == |prior|
    ensures |line| == |row|
  {
    seq(|row|, i requires 0 <= i < |row| => Residue(ft, row, prior, bpp, i))
  }

  lemma {:induction false} UnfilterFiltered(ft: nat, row: seq<byte>, prior: seq<byte>, bpp: nat, k: nat)
    requires ft < 5 && bpp > 0 && k <= |row| == |prior|
    ensures Unfilter(ft, Filtered(ft, row, prior, bpp), prior, bpp, row[..k]) == row
    decreases |row| - k
  {
    if k == |row| {
      assert row[..k] == row;
    } else {
      var p := Predict(ft, Left(row, k, bpp), prior[k], Left(prior, k, bpp));
      assert Left(row[..k], k, bpp) == Left(row, k, bpp);
      assert ((row[k] as int - p) % 256 + p) % 256 == row[k];
      assert row[..k] + [row[k]] == row[..k + 1];
      UnfilterFiltered(ft, row, prior, bpp, k + 1);
    }
  }

  /** The Paeth predictor is the neighbour nearest to a + b - c; ties go to a, then b. */
  lemma PaethNearest(a: byte, b: byte, c: byte)
    ensures var p, r := a as int + b - c, Paeth(a, b, c);
            r in {a, b, c} && Abs(p - r) <= Abs(p - a) && Abs(p - r) <= Abs(p - b) && Abs(p - r) <= Abs(p - c) &&
            (Abs(p - r) == Abs(p - a) ==> r == a) && (r == c && r != a && r != b ==> Abs(p - c) < Abs(p - b))
  {
  }

  /** Pixels in memory: rows stride apart, written bottom first when flip is set. The
      caller's pointer is base bytes into the memory; a negative stride goes up from it. */
  datatype Image = Image(pixels: seq<byte>, base: nat, stride: int, width: nat, height: nat, comp: nat, flip: bool)
  {
    function RowBytes(): nat {
      width * comp
    }

    /** The size of the filtered image: a filter type before each row. */
    function FilteredBytes(): nat {
      height * (RowBytes() + 1)
    }

    /** Where row y of the output starts. */
    function Start(y: int): int {
      base + stride * (if flip then height - 1 - y else y)
    }

    /** A stride of 0 stands for rows without a gap. */
    function Strided(): Image {
      if stride == 0 then this.(stride := RowBytes()) else this
    }

    ghost predicate Valid() {
      width > 0 && comp > 0 && RowBytes() >= comp &&
      forall y :: 0 <= y < height ==> 0 <= Start(y) && Start(y) + RowBytes() <= |pixels|
    }

    ghost function Row(y: nat): (r: seq<byte>)
      requires Valid() && y < height
      ensures |r| == RowBytes()
    {
      pixels[Start(y)..Start(y) + RowBytes()]
    }

    /** The row before y; zero before the first. */
    ghost function Prior(y: nat): (r: seq<byte>)
      requires Valid() && y < height
      ensures |r| == RowBytes()
    {
      if y == 0 then Zeros(RowBytes()) else Row(y - 1)
    }

    /** The first k rows, in output order. */
    ghost function Rows(k: nat): (r: seq<seq<byte>>)
      requires Valid() && k <= height
      ensures |r| == k && forall y :: 0 <= y < k ==> r[y] == Row(y)
    {
      seq(k, y requires 0 <= y < k => Row(y))
    }
  }

  /** z[i - signed_stride] is the byte above. */
  lemma RowAbove(img: Image, y: nat)
    ensures img.Start(y) - (if img.flip then -img.stride else img.stride) == img.Start(y as int - 1)
  {
    if img.flip {
      Distribute(img.stride, img.height - 1 - y);
    } else {
      Distribute(img.stride, y as int - 1);
    }
  }

  lemma Distribute(s: int, k: int)
    ensures s * k + s == s * (k + 1)
  {
  }

  /** Byte i of the line for one of the seven internal types: 5 and 6 are types 3 and
      4 on a row with nothing above it. */
  function Cell(t: nat, z: byte, left: byte, up: byte, upLeft: byte): byte {
    match t
    case 1 => (z as int - left) % 256
    case 2 => (z as int - up) % 256
    case 3 => (z as int - (left as int + up) / 2) % 256
    case 4 => (z as int - Paeth(left, up, upLeft)) % 256
    case 5 => (z as int - left / 2) % 256
    case 6 => (z as int - Paeth(left, 0, 0)) % 256
    case _ => z
  }

  /** The internal type for a filter on row y. */
  function Mapped(filterType: nat, y: nat): (t: nat)
    requires filterType < 5
    ensures t <= 6
  {
    (if y != 0 then [0, 1, 2, 3, 4] else [0, 1, 0, 5, 6])[filterType]
  }

  /** A cell computed from the neighbours its type looks at is the residue. */
  lemma CellIsResidue(ft: nat, y: nat, row: seq<byte>, prior: seq<byte>, bpp: nat, i: nat,
                      left: byte, up: byte, upLeft: byte)
    requires ft < 5 && bpp > 0 && i < |row| == |prior|
    requires y == 0 ==> prior == Zeros(|row|)
    requires var t := Mapped(ft, y);
             left == Left(row, i, bpp) && (2 <= t <= 4 ==> up == prior[i]) && (t == 4 ==> upLeft == Left(prior, i, bpp))
    ensures Cell(Mapped(ft, y), row[i], left, up, upLeft) == Residue(ft, row, prior, bpp, i)
  {
    hide Paeth;
    if y == 0 {
      assert prior[i] == 0 && Left(prior, i, bpp) == 0;
    }
    match ft
    case 0 =>
    case 1 =>
    case 2 =>
    case 3 =>
    case _ =>
  }

  /** One byte of the line; every read is inside the pixel buffer. */
  method EncodeByte(img: Image, y: nat, filterType: nat, i: nat) returns (b: byte)
    requires img.Valid() && y < img.height && filterType < 5 && i < img.RowBytes()
    ensures b == Residue(filterType, img.Row(y), img.Prior(y), img.comp, i)
  {
    hide Residue, Cell, Image.Start, Image.RowBytes, Mapped;
    var t := Mapped(filterType, y);
    var z := img.Start(y);
    var signedStride := if img.flip then -img.stride else img.stride;
    RowAbove(img, y);
    InMemory(img, y);
    FirstLooksNowhere(filterType);
    var left: byte := if i < img.comp then 0 else img.pixels[z + i - img.comp];
    var up: byte := if 2 <= t <= 4 then img.pixels[z + i - signedStride] else 0;
    var upLeft: byte := if t == 4 && i >= img.comp then img.pixels[z + i - signedStride - img.comp] else 0;
    CellIsResidue(filterType, y, img.Row(y), img.Prior(y), img.comp, i, left, up, upLeft);
    b := Cell(t, img.pixels[z + i], left, up, upLeft);
  }

  /** Where row y and the row above it lie. */
  lemma InMemory(img: Image, y: nat)
    requires img.Valid() && y < img.height
    ensures 0 <= img.Start(y) && img.Start(y) + img.RowBytes() <= |img.pixels| && img.RowBytes() >= img.comp > 0
    ensures y > 0 ==> 0 <= img.Start(y - 1) && img.Start(y - 1) + img.RowBytes() <= |img.pixels|
  {
    hide Image.Start, Image.RowBytes;
  }

  /** On the first row no internal type looks above. */
  lemma FirstLooksNowhere(filterType: nat)
    requires filterType < 5
    ensures !(2 <= Mapped(filterType, 0) <= 4)
  {
  }

  /** `stbiw__encode_png_line`: the line of row y under a filter type.  The first pixel
      has nothing to its left. */
  method EncodeLine(img: Image, y: nat, filterType: nat, line: array<byte>)
    requires img.Valid() && y < img.height && filterType < 5 && line.Length == img.RowBytes()
    modifies line
    ensures line[..] == Filtered(filterType, img.Row(y), img.Prior(y), img.comp)
  {
    hide Residue;
    ghost var row, prior, n := img.Row(y), img.Prior(y), img.comp;
    if Mapped(filterType, y) == 0 {
      var z := img.Start(y);
      forall i | 0 <= i < line.Length {
        line[i] := img.pixels[z + i];
      }
      UnfilteredLine(filterType, y, row, prior, n);
    } else {
      for i := 0 to img.comp
        invariant forall k :: 0 <= k < i ==> line[k] == Residue(filterType, row, prior, n, k)
      {
        line[i] := EncodeByte(img, y, filterType, i);
      }
      for i := img.comp to line.Length
        invariant forall k :: 0 <= k < i ==> line[k] == Residue(filterType, row, prior, n, k)
      {
        line[i] := EncodeByte(img, y, filterType, i);
      }
    }
    assert line[..] == Filtered(filterType, row, prior, n);
  }

  lemma UnfilteredLine(ft: nat, y: nat, row: seq<byte>, prior: seq<byte>, bpp: nat)
    requires ft < 5 && bpp > 0 && |row| == |prior| && Mapped(ft, y) == 0
    requires y == 0 ==> prior == Zeros(|row|)
    ensures Filtered(ft, row, prior, bpp) == row
  {
  }

  // ---- Choosing a filter ----

  /** A line byte as a signed char. */
  function Signed(b: byte): int {
    if b < 128 then b else b - 256
  }

  /** The sum of absolute values of the first k bytes of a line. */
  function Score(line: seq<byte>, k: nat): (v: nat)
    requires k <= |line|
    ensures v <= 128 * k
  {
    if k == 0 then 0 else Score(line, k - 1) + Abs(Signed(line[k - 1]))
  }

  method Estimate(line: array<byte>) returns (est: nat)
    ensures est == Score(line[..], line.Length)
  {
    est := 0;
    for i := 0 to line.Length
      invariant est == Score(line[..], i)
    {
      est := est + Abs(Signed(line[i]));
    }
  }

  ghost function FilterScore(img: Image, y: nat, ft: nat): nat
    requires img.Valid() && y < img.height && ft < 5
  {
    Score(Filtered(ft, img.Row(y), img.Prior(y), img.comp), img.RowBytes())
  }

  /** ft is the first of the five filters with the least sum. */
  ghost predicate IsBest(img: Image, y: nat, ft: nat)
    requires img.Valid() && y < img.height && ft < 5
  {
    forall u :: 0 <= u < 5 ==>
      FilterScore(img, y, ft) <= FilterScore(img, y, u) && (u < ft ==> FilterScore(img, y, ft) < FilterScore(img, y, u))
  }

  const INT_MAX := 0x7fffffff

  /** Filters row y into line, by the forced filter or, when it is -1, by the best. */
  method FilterRow(img: Image, y: nat, force: int, line: array<byte>) returns (ft: nat)
    requires img.Valid() && y < img.height && line.Length == img.RowBytes() && force < 5
    modifies line
    ensures ft < 5 && line[..] == Filtered(ft, img.Row(y), img.Prior(y), img.comp)
    ensures force > -1 ==> ft == force
    ensures force <= -1 && 128 * img.RowBytes() < INT_MAX ==> IsBest(img, y, ft)
  {
    hide Filtered, Score;
    if force > -1 {
      ft := force;
      EncodeLine(img, y, force, line);
      return;
    }
    var best, bestVal := 0, INT_MAX;
    for f := 0 to 5
      invariant best < 5 && (best < f || (best == 0 && bestVal == INT_MAX))
      invariant bestVal < INT_MAX ==> best < f && bestVal == FilterScore(img, y, best)
      invariant forall u :: 0 <= u < f ==>
                  bestVal <= FilterScore(img, y, u) && (u < best ==> bestVal < FilterScore(img, y, u))
    {
      EncodeLine(img, y, f, line);
      var est := Estimate(line);
      if est < bestVal {
        bestVal, best := est, f;
      }
    }
    EncodeLine(img, y, best, line);
    ft := best;
    assert FilterScore(img, y, 0) <= 128 * img.RowBytes();
  }

  // ---- Whole images ----

  /** The filtered image when row k uses filter fts[k]. */
  ghost function Encoded(img: Image, fts: seq<nat>): (s: seq<byte>)
    requires img.Valid() && |fts| <= img.height && forall k :: 0 <= k < |fts| ==> fts[k] < 5
    ensures |s| == |fts| * (img.RowBytes() + 1)
  {
    if fts == [] then []
    else
      var y := |fts| - 1;
      MulSucc(y, img.RowBytes() + 1);
      Encoded(img, fts[..y]) + [fts[y]] + Filtered(fts[y], img.Row(y), img.Prior(y), img.comp)
  }

  /** Reading one more row. */
  lemma ReconRow(ft: nat, line: seq<byte>, rest: seq<byte>, bpp: nat, rows: seq<seq<byte>>, prior: seq<byte>)
    requires ft < 5 && bpp > 0 && forall k :: 0 <= k < |rows| ==> |rows[k]| == |line|
    requires prior == if rows == [] then Zeros(|line|) else rows[|rows| - 1]
    ensures Recon([ft] + (line + rest), |line|, bpp, rows) ==
            Recon(rest, |line|, bpp, rows + [Unfilter(ft, line, prior, bpp, [])])
  {
    hide Unfilter, Zeros;
    var s := [ft] + (line + rest);
    assert s[1..1 + |line|] == line;
    assert s[1 + |line|..] == rest;
  }

  lemma ReconStep(img: Image, y: nat, ft: nat, rest: seq<byte>)
    requires img.Valid() && y < img.height && ft < 5
    ensures Recon([ft] + (Filtered(ft, img.Row(y), img.Prior(y), img.comp) + rest), img.RowBytes(), img.comp,
              img.Rows(y)) ==
            Recon(rest, img.RowBytes(), img.comp, img.Rows(y + 1))
  {
    hide Filtered, Unfilter, Recon, Image.Row, Zeros;
    var line := Filtered(ft, img.Row(y), img.Prior(y), img.comp);
    ReconRow(ft, line, rest, img.comp, img.Rows(y), img.Prior(y));
    UnfilterFiltered(ft, img.Row(y), img.Prior(y), img.comp, 0);
    assert img.Row(y)[..0] == [];
    assert img.Rows(y) + [img.Row(y)] == img.Rows(y + 1);
  }

  ghost predicate FilterTypes(img: Image, fts: seq<nat>) {
    |fts| <= img.height && forall k :: 0 <= k < |fts| ==> fts[k] < 5
  }

  lemma EncodedSnoc(img: Image, fts: seq<nat>, ft: nat)
    requires img.Valid() && FilterTypes(img, fts) && |fts| < img.height && ft < 5
    ensures FilterTypes(img, fts + [ft])
    ensures Encoded(img, fts + [ft]) ==
            Encoded(img, fts) + [ft] + Filtered(ft, img.Row(|fts|), img.Prior(|fts|), img.comp)
  {
    hide Filtered;
    assert (fts + [ft])[..|fts|] == fts;
  }

  lemma {:induction false} ReconEncoded(img: Image, fts: seq<nat>, rest: seq<byte>)
    requires img.Valid() && FilterTypes(img, fts)
    ensures Recon(Encoded(img, fts) + rest, img.RowBytes(), img.comp, []) ==
            Recon(rest, img.RowBytes(), img.comp, img.Rows(|fts|))
    decreases |fts|
  {
    if fts == [] {
      assert Encoded(img, fts) + rest == rest;
      assert img.Rows(0) == [];
    } else {
      hide Recon, Filtered, Encoded, Image.Row, Image.Rows, Image.Prior, Image.Valid;
      var y := |fts| - 1;
      var line := Filtered(fts[y], img.Row(y), img.Prior(y), img.comp);
      assert fts[..y] + [fts[y]] == fts;
      EncodedSnoc(img, fts[..y], fts[y]);
      Regroup(Encoded(img, fts[..y]), [fts[y]], line, rest);
      ReconEncoded(img, fts[..y], [fts[y]] + (line + rest));
      ReconStep(img, y, fts[y], rest);
    }
  }

  /** What is promised of the filter chosen for row y. */
  ghost predicate Choice(img: Image, y: nat, force: int, ft: nat)
    requires img.Valid() && y < img.height && ft < 5
  {
    if 0 <= force < 5 then ft == force else 128 * img.RowBytes() < INT_MAX ==> IsBest(img, y, ft)
  }

  /** The loop over the rows; force outside 0..4 means the best filter for each row. */
  method FilterImage(img: Image, forceFilter: int) returns (filt: array<byte>, ghost fts: seq<nat>)
    requires img.Valid()
    ensures fresh(filt) && FilterTypes(img, fts) && |fts| == img.height
    ensures filt.Length == img.FilteredBytes()
    ensures forall y :: 0 <= y < img.height ==> Choice(img, y, forceFilter, fts[y])
    ensures filt[..] == Encoded(img, fts)
    ensures Recon(filt[..], img.RowBytes(), img.comp, []) == Some(img.Rows(img.height))
  {
    hide Filtered, Choice, Recon, Encoded;
    var force := if forceFilter >= 5 then -1 else forceFilter;
    var rb := img.RowBytes();
    filt := new byte[img.height * (rb + 1)](_ => 0);
    var line := new byte[rb](_ => 0);
    fts := [];
    EncodedNil(img);
    for j := 0 to img.height
      invariant |fts| == j && FilterTypes(img, fts)
      invariant forall y :: 0 <= y < j ==> Choice(img, y, forceFilter, fts[y])
      invariant j * (rb + 1) <= filt.Length && filt[..j * (rb + 1)] == Encoded(img, fts)
    {
      var ft := PutRow(img, j, forceFilter, force, line, filt);
      EncodedSnoc(img, fts, ft);
      fts := fts + [ft];
    }
    assert filt[..] == Encoded(img, fts) + [];
    ReconEncoded(img, fts, []);
    ReconEnd(rb, img.comp, img.Rows(img.height));
  }

  lemma EncodedNil(img: Image)
    requires img.Valid()
    ensures Encoded(img, []) == []
  {
  }

  /** One round: filters row j and stores its type and line at their place. */
  method PutRow(img: Image, j: nat, ghost forceFilter: int, force: int, line: array<byte>, filt: array<byte>)
    returns (ft: nat)
    requires img.Valid() && j < img.height && line != filt
    requires force == if forceFilter >= 5 then -1 else forceFilter
    requires line.Length == img.RowBytes() && filt.Length == img.height * (img.RowBytes() + 1)
    modifies line, filt
    ensures ft < 5 && Choice(img, j, forceFilter, ft)
    ensures var rb := img.RowBytes();
            0 <= j * (rb + 1) <= (j + 1) * (rb + 1) <= filt.Length &&
            filt[..(j + 1) * (rb + 1)] ==
            old(filt[..j * (rb + 1)]) + [ft] + Filtered(ft, img.Row(j), img.Prior(j), img.comp)
  {
    hide Filtered, IsBest;
    var rb := img.RowBytes();
    MulMono(j + 1, img.height, rb + 1);
    MulSucc(j, rb + 1);
    ft := FilterRow(img, j, force, line);
    StoreRow(filt, j * (rb + 1), ft, line);
  }

  lemma ReconEnd(rowBytes: nat, bpp: nat, rows: seq<seq<byte>>)
    requires bpp > 0 && forall k :: 0 <= k < |rows| ==> |rows[k]| == rowBytes
    ensures Recon([], rowBytes, bpp, rows) == Some(rows)
  {
  }

  method StoreRow(filt: array<byte>, at: nat, ft: byte, line: array<byte>)
    requires at + 1 + line.Length <= filt.Length && filt != line
    modifies filt
    ensures filt[..at + 1 + line.Length] == old(filt[..at]) + [ft] + line[..]
  {
    filt[at] := ft;
    forall k | 0 <= k < line.Length {
      filt[at + 1 + k] := line[k];
    }
  }

  /** What a reader makes of the image data: inflate, then restore the rows. */
  function DecodeImage(stream: seq<byte>, rowBytes: nat, bpp: nat): Option<seq<seq<byte>>>
    requires bpp > 0
  {
    match Inflate.Zlib(stream)
    case None => None
    case Some(s) => Recon(s, rowBytes, bpp, [])
  }

  /** The image data of `stbi_write_png_to_mem`: filtering and compression together
      lose nothing, for every image with at least one row. */
  method ImageData(given: Image, forceFilter: int, level: int)
    returns (zlib: seq<byte>, ghost fts: seq<nat>, ghost ts: seq<Inflate.Token>, ghost body: seq<byte>)
    requires given.Strided().Valid()
    // The stream is what the compressor makes of the rows under the filters promised for them,
    ensures var img := given.Strided();
            FilterTypes(img, fts) && |fts| == img.height &&
            (forall y :: 0 <= y < img.height ==> Choice(img, y, forceFilter, fts[y])) &&
            Deflate.Compressed(Encoded(img, fts), level, zlib, ts, body)
    // and a reader recovers the rows.
    ensures var img := given.Strided();
            DecodeImage(zlib, img.RowBytes(), img.comp) == if img.height > 0 then Some(img.Rows(img.height)) else None
    ensures var n := given.FilteredBytes();
            |zlib| <= n + 2 + 5 * ((n + 32766) / 32767) + 4
  {
    var img := given.Strided();
    Sizes(given);
    hide *;
    var filt;
    filt, fts := FilterImage(img, forceFilter);
    zlib, ts, body := Deflate.Compress(filt[..], level);
    DecodeSteps(zlib, img.RowBytes(), img.comp);
  }

  lemma Sizes(given: Image)
    requires given.Strided().Valid()
    ensures var img := given.Strided();
            img.comp > 0 && img.FilteredBytes() == given.FilteredBytes() &&
            (img.height == 0 <==> img.FilteredBytes() == 0)
  {
    MulMono(1, given.RowBytes() + 1, given.height);
  }

  lemma DecodeSteps(stream: seq<byte>, rowBytes: nat, bpp: nat)
    requires bpp > 0
    ensures DecodeImage(stream, rowBytes, bpp) ==
            if Inflate.Zlib(stream) == None then None else Recon(Inflate.Zlib(stream).value, rowBytes, bpp, [])
  {
  }
}
