/** Vertical resampling through a ring of scanlines, in exact arithmetic and without shift. */
module Resize {
  import opened Basics

  // ---- Filters and sample ranges ----

  datatype Filter = Box | Triangle | Cubic | CatmullRom | Mitchell

  function Support(f: Filter, scale: real): (s: real)
    requires 0.0 < scale <= 1.0
    ensures s >= 0.5
  {
    match f
    case Box => 0.5 + scale / 2.0
    case Triangle => 1.0
    case _ => 2.0
  }

  function Ceil(x: real): int {
    -(-x).Floor
  }

  /** First and last sample of a range; the source's out-parameters. */
  datatype Range = Range(first: int, last: int)

  /** The samples whose centres lie between lo and hi. */
  function Span(lo: real, hi: real): Range {
    Range((lo + 0.5).Floor, (hi - 0.5).Floor)
  }

  /** The centre of row n, in rows. */
  function Center(n: int): real {
    n as real + 0.5
  }

  /** The input rows under output row n when enlarging; radius is in output rows. */
  function RangeUp(n: int, radius: real, scale: real): Range
    requires scale > 0.0
  {
    Span((Center(n) - radius) / scale, (Center(n) + radius) / scale)
  }

  /** The output rows under input row n when reducing; radius is in input rows. */
  function RangeDown(n: int, radius: real, scale: real): Range {
    Span((Center(n) - radius) * scale, (Center(n) + radius) * scale)
  }

  /** Both are windows of half-width s around a centre that moves by step per row. */
  function Window(n: int, step: real, s: real): Range {
    Span(Center(n) * step - s, Center(n) * step + s)
  }

  lemma RangeUpIsWindow(n: int, scale: real, s: real)
    requires scale > 1.0
    ensures RangeUp(n, s * scale, scale) == Window(n, Step(scale), s)
  {
    hide RangeUp, Window, Step;
    UpIsWindow(n, s, s * scale, scale, Step(scale));
  }

  lemma UpIsWindow(n: int, s: real, radius: real, scale: real, step: real)
    requires scale > 1.0 && radius == s * scale && step == Step(scale)
    ensures RangeUp(n, radius, scale) == Window(n, step, s)
  {
    hide RangeUp, Window, Center, Step;
    Divide(Center(n), s, radius, scale, step);
    SameSpan(n, s, radius, scale, step);
  }

  lemma SameSpan(n: int, s: real, radius: real, scale: real, step: real)
    requires scale > 0.0
    requires (Center(n) - radius) / scale == Center(n) * step - s
    requires (Center(n) + radius) / scale == Center(n) * step + s
    ensures RangeUp(n, radius, scale) == Window(n, step, s)
  {
    hide Span, Center;
  }

  lemma Divide(c: real, s: real, radius: real, scale: real, step: real)
    requires scale > 1.0 && radius == s * scale && step == Step(scale)
    ensures (c - radius) / scale == c * step - s && (c + radius) / scale == c * step + s
  {
    Inverse(scale);
    RealAssoc(c, step, scale);
    hide Step;
    MinusTimes(c * step, s, scale);
    PlusTimes(c * step, s, scale);
    RealQuotient(c - radius, c * step - s, scale);
    RealQuotient(c + radius, c * step + s, scale);
  }

  lemma Inverse(scale: real)
    requires scale > 1.0
    ensures Step(scale) * scale == 1.0
  {
  }

  lemma RealAssoc(a: real, b: real, c: real)
    ensures a * b * c == a * (b * c)
  {
  }

  lemma RealQuotient(a: real, q: real, d: real)
    requires d > 0.0 && a == q * d
    ensures a / d == q
  {
  }

  lemma RangeDownIsWindow(n: int, scale: real, s: real)
    requires scale > 0.0
    ensures RangeDown(n, s / scale, scale) == Window(n, scale, s)
  {
    hide RangeDown, Window;
    DownIsWindow(n, s, s / scale, scale);
  }

  lemma DownIsWindow(n: int, s: real, radius: real, scale: real)
    requires scale > 0.0 && radius == s / scale
    ensures RangeDown(n, radius, scale) == Window(n, scale, s)
  {
    hide Span, Center;
    Multiply(Center(n), s, radius, scale);
  }

  lemma Multiply(c: real, s: real, radius: real, scale: real)
    requires scale > 0.0 && radius == s / scale
    ensures (c - radius) * scale == c * scale - s && (c + radius) * scale == c * scale + s
  {
    assert radius * scale == s;
    MinusTimes(c, radius, scale);
    PlusTimes(c, radius, scale);
  }

  lemma MinusTimes(a: real, b: real, d: real)
    ensures (a - b) * d == a * d - b * d
  {
  }

  lemma PlusTimes(a: real, b: real, d: real)
    ensures (a + b) * d == a * d + b * d
  {
  }

  lemma FloorBounds(x: real)
    ensures x.Floor as real <= x < x.Floor as real + 1.0
  {
  }

  lemma FloorUnique(x: real, n: int)
    requires n as real <= x < n as real + 1.0
    ensures x.Floor == n
  {
  }

  lemma FloorAtLeast(x: real, n: int)
    requires n as real <= x
    ensures n <= x.Floor
  {
  }

  lemma FloorBelow(x: real, n: int)
    requires x < n as real + 1.0
    ensures x.Floor <= n
  {
  }

  lemma FloorMono(x: real, y: real)
    requires x <= y
    ensures x.Floor <= y.Floor
  {
  }

  /** A window is never empty and never wider than its filter. */
  lemma WindowWidth(n: int, step: real, s: real)
    requires s >= 0.5
    ensures var r := Window(n, step, s);
            r.first <= r.last && r.last - r.first + 1 <= Ceil(2.0 * s)
  {
    hide Center;
    SpanWidth(Center(n) * step, s);
  }

  lemma SpanWidth(c: real, s: real)
    requires s >= 0.5
    ensures var r := Span(c - s, c + s);
            r.first <= r.last && r.last - r.first + 1 <= Ceil(2.0 * s)
  {
    FloorMono(c - s + 0.5, c + s - 0.5);
    FloorBounds(c - s + 0.5);
    FloorBounds(c + s - 0.5);
    FloorBounds(-(2.0 * s));
  }

  /** The next window starts and ends no earlier, and at most one row later. */
  lemma WindowStep(n: int, step: real, s: real)
    requires 0.0 < step <= 1.0
    ensures var r, q := Window(n, step, s), Window(n + 1, step, s);
            r.first <= q.first <= r.first + 1 && r.last <= q.last <= r.last + 1
  {
    NextCenter(n, step);
    hide Center, Span;
    SpanStep(Center(n) * step, step, s, Center(n + 1) * step);
  }

  lemma NextCenter(n: int, step: real)
    ensures Center(n + 1) * step == Center(n) * step + step
  {
    assert Center(n + 1) == Center(n) + 1.0;
    hide Center;
    PlusTimes(Center(n), 1.0, step);
  }

  lemma SpanStep(c: real, step: real, s: real, d: real)
    requires 0.0 < step <= 1.0 && d == c + step
    ensures var r, q := Span(c - s, c + s), Span(d - s, d + s);
            r.first <= q.first <= r.first + 1 && r.last <= q.last <= r.last + 1
  {
    FloorStep(c - s + 0.5, step);
    FloorStep(c + s - 0.5, step);
  }

  lemma FloorStep(x: real, step: real)
    requires 0.0 < step <= 1.0
    ensures x.Floor <= (x + step).Floor <= x.Floor + 1
  {
    FloorMono(x, x + step);
    FloorMono(x + step, x + 1.0);
    FloorUnique(x + 1.0, x.Floor + 1);
  }

  lemma {:induction false} WindowMono(m: int, n: int, step: real, s: real)
    requires 0.0 < step <= 1.0 && m <= n
    ensures Window(m, step, s).first <= Window(n, step, s).first && Window(m, step, s).last <= Window(n, step, s).last
    decreases n - m
  {
    if m < n {
      WindowMono(m, n - 1, step, s);
      WindowStep(n - 1, step, s);
    }
  }

  // ---- The ring ----

  /** The slot of scanline k. */
  function SlotOf(begin: int, first: int, n: nat, k: int): (i: nat)
    requires n > 0 && 0 <= begin < n && first <= k
    ensures i < n
  {
    (begin + (k - first)) % n
  }

  /** Scanlines first..last, scanline k in slot (begin + k - first) mod N; begin is -1
      when there is none. */
  class Ring<T(0)> {
    const slots: array<T>
    var begin: int
    var first: int
    var last: int

    ghost predicate Valid()
      reads this
    {
      slots.Length > 0 && -1 <= begin < slots.Length &&
      (begin >= 0 ==> first <= last < first + slots.Length)
    }

    predicate Empty()
      reads this
    {
      begin < 0
    }

    /** `stbir__get_ring_buffer_scanline`. */
    function Slot(k: int): (i: nat)
      requires Valid() && !Empty() && first <= k < first + slots.Length
      reads this
      ensures i < slots.Length
    {
      SlotOf(begin, first, slots.Length, k)
    }

    /** What is stored for scanline k. */
    ghost function At(k: int): T
      requires Valid() && !Empty() && first <= k <= last
      reads this, slots
    {
      slots[Slot(k)]
    }

    constructor (n: nat)
      requires n > 0
      ensures Valid() && Empty() && slots.Length == n && fresh(slots)
    {
      slots := new T[n];
      begin, first, last := -1, 0, 0;
    }

    /** `stbir__add_empty_ring_buffer_entry`, storing v where the source clears the slot;
        the source's assertion is the bound on the window. */
    method Add(n: int, v: T)
      requires Valid() && (!Empty() ==> n == last + 1 && n < first + slots.Length)
      modifies this, slots
      ensures Valid() && !Empty() && last == n && first == if old(Empty()) then n else old(first)
      ensures At(n) == v
      ensures !old(Empty()) ==> forall k :: first <= k < n ==> At(k) == old(At(k))
    {
      hide SlotOf;
      var index;
      if begin < 0 {
        begin := 0;
        first := n;
        index := 0;
        FirstSlot(n, slots.Length);
      } else {
        index := SlotOf(begin, first, slots.Length, n);
        FirstSlotOf(begin, first, slots.Length);
        AllDiffer(begin, first, slots.Length, n);
        assert index != begin;
      }
      last := n;
      slots[index] := v;
    }

    /** Overwrites one scanline in its slot. */
    method Put(k: int, v: T)
      requires Valid() && !Empty() && first <= k <= last
      modifies slots
      ensures At(k) == v && forall j :: first <= j <= last && j != k ==> At(j) == old(At(j))
    {
      hide SlotOf;
      forall j | first <= j <= last && j != k
        ensures SlotOf(begin, first, slots.Length, j) != SlotOf(begin, first, slots.Length, k)
      {
        if j < k {
          SlotsDiffer(begin, first, slots.Length, j, k);
        } else {
          SlotsDiffer(begin, first, slots.Length, k, j);
        }
      }
      slots[Slot(k)] := v;
    }

    /** Reads one scanline from its slot. */
    method Get(k: int) returns (v: T)
      requires Valid() && !Empty() && first <= k <= last
      ensures v == At(k)
    {
      v := slots[Slot(k)];
    }

    /** Drops the first scanline; the ring becomes empty when it was the only one. */
    method Pop()
      requires Valid() && !Empty()
      modifies this
      ensures Valid()
      ensures if old(first) == old(last) then Empty() else
                !Empty() && first == old(first) + 1 && last == old(last) &&
                forall k :: first <= k <= last ==> At(k) == old(At(k))
    {
      if first == last {
        begin, first, last := -1, 0, 0;
      } else {
        hide SlotOf;
        AllShift(begin, first, slots.Length, last);
        first := first + 1;
        begin := (begin + 1) % slots.Length;
      }
    }
  }

  /** Scanlines less than N apart have different slots. */
  lemma SlotsDiffer(begin: int, first: int, n: nat, j: int, k: int)
    requires 0 <= begin < n && first <= j < k < first + n
    ensures SlotOf(begin, first, n, j) != SlotOf(begin, first, n, k)
  {
    ModDiff(begin + (j - first), begin + (k - first), n);
  }

  lemma AllDiffer(begin: int, first: int, n: nat, k: int)
    requires 0 <= begin < n && first <= k < first + n
    ensures forall j :: first <= j < k ==> SlotOf(begin, first, n, j) != SlotOf(begin, first, n, k)
  {
    forall j | first <= j < k
      ensures SlotOf(begin, first, n, j) != SlotOf(begin, first, n, k)
    {
      SlotsDiffer(begin, first, n, j, k);
    }
  }

  lemma FirstSlot(k: int, n: nat)
    requires n > 0
    ensures SlotOf(0, k, n, k) == 0
  {
  }

  lemma FirstSlotOf(begin: int, first: int, n: nat)
    requires 0 <= begin < n
    ensures SlotOf(begin, first, n, first) == begin
  {
    ModOnce(begin, n);
  }

  /** Dropping the first scanline leaves the others where they are. */
  lemma AllShift(b: int, f: int, n: nat, last: int)
    requires 0 <= b < n && f < last < f + n
    ensures 0 <= (b + 1) % n < n
    ensures forall k :: f + 1 <= k <= last ==> SlotOf((b + 1) % n, f + 1, n, k) == SlotOf(b, f, n, k)
  {
    forall k | f + 1 <= k <= last
      ensures SlotOf((b + 1) % n, f + 1, n, k) == SlotOf(b, f, n, k)
    {
      SlotShift(b, k - f, n);
    }
  }

  lemma ModDiff(x: int, y: int, n: nat)
    requires 0 <= x < y < x + n && y < 2 * n
    ensures x % n != y % n
  {
    ModOnce(x, n);
    ModOnce(y, n);
  }

  lemma ModOnce(x: int, n: nat)
    requires 0 <= x < 2 * n
    ensures x % n == if x < n then x else x - n
  {
    if x >= n {
      assert x == 1 * n + (x - n);
      DivUnique(x, n, 1, x - n);
    }
  }

  lemma SlotShift(b: int, d: int, n: nat)
    requires 0 <= b < n && 1 <= d < n
    ensures ((b + 1) % n + (d - 1)) % n == (b + d) % n
  {
    ModOnce(b + 1, n);
    ModOnce(b + d, n);
    ModOnce((b + 1) % n + (d - 1), n);
  }

  // ---- Enlarging ----

  /** The ring holds exactly the scanlines of its window. */
  ghost predicate Holds(ring: Ring<int>)
    reads ring, ring.slots
  {
    ring.Valid() && (!ring.Empty() ==> forall k :: ring.first <= k <= ring.last ==> ring.At(k) == k)
  }

  /** The scanlines one output row is computed from. */
  method ResampleVerticalUpsample(ring: Ring<int>, first: int, last: int) returns (row: seq<int>)
    requires Holds(ring) && !ring.Empty() && ring.first <= first && last <= ring.last
    ensures row == Interval(first, last)
  {
    row := [];
    var k := first;
    while k <= last
      invariant first <= k && (if first > last then k == first else k <= last + 1) && row == Interval(first, k - 1)
      decreases last - k
    {
      var v := ring.Get(k);
      row := row + [v];
      k := k + 1;
    }
    assert row == Interval(first, last);
  }

  /** One round: drops scanlines before the range, then loads up to its end. */
  method Slide(ring: Ring<int>, r: Range)
    requires Holds(ring) && r.first <= r.last < r.first + ring.slots.Length
    requires !ring.Empty() ==> ring.first <= r.first && ring.last <= r.last
    modifies ring, ring.slots
    ensures Holds(ring) && !ring.Empty() && ring.first == r.first && ring.last == r.last
  {
    while !ring.Empty() && r.first > ring.first
      invariant Holds(ring) && (!ring.Empty() ==> ring.first <= r.first && ring.last <= r.last)
      decreases if ring.Empty() then 0 else 1 + r.first - ring.first
    {
      ring.Pop();
    }
    if ring.Empty() {
      ring.Add(r.first, r.first);
    }
    while r.last > ring.last
      invariant Holds(ring) && !ring.Empty() && ring.first == r.first && ring.last <= r.last
      decreases r.last - ring.last
    {
      ring.Add(ring.last + 1, ring.last + 1);
    }
  }

  /** The contributors of every output row lie inside its range; zero weights at either
      end are trimmed off it. */
  ghost predicate Trimmed(contrib: int -> Range, radius: real, scale: real)
    requires scale > 0.0
  {
    forall y :: RangeUp(y, radius, scale).first <= contrib(y).first && contrib(y).last <= RangeUp(y, radius, scale).last
  }

  /** Each output row was computed from exactly its contributors. */
  ghost predicate RowsUp(rows: seq<seq<int>>, contrib: int -> Range) {
    forall y :: 0 <= y < |rows| ==> rows[y] == Interval(contrib(y).first, contrib(y).last)
  }

  /** The ring's window is that of the given row. */
  ghost predicate Shows(ring: Ring<int>, y: int, step: real, s: real)
    reads ring, ring.slots
  {
    Holds(ring) && !ring.Empty() && Range(ring.first, ring.last) == Window(y, step, s)
  }

  /** `vertical_scale` for the whole image. */
  function Scale(inputH: nat, outputH: nat): (scale: real)
    requires inputH > 0
    ensures inputH < outputH ==> scale > 1.0
    ensures 0 < outputH <= inputH ==> 0.0 < scale <= 1.0
  {
    outputH as real / inputH as real
  }

  /** The input rows per output row. */
  function Step(scale: real): (step: real)
    requires scale > 1.0
    ensures 0.0 < step <= 1.0
  {
    1.0 / scale
  }

  function RadiusUp(f: Filter, scale: real): real
    requires scale > 1.0
  {
    Support(f, Step(scale)) * scale
  }

  /** `stbir__buffer_loop_upsample`: every output row is computed from its own
      contributors, whatever slots they are in. */
  method BufferLoopUpsample(f: Filter, inputH: nat, outputH: nat, contrib: int -> Range) returns (rows: seq<seq<int>>)
    requires 0 < inputH < outputH
    requires Trimmed(contrib, RadiusUp(f, Scale(inputH, outputH)), Scale(inputH, outputH))
    ensures |rows| == outputH && RowsUp(rows, contrib)
  {
    hide Scale, RowsUp, Support, Step, Trimmed;
    var scale := Scale(inputH, outputH);
    var s := Support(f, Step(scale));
    assert RadiusUp(f, scale) == s * scale;
    rows := LoopUp(s, scale, outputH, contrib);
  }

  method LoopUp(s: real, scale: real, outputH: nat, contrib: int -> Range) returns (rows: seq<seq<int>>)
    requires scale > 1.0 && s >= 0.5 && Trimmed(contrib, s * scale, scale)
    ensures |rows| == outputH && RowsUp(rows, contrib)
  {
    hide Support, Step, Ceil, Window, RangeUp, Shows, RowsUp, Holds, Trimmed;
    var width := Ceil(s * 2.0);
    WidthPositive(s);
    NoRows(contrib);
    var ring := new Ring<int>(width + 1);
    assert Holds(ring) by { HoldsNothing(ring); }
    rows := [];
    for y := 0 to outputH
      invariant fresh(ring) && fresh(ring.slots) && ring.slots.Length == width + 1
      invariant if y == 0 then Holds(ring) && ring.Empty() else Shows(ring, y - 1, Step(scale), s)
      invariant |rows| == y && RowsUp(rows, contrib)
    {
      TrimmedAt(contrib, s * scale, scale, y);
      var row := RoundUp(ring, y, s, scale, contrib(y));
      MoreRows(rows, row, contrib);
      rows := rows + [row];
    }
  }

  lemma TrimmedAt(contrib: int -> Range, radius: real, scale: real, y: int)
    requires scale > 0.0 && Trimmed(contrib, radius, scale)
    ensures RangeUp(y, radius, scale).first <= contrib(y).first && contrib(y).last <= RangeUp(y, radius, scale).last
  {
  }

  lemma WidthPositive(s: real)
    requires s >= 0.5
    ensures 1 <= Ceil(s * 2.0)
  {
    FloorBounds(-(s * 2.0));
  }

  lemma HoldsNothing(ring: Ring<int>)
    requires ring.Valid() && ring.Empty()
    ensures Holds(ring)
  {
  }

  lemma NoRows(contrib: int -> Range)
    ensures RowsUp([], contrib)
  {
  }

  lemma MoreRows(rows: seq<seq<int>>, row: seq<int>, contrib: int -> Range)
    requires RowsUp(rows, contrib) && row == Interval(contrib(|rows|).first, contrib(|rows|).last)
    ensures RowsUp(rows + [row], contrib)
  {
    hide Interval;
  }

  /** One output row, from the scanlines its contributors n name. */
  method RoundUp(ring: Ring<int>, y: nat, s: real, scale: real, n: Range) returns (row: seq<int>)
    requires scale > 1.0 && s >= 0.5 && ring.slots.Length == Ceil(s * 2.0) + 1
    requires if y == 0 then Holds(ring) && ring.Empty() else Shows(ring, y - 1, Step(scale), s)
    requires RangeUp(y, s * scale, scale).first <= n.first && n.last <= RangeUp(y, s * scale, scale).last
    modifies ring, ring.slots
    ensures Shows(ring, y, Step(scale), s) && row == Interval(n.first, n.last)
  {
    hide Window, RangeUp, Ceil, Step;
    var r := RangeUp(y, s * scale, scale);
    RangeUpIsWindow(y, scale, s);
    WindowWidth(y, Step(scale), s);
    if y > 0 {
      WindowStep(y - 1, Step(scale), s);
    }
    Slide(ring, r);
    row := ResampleVerticalUpsample(ring, n.first, n.last);
  }

  // ---- Reducing ----

  /** A finished output row and the input rows added into it, in order. */
  datatype Encoded = Encoded(row: int, from: seq<int>)

  /** The input rows from lo up to hi that contribute to output row k. */
  ghost function Contributions(contrib: int -> Range, k: int, lo: int, hi: int): seq<int>
    decreases hi - lo
  {
    if hi <= lo then []
    else Contributions(contrib, k, lo, hi - 1) +
         if contrib(hi - 1).first <= k <= contrib(hi - 1).last then [hi - 1] else []
  }

  lemma {:induction false} NoMore(contrib: int -> Range, k: int, lo: int, mid: int, hi: int)
    requires lo <= mid <= hi && forall y :: mid <= y < hi ==> !(contrib(y).first <= k <= contrib(y).last)
    ensures Contributions(contrib, k, lo, hi) == Contributions(contrib, k, lo, mid)
    decreases hi - mid
  {
    if mid < hi {
      NoMore(contrib, k, lo, mid, hi - 1);
    }
  }

  function Clamp(x: int, h: nat): (n: nat)
    ensures n <= h
  {
    if x < 0 then 0 else if x > h then h else x
  }

  /** The contributors of every input row: inside its range and inside the image. */
  ghost predicate Setup(contrib: int -> Range, outputH: nat, step: real, s: real) {
    forall y ::
      Window(y, step, s).first <= contrib(y).first && contrib(y).last <= Window(y, step, s).last &&
      0 <= contrib(y).first && contrib(y).last < outputH
  }

  /** Rows 0..n - 1, each with everything it will ever receive. */
  ghost function Done(contrib: int -> Range, lo: int, hi: int, n: nat): (r: seq<Encoded>)
    ensures |r| == n && forall k :: 0 <= k < n ==> r[k] == Encoded(k, Contributions(contrib, k, lo, hi))
  {
    seq(n, k => Encoded(k, Contributions(contrib, k, lo, hi)))
  }

  /** Slot k has received the rows before y. */
  ghost predicate Gathers(ring: Ring<seq<int>>, contrib: int -> Range, lo: int, y: int)
    reads ring, ring.slots
  {
    ring.Valid() &&
    (!ring.Empty() ==> forall k :: ring.first <= k <= ring.last ==> ring.At(k) == Contributions(contrib, k, lo, y))
  }

  /** `stbir__empty_ring_buffer`: encodes and drops rows before need, those outside the
      output without encoding. */
  method EmptyRingBuffer(ring: Ring<seq<int>>, need: int, outputH: nat, log: seq<Encoded>,
                         ghost contrib: int -> Range, ghost lo: int, ghost y: int, ghost hi: int)
    returns (log': seq<Encoded>)
    requires Gathers(ring, contrib, lo, y)
    requires forall k :: k < need && k < outputH ==>
              Contributions(contrib, k, lo, y) == Contributions(contrib, k, lo, hi)
    requires !ring.Empty() ==> log == Done(contrib, lo, hi, Clamp(ring.first, outputH))
    modifies ring
    ensures Gathers(ring, contrib, lo, y)
    ensures old(ring.Empty()) ==> ring.Empty() && log' == log
    ensures !old(ring.Empty()) ==>
              (if need > old(ring.last) then ring.Empty()
               else !ring.Empty() && ring.last == old(ring.last) &&
                    ring.first == if need > old(ring.first) then need else old(ring.first)) &&
              log' == Done(contrib, lo, hi,
                  Clamp(if need > old(ring.last) then old(ring.last) + 1 else ring.first, outputH))
  {
    hide Contributions, Done;
    log' := log;
    ghost var last := ring.last;
    while !ring.Empty() && need > ring.first
      invariant Gathers(ring, contrib, lo, y)
      invariant old(ring.Empty()) ==> ring.Empty() && log' == log
      invariant !old(ring.Empty()) && ring.Empty() ==>
                  need > last && log' == Done(contrib, lo, hi, Clamp(last + 1, outputH))
      invariant !ring.Empty() ==>
                  !old(ring.Empty()) && ring.last == last && old(ring.first) <= ring.first &&
                  (ring.first <= need || ring.first == old(ring.first)) &&
                  log' == Done(contrib, lo, hi, Clamp(ring.first, outputH))
      decreases if ring.Empty() then 0 else 1 + need - ring.first
    {
      log' := EncodeFirst(ring, outputH, log', contrib, lo, y, hi);
      ring.Pop();
    }
  }

  /** `stbir__encode_scanline` for the first row in the ring, when it is in the image. */
  method EncodeFirst(ring: Ring<seq<int>>, outputH: nat, log: seq<Encoded>,
                     ghost contrib: int -> Range, ghost lo: int, ghost y: int, ghost hi: int)
    returns (log': seq<Encoded>)
    requires Gathers(ring, contrib, lo, y) && !ring.Empty()
    requires ring.first < outputH ==>
               Contributions(contrib, ring.first, lo, y) == Contributions(contrib, ring.first, lo, hi)
    requires log == Done(contrib, lo, hi, Clamp(ring.first, outputH))
    ensures log' == Done(contrib, lo, hi, Clamp(ring.first + 1, outputH))
  {
    hide Contributions;
    log' := log;
    if 0 <= ring.first < outputH {
      var content := ring.Get(ring.first);
      log' := log + [Encoded(ring.first, content)];
    }
  }

  /** Adds input row y into the output rows it contributes to. */
  method ResampleVerticalDownsample(ring: Ring<seq<int>>, y: int, n0: int, n1: int,
                                   ghost contrib: int -> Range, ghost lo: int)
    requires Gathers(ring, contrib, lo, y) && !ring.Empty() && lo <= y && contrib(y) == Range(n0, n1)
    requires ring.first <= n0 && n1 <= ring.last
    modifies ring.slots
    ensures Gathers(ring, contrib, lo, y + 1)
  {
    hide Contributions;
    OneMore(contrib, lo, y);
    var k := n0;
    while k <= n1
      invariant n0 <= k && (k <= n1 + 1 || n0 > n1)
      invariant forall j :: ring.first <= j <= ring.last ==>
                  ring.At(j) ==
                  if n0 <= j < k then Contributions(contrib, j, lo, y + 1) else Contributions(contrib, j, lo, y)
      decreases n1 - k
    {
      var content := ring.Get(k);
      ring.Put(k, content + [y]);
      k := k + 1;
    }
  }

  lemma OneMore(contrib: int -> Range, lo: int, y: int)
    requires lo <= y
    ensures forall k :: Contributions(contrib, k, lo, y + 1) ==
                        if contrib(y).first <= k <= contrib(y).last then Contributions(contrib, k, lo, y) + [y]
                        else Contributions(contrib, k, lo, y)
  {
  }

  /** Rows that no window has reached have received nothing. */
  lemma {:induction false} Untouched(contrib: int -> Range, outputH: nat, step: real, s: real, lo: int, y: int, k: int)
    requires Setup(contrib, outputH, step, s) && 0.0 < step <= 1.0 && lo <= y
    requires y == lo || k < 0 || k > Window(y - 1, step, s).last
    ensures Contributions(contrib, k, lo, y) == []
    decreases y - lo
  {
    hide Window;
    if lo < y {
      if lo < y - 1 {
        WindowMono(y - 2, y - 1, step, s);
      }
      Untouched(contrib, outputH, step, s, lo, y - 1, k);
    }
  }

  /** Rows before the current window will receive nothing more. */
  lemma Finished(contrib: int -> Range, outputH: nat, step: real, s: real, lo: int, y: int, hi: int, k: int)
    requires Setup(contrib, outputH, step, s) && 0.0 < step <= 1.0 && lo <= y <= hi && k < Window(y, step, s).first
    ensures Contributions(contrib, k, lo, y) == Contributions(contrib, k, lo, hi)
  {
    hide Window, Contributions;
    forall j | y <= j < hi
      ensures !(contrib(j).first <= k <= contrib(j).last)
    {
      WindowMono(y, j, step, s);
    }
    NoMore(contrib, k, lo, y, hi);
  }

  /** What the loop knows before row y: nothing has begun, or the ring shows the window of
      the last row used, and only rows past the image's end have been skipped since. */
  ghost predicate Reducing(ring: Ring<seq<int>>, log: seq<Encoded>, contrib: int -> Range, outputH: nat,
                           step: real, s: real, lo: int, y: int, hi: int)
    reads ring, ring.slots
  {
    Gathers(ring, contrib, lo, y) &&
    if ring.Empty() then log == [] && (y == lo || Window(y - 1, step, s).last < 0)
    else
      log == Done(contrib, lo, hi, Clamp(ring.first, outputH)) &&
      ring.last >= 0 && lo < y && ring.last <= Window(y - 1, step, s).last &&
      (Range(ring.first, ring.last) == Window(y - 1, step, s) ||
       (ring.last >= outputH - 1 && Window(y - 1, step, s).first >= outputH))
  }

  /** Appends empty entries up to the end of the range. */
  method AddEntries(ring: Ring<seq<int>>, r: Range, ghost contrib: int -> Range, ghost lo: int, ghost y: int)
    requires Gathers(ring, contrib, lo, y) && r.first <= r.last < r.first + ring.slots.Length
    requires !ring.Empty() ==> ring.first == r.first && ring.last <= r.last
    requires forall k :: (if ring.Empty() then r.first else ring.last + 1) <= k <= r.last ==>
              Contributions(contrib, k, lo, y) == []
    modifies ring, ring.slots
    ensures Gathers(ring, contrib, lo, y) && !ring.Empty() && ring.first == r.first && ring.last == r.last
  {
    hide Contributions;
    if ring.Empty() {
      ring.Add(r.first, []);
    }
    while r.last > ring.last
      invariant Gathers(ring, contrib, lo, y) && !ring.Empty() && ring.first == r.first && ring.last <= r.last
      invariant forall k :: ring.last < k <= r.last ==> Contributions(contrib, k, lo, y) == []
      decreases r.last - ring.last
    {
      ring.Add(ring.last + 1, []);
    }
  }

  /** One input row that reaches the image. */
  method ReduceRow(ring: Ring<seq<int>>, log: seq<Encoded>, outputH: nat, step: real, s: real, y: int,
                   ghost contrib: int -> Range, n0: int, n1: int, ghost lo: int, ghost hi: int)
    returns (log': seq<Encoded>)
    requires Setup(contrib, outputH, step, s) && contrib(y) == Range(n0, n1) && 0.0 < step <= 1.0 && s >= 0.5
    requires Ceil(2.0 * s) < ring.slots.Length && lo <= y < hi && Window(lo, step, s).first <= 0
    requires Reducing(ring, log, contrib, outputH, step, s, lo, y, hi)
    requires Window(y, step, s).last >= 0 && Window(y, step, s).first < outputH
    modifies ring, ring.slots
    ensures Reducing(ring, log', contrib, outputH, step, s, lo, y + 1, hi) && !ring.Empty()
  {
    hide Window, Ceil, Contributions, Setup, Done;
    var r := Window(y, step, s);
    WindowWidth(y, step, s);
    if y > lo {
      WindowStep(y - 1, step, s);
    }
    forall k | k < r.first
      ensures Contributions(contrib, k, lo, y) == Contributions(contrib, k, lo, hi)
    {
      Finished(contrib, outputH, step, s, lo, y, hi, k);
    }
    log' := EmptyRingBuffer(ring, r.first, outputH, log, contrib, lo, y, hi);
    forall k | (if ring.Empty() then r.first else ring.last + 1) <= k <= r.last
      ensures Contributions(contrib, k, lo, y) == []
    {
      Untouched(contrib, outputH, step, s, lo, y, k);
    }
    AddEntries(ring, r, contrib, lo, y);
    assert r.first <= n0 && n1 <= r.last by { WithinWindow(contrib, outputH, step, s, y); }
    ResampleVerticalDownsample(ring, y, n0, n1, contrib, lo);
    assert log' == Done(contrib, lo, hi, Clamp(ring.first, outputH)) by {
      NoneDone(contrib, lo, hi);
    }
  }

  lemma NoneDone(contrib: int -> Range, lo: int, hi: int)
    ensures Done(contrib, lo, hi, 0) == []
  {
  }

  lemma WithinWindow(contrib: int -> Range, outputH: nat, step: real, s: real, y: int)
    requires Setup(contrib, outputH, step, s)
    ensures Window(y, step, s).first <= contrib(y).first && contrib(y).last <= Window(y, step, s).last
    ensures 0 <= contrib(y).first && contrib(y).last < outputH
  {
  }

  /** A row outside the image changes nothing. */
  lemma SkipRow(ring: Ring<seq<int>>, log: seq<Encoded>, contrib: int -> Range, outputH: nat,
                step: real, s: real, lo: int, y: int, hi: int)
    requires Setup(contrib, outputH, step, s) && 0.0 < step <= 1.0 && s >= 0.5 && lo <= y < hi
    requires Window(y, step, s).last < 0 || Window(y, step, s).first >= outputH > 0
    requires Window(lo, step, s).first <= 0
    requires Reducing(ring, log, contrib, outputH, step, s, lo, y, hi)
    ensures Reducing(ring, log, contrib, outputH, step, s, lo, y + 1, hi)
  {
    hide Window, Contributions, Setup, Done;
    WithinWindow(contrib, outputH, step, s, y);
    OneMore(contrib, lo, y);
    WindowWidth(y, step, s);
    if y > lo {
      WindowStep(y - 1, step, s);
      WindowWidth(y - 1, step, s);
    }
  }

  lemma LastRow(ring: Ring<seq<int>>, log: seq<Encoded>, contrib: int -> Range, outputH: nat,
                step: real, s: real, lo: int, hi: int)
    requires Reducing(ring, log, contrib, outputH, step, s, lo, hi, hi) && lo < hi && outputH > 0
    requires Window(hi - 1, step, s).last >= outputH - 1
    ensures !ring.Empty() && ring.last >= outputH - 1
  {
    hide Window, Contributions, Done;
  }

  /** The first row's window starts at or before row 0. */
  lemma ReachFirst(margin: int, step: real, s: real)
    requires margin >= 0 && 0.0 < step <= 1.0 && s >= 0.5
    ensures Window(-margin, step, s).first <= 0
  {
    var a := ((-margin) as real + 0.5) * step - s + 0.5;
    assert a < 1.0 by { Below(margin as real, step, s); }
    FloorBelow(a, 0);
  }

  /** The last row's window reaches the last output row. */
  lemma ReachLast(inputH: nat, outputH: nat, margin: int, step: real, s: real)
    requires margin >= 0 && 0.0 < step <= 1.0 && s >= 0.5 && inputH as real * step == outputH as real
    ensures Window(inputH + margin - 1, step, s).last >= outputH - 1
  {
    var h := inputH + margin - 1;
    var b := (h as real + 0.5) * step + s - 0.5;
    assert h as real == inputH as real + margin as real - 1.0;
    Above(inputH as real, outputH as real, margin as real, step, s);
    FloorAtLeast(b, outputH - 1);
  }

  lemma ScaleTimes(inputH: nat, outputH: nat)
    requires inputH > 0
    ensures inputH as real * Scale(inputH, outputH) == outputH as real
  {
  }

  lemma Below(margin: real, step: real, s: real)
    requires 0.0 < step <= 1.0 && s >= 0.5 && margin >= 0.0
    ensures (-margin + 0.5) * step - s + 0.5 < 1.0
  {
    Product(margin, step);
    assert (-margin + 0.5) * step == 0.5 * step - margin * step;
  }

  lemma Above(inputH: real, outputH: real, margin: real, step: real, s: real)
    requires 0.0 < step <= 1.0 && s >= 0.5 && margin >= 0.0 && inputH * step == outputH
    ensures (inputH + margin - 1.0 + 0.5) * step + s - 0.5 >= outputH - 1.0
  {
    Product(margin, step);
    assert (inputH + margin - 1.0 + 0.5) * step == inputH * step + margin * step - 0.5 * step;
  }

  /** `stbir__get_filter_pixel_width` when reducing. */
  function PixelWidth(f: Filter, scale: real): (w: nat)
    requires 0.0 < scale <= 1.0
    ensures Ceil(2.0 * Support(f, scale)) <= w
  {
    WiderByScale(Support(f, scale), scale);
    Ceil(Support(f, scale) * 2.0 / scale)
  }

  lemma WiderByScale(s: real, scale: real)
    requires 0.0 < scale <= 1.0 && s > 0.0
    ensures 0 <= Ceil(2.0 * s) <= Ceil(s * 2.0 / scale)
  {
    var q := s * 2.0 / scale;
    assert q * scale == 2.0 * s;
    QuotientAtLeast(q, 2.0 * s, scale);
    FloorMono(-q, -(2.0 * s));
    FloorMono(-(2.0 * s), 0.0);
  }

  lemma QuotientAtLeast(q: real, p: real, d: real)
    requires 0.0 < d <= 1.0 && q * d == p && p > 0.0
    ensures q >= p
  {
    NotNegative(q, d);
    Product(q, 1.0 - d);
    Distribute(q, d);
  }

  lemma NotNegative(q: real, d: real)
    requires d > 0.0 && q * d > 0.0
    ensures q >= 0.0
  {
    if q < 0.0 {
      Product(-q, d);
    }
  }

  lemma Distribute(q: real, d: real)
    ensures q * (1.0 - d) == q - q * d
  {
  }

  lemma Product(a: real, b: real)
    requires a >= 0.0 && b >= 0.0
    ensures a * b >= 0.0
  {
  }

  /** The rows visited above and below the input. */
  function Margin(f: Filter, scale: real): (m: int)
    requires 0.0 < scale <= 1.0
    ensures m >= 0
  {
    PixelWidth(f, scale) / 2
  }

  /** `stbir__buffer_loop_downsample`: the output rows come out once each, in order, with
      everything any input row contributes to them; contrib is the table of contributors. */
  method BufferLoopDownsample(f: Filter, inputH: nat, outputH: nat, contrib: int -> Range) returns (log: seq<Encoded>)
    requires 0 < outputH <= inputH
    requires Setup(contrib, outputH, Scale(inputH, outputH), Support(f, Scale(inputH, outputH)))
    // Rows beyond the margin could contribute nothing, so any wider range gives the same.
    ensures var margin := Margin(f, Scale(inputH, outputH));
            forall lo, hi :: lo <= -margin && inputH + margin <= hi ==> log == Done(contrib, lo, hi, outputH)
  {
    hide Window, Support, Scale, Ceil, Setup, Contributions, Done, Reducing, Gathers;
    var scale := Scale(inputH, outputH);
    var s := Support(f, scale);
    var width := PixelWidth(f, scale);
    var margin := Margin(f, scale);
    ghost var lo, hi := -margin, inputH + margin;
    ReachFirst(margin, scale, s);
    ScaleTimes(inputH, outputH);
    ReachLast(inputH, outputH, margin, scale, s);
    var ring := new Ring<seq<int>>(width + 1);
    log := [];
    Begin(ring, contrib, outputH, scale, s, lo, hi);
    for y := -margin to inputH + margin
      invariant fresh(ring) && fresh(ring.slots) && ring.slots.Length == width + 1
      invariant Reducing(ring, log, contrib, outputH, scale, s, lo, y, hi)
    {
      var r := RangeDown(y, s / scale, scale);
      RangeDownIsWindow(y, scale, s);
      if r.last < 0 || r.first >= outputH {
        SkipRow(ring, log, contrib, outputH, scale, s, lo, y, hi);
      } else {
        var c := contrib(y);
        log := ReduceRow(ring, log, outputH, scale, s, y, contrib, c.first, c.last, lo, hi);
      }
    }
    LastRow(ring, log, contrib, outputH, scale, s, lo, hi);
    log := Finish(ring, log, outputH, scale, s, contrib, lo, hi);
    forall lo', hi' | lo' <= lo && hi <= hi'
      ensures Done(contrib, lo', hi', outputH) == Done(contrib, lo, hi, outputH)
    {
      MarginSuffices(f, inputH, outputH, contrib, lo', hi');
    }
  }

  /** The margin is wide enough: a row above it ends before the image, a row below it
      starts after. */
  lemma BeyondMargin(f: Filter, inputH: nat, outputH: nat, y: int)
    requires 0 < outputH <= inputH
    ensures var scale := Scale(inputH, outputH);
            var margin, w := Margin(f, scale), Window(y, scale, Support(f, scale));
            (y < -margin ==> w.last < 0) && (y >= inputH + margin ==> w.first >= outputH)
  {
    hide Support, Scale, Window, Margin;
    var scale := Scale(inputH, outputH);
    var s, margin := Support(f, scale), Margin(f, scale);
    MarginReach(f, scale);
    ScaleTimes(inputH, outputH);
    if y < -margin {
      LastAbove(y, margin, scale, s);
    }
    if y >= inputH + margin {
      FirstBelow(y, inputH, outputH, margin, scale, s);
    }
  }

  /** Half the pixel width, rounded down, and half a row reach as far as the support. */
  lemma MarginReach(f: Filter, scale: real)
    requires 0.0 < scale <= 1.0
    ensures (Margin(f, scale) as real + 0.5) * scale >= Support(f, scale)
  {
    hide Support;
    var s, w, margin := Support(f, scale), PixelWidth(f, scale), Margin(f, scale);
    CeilAtLeast(s * 2.0 / scale);
    hide Ceil, Margin, PixelWidth;
    HalfReach(w, margin, s, scale);
  }

  lemma HalfReach(w: nat, margin: int, s: real, scale: real)
    requires 0.0 < scale && w as real >= s * 2.0 / scale && 2 * margin + 1 >= w
    ensures (margin as real + 0.5) * scale >= s
  {
    var q := s * 2.0 / scale;
    assert q * scale == s * 2.0;
    var m := margin as real + 0.5;
    assert m * 2.0 >= q;
    TimesMono(q, m * 2.0, scale);
    Twice(m, scale);
  }

  lemma Twice(m: real, d: real)
    ensures m * 2.0 * d == (m * d) * 2.0
  {
  }

  lemma CeilAtLeast(x: real)
    ensures Ceil(x) as real >= x
  {
    FloorBounds(-x);
  }

  lemma TimesMono(a: real, b: real, d: real)
    requires a <= b && d > 0.0
    ensures a * d <= b * d
  {
    Product(b - a, d);
  }

  lemma LastAbove(y: int, margin: int, scale: real, s: real)
    requires y < -margin && 0.0 < scale && (margin as real + 0.5) * scale >= s
    ensures Window(y, scale, s).last < 0
  {
    TimesMono(y as real + 0.5, -(margin as real + 0.5), scale);
    FloorBelow((y as real + 0.5) * scale + s - 0.5, -1);
  }

  lemma FirstBelow(y: int, inputH: nat, outputH: nat, margin: int, scale: real, s: real)
    requires y >= inputH + margin && 0.0 < scale && (margin as real + 0.5) * scale >= s
    requires inputH as real * scale == outputH as real
    ensures Window(y, scale, s).first >= outputH
  {
    TimesMono(inputH as real + (margin as real + 0.5), y as real + 0.5, scale);
    PlusTimes(inputH as real, margin as real + 0.5, scale);
    FloorAtLeast((y as real + 0.5) * scale - s + 0.5, outputH);
  }

  /** Visiting more rows would add no contribution. */
  lemma MarginSuffices(f: Filter, inputH: nat, outputH: nat, contrib: int -> Range, lo: int, hi: int)
    requires 0 < outputH <= inputH
    requires Setup(contrib, outputH, Scale(inputH, outputH), Support(f, Scale(inputH, outputH)))
    requires lo <= -Margin(f, Scale(inputH, outputH)) && inputH + Margin(f, Scale(inputH, outputH)) <= hi
    ensures var margin := Margin(f, Scale(inputH, outputH));
            Done(contrib, lo, hi, outputH) == Done(contrib, -margin, inputH + margin, outputH)
  {
    hide Support, Scale, Window, Margin, Setup, Contributions, Done;
    var scale := Scale(inputH, outputH);
    var margin, s := Margin(f, scale), Support(f, scale);
    var mid, end := 0 - margin, inputH + margin;
    forall y | lo <= y < mid || end <= y < hi
      ensures contrib(y).first > contrib(y).last
    {
      BeyondMargin(f, inputH, outputH, y);
      WithinWindow(contrib, outputH, scale, s, y);
    }
    forall k: int
      ensures Contributions(contrib, k, lo, hi) == Contributions(contrib, k, mid, end)
    {
      NoMore(contrib, k, lo, end, hi);
      NoneBefore(contrib, k, lo, mid, end);
    }
    SameDone(contrib, lo, hi, mid, end, outputH);
  }

  lemma {:induction false} NoneBefore(contrib: int -> Range, k: int, lo: int, mid: int, hi: int)
    requires lo <= mid <= hi && forall y :: lo <= y < mid ==> !(contrib(y).first <= k <= contrib(y).last)
    ensures Contributions(contrib, k, lo, hi) == Contributions(contrib, k, mid, hi)
    decreases hi - lo
  {
    if mid < hi {
      NoneBefore(contrib, k, lo, mid, hi - 1);
    } else if lo < mid {
      NoneBefore(contrib, k, lo, mid - 1, hi - 1);
    }
  }

  lemma SameDone(contrib: int -> Range, lo: int, hi: int, lo': int, hi': int, n: nat)
    requires forall k: int :: Contributions(contrib, k, lo, hi) == Contributions(contrib, k, lo', hi')
    ensures Done(contrib, lo, hi, n) == Done(contrib, lo', hi', n)
  {
    hide Contributions;
  }

  lemma Begin(ring: Ring<seq<int>>, contrib: int -> Range, outputH: nat, step: real, s: real, lo: int, hi: int)
    requires ring.Valid() && ring.Empty()
    ensures Reducing(ring, [], contrib, outputH, step, s, lo, lo, hi)
  {
  }

  /** The last call of `stbir__empty_ring_buffer`. */
  method Finish(ring: Ring<seq<int>>, log: seq<Encoded>, outputH: nat, step: real, s: real,
                ghost contrib: int -> Range, ghost lo: int, ghost hi: int)
    returns (log': seq<Encoded>)
    requires Reducing(ring, log, contrib, outputH, step, s, lo, hi, hi) && !ring.Empty() && ring.last >= outputH - 1
    modifies ring
    ensures log' == Done(contrib, lo, hi, outputH)
  {
    hide Window, Contributions, Done;
    log' := EmptyRingBuffer(ring, outputH, outputH, log, contrib, lo, hi, hi);
  }
}
