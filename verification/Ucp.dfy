/** The cache-way allocator: smoothing in place, marginal utilities, and the loop that
    hands out ways. */
module Ucp {
  import opened Basics
  import opened UcpSpec

  /** The value that means "no candidate yet". */
  const UNSET := 1000.0

  // ---- Curves in a matrix: one column per application ----

  function Column(m: array2<real>, j: nat): (c: Curve)
    requires j < m.Length1
    reads m
    ensures |c| == m.Length0
  {
    seq(m.Length0, i requires 0 <= i < m.Length0 reads m => m[i, j])
  }

  function Columns(m: array2<real>): (cs: seq<Curve>)
    reads m
    ensures |cs| == m.Length1 && forall j :: 0 <= j < |cs| ==> cs[j] == Column(m, j)
  {
    seq(m.Length1, j requires 0 <= j < m.Length1 reads m => Column(m, j))
  }

  function SmoothAll(cs: seq<Curve>): (r: seq<Curve>)
    ensures |r| == |cs| && forall j :: 0 <= j < |cs| ==> r[j] == Smooth(cs[j])
  {
    seq(|cs|, j requires 0 <= j < |cs| => Smooth(cs[j]))
  }

  /** `smoothenMRCs`: every entry becomes the least of its column so far. */
  method SmoothenMRCs(m: array2<real>)
    modifies m
    ensures Columns(m) == SmoothAll(old(Columns(m)))
  {
    ghost var cs := Columns(m);
    for j := 0 to m.Length1
      invariant forall i, b :: 0 <= i < m.Length0 && 0 <= b < m.Length1 ==>
                  m[i, b] == if b < j then SmoothAt(cs[b], i) else cs[b][i]
    {
      SmoothColumn(m, j, cs);
    }
    assert forall b :: 0 <= b < |cs| ==> Column(m, b) == Smooth(cs[b]);
  }

  method SmoothColumn(m: array2<real>, j: nat, ghost cs: seq<Curve>)
    requires j < m.Length1 == |cs| && forall b :: 0 <= b < |cs| ==> |cs[b]| == m.Length0
    requires forall i :: 0 <= i < m.Length0 ==> m[i, j] == cs[j][i]
    modifies m
    ensures forall i :: 0 <= i < m.Length0 ==> m[i, j] == SmoothAt(cs[j], i)
    ensures forall i, b :: 0 <= i < m.Length0 && 0 <= b < m.Length1 && b != j ==> m[i, b] == old(m[i, b])
  {
    var i := 1;
    while i < m.Length0
      invariant 1 <= i
      invariant forall k :: 0 <= k < m.Length0 ==>
                  m[k, j] == if k < i then SmoothAt(cs[j], k) else cs[j][k]
      invariant forall k, b :: 0 <= k < m.Length0 && 0 <= b < m.Length1 && b != j ==> m[k, b] == old(m[k, b])
    {
      m[i, j] := Min(m[i - 1, j], m[i, j]);
      i := i + 1;
    }
  }

  // ---- Marginal utility ----

  /** `get_maxmarginalutil_mrcs`: the least average slope, and the fewest ways reaching
      it.  The unset value is no obstacle as long as no slope equals it. */
  method MaxMarginalUtilMrcs(c: Curve, cur: nat, parts: nat) returns (mu: real, part: nat)
    requires 1 <= cur && 1 <= parts && cur + parts <= |c|
    requires forall p :: 1 <= p <= parts ==> Slope(c, cur, p) != UNSET
    ensures 1 <= part <= parts && mu == Slope(c, cur, part)
    ensures forall p :: 1 <= p <= parts ==> mu <= Slope(c, cur, p) && (p < part ==> mu < Slope(c, cur, p))
  {
    var maxMu := UNSET;
    var maxMuPart := 0;
    for p := 1 to parts + 1
      invariant p == 1 ==> maxMu == UNSET
      invariant p > 1 ==> 1 <= maxMuPart < p && maxMu == Slope(c, cur, maxMuPart)
      invariant forall q :: 1 <= q < p ==> maxMu <= Slope(c, cur, q) && (q < maxMuPart ==> maxMu < Slope(c, cur, q))
    {
      var s := (c[cur + p - 1] - c[cur - 1]) / p as real;
      assert s == Slope(c, cur, p);
      if maxMu == UNSET || s < maxMu {
        maxMu := s;
        maxMuPart := p;
      }
    }
    mu, part := maxMu, maxMuPart;
  }

  lemma SlopeNotPositive(c: Curve, cur: nat, p: nat)
    requires NonIncreasing(c) && 1 <= cur && 1 <= p && cur + p <= |c|
    ensures Slope(c, cur, p) <= 0.0
  {
  }

  // ---- Buckets ----

  /** The buckets that owner gives to application a, oldest first. */
  function Owned(owner: seq<nat>, a: nat): seq<nat> {
    if owner == [] then []
    else
      var b := |owner| - 1;
      Owned(owner[..b], a) + if owner[b] == a then [b] else []
  }

  lemma OwnedPush(owner: seq<nat>, x: nat, a: nat)
    ensures Owned(owner + [x], a) == Owned(owner, a) + if x == a then [|owner|] else []
  {
    assert (owner + [x])[..|owner|] == owner;
  }

  /** Each bucket is in the partition of its owner, once, and in no other. */
  lemma {:induction false} OwnedExactly(owner: seq<nat>, a: nat)
    ensures forall b :: b in Owned(owner, a) <==> 0 <= b < |owner| && owner[b] == a
    ensures forall i, j :: 0 <= i < j < |Owned(owner, a)| ==> Owned(owner, a)[i] < Owned(owner, a)[j]
    decreases |owner|
  {
    if owner != [] {
      var b := |owner| - 1;
      OwnedExactly(owner[..b], a);
      OwnedPush(owner[..b], owner[b], a);
      assert owner == owner[..b] + [owner[b]];
      hide Owned;
      OwnedMore(Owned(owner[..b], a), owner[..b], owner[b], a);
    }
  }

  lemma OwnedMore(init: seq<nat>, owner: seq<nat>, x: nat, a: nat)
    requires forall b :: b in init <==> 0 <= b < |owner| && owner[b] == a
    requires forall i, j :: 0 <= i < j < |init| ==> init[i] < init[j]
    ensures var s, o := init + (if x == a then [|owner|] else []), owner + [x];
            (forall b :: b in s <==> 0 <= b < |o| && o[b] == a) && (forall i, j :: 0 <= i < j < |s| ==> s[i] < s[j])
  {
    var s, o := init + (if x == a then [|owner|] else []), owner + [x];
    forall b
      ensures b in s <==> 0 <= b < |o| && o[b] == a
    {
      assert b in s <==> b in init || (x == a && b == |owner|);
    }
    forall i, j | 0 <= i < j < |s|
      ensures s[i] < s[j]
    {
      assert s[i] == init[i] && init[i] in init;
    }
  }

  /** Buckets left: the top of the stack is the lowest number not handed out. */
  function Remaining(next: nat, ways: nat): (s: seq<nat>)
    requires next <= ways
    ensures |s| == ways - next && forall k :: 0 <= k < |s| ==> s[k] == ways - 1 - k
  {
    seq(ways - next, k requires 0 <= k < ways - next => ways - 1 - k)
  }

  lemma RemainingPop(next: nat, ways: nat)
    requires next < ways
    ensures Remaining(next, ways)[ways - next - 1] == next
    ensures Remaining(next, ways)[..ways - next - 1] == Remaining(next + 1, ways)
  {
  }

  /** Sizes and contents of the partitions, under some owner map. */
  ghost predicate Handed(parts: seq<seq<nat>>, owner: seq<nat>, k: seq<nat>) {
    |k| <= |parts| && (forall b :: 0 <= b < |owner| ==> owner[b] < |k|) &&
    (forall a :: 0 <= a < |k| ==> |parts[a]| == k[a]) &&
    (forall a :: 0 <= a < |parts| ==> parts[a] == Owned(owner, a))
  }

  /** The owners of the buckets in their order: one way for every application, then the
      ways of each round together. */
  function Owners(n: nat, rs: seq<Round>): seq<nat> {
    if rs == [] then seq(n, a => a)
    else
      var r := rs[|rs| - 1];
      Owners(n, rs[..|rs| - 1]) + Repeat(r.app, r.take)
  }

  lemma OwnersMore(n: nat, rs: seq<Round>, r: Round)
    ensures Owners(n, rs + [r]) == Owners(n, rs) + Repeat(r.app, r.take)
  {
    assert (rs + [r])[..|rs|] == rs;
  }

  /** Moves the top bucket to application a. */
  method Give(partitions: array<seq<nat>>, buckets: seq<nat>, a: nat,
              ghost owner: seq<nat>, ghost k: seq<nat>, ways: nat)
    returns (rest: seq<nat>)
    requires a < |k| && |owner| < ways && buckets == Remaining(|owner|, ways) && Handed(partitions[..], owner, k)
    modifies partitions
    ensures rest == Remaining(|owner| + 1, ways)
    ensures Handed(partitions[..], owner + [a], k[a := k[a] + 1])
  {
    RemainingPop(|owner|, ways);
    partitions[a] := partitions[a] + [buckets[|buckets| - 1]];
    rest := buckets[..|buckets| - 1];
    forall b | 0 <= b < partitions.Length
      ensures partitions[b] == Owned(owner + [a], b)
    {
      OwnedPush(owner, a, b);
    }
  }

  // ---- The allocation loop ----

  /** The inner loop: over all applications, the best use of the remaining ways. */
  method PickRound(m: array2<real>, partitions: array<seq<nat>>, rem: nat, ghost k: seq<nat>) returns (r: Round)
    requires Room(Columns(m), k, rem) && rem >= 1 && m.Length1 >= 1
    requires m.Length1 <= partitions.Length && forall a :: 0 <= a < m.Length1 ==> |partitions[a]| == k[a]
    requires forall a :: 0 <= a < m.Length1 ==> NonIncreasing(Column(m, a))
    ensures Best(Columns(m), k, rem, r)
  {
    var maxMu := UNSET;
    var app, take := 0, 0;
    ghost var cs := Columns(m);
    for a := 0 to m.Length1
      invariant a == 0 ==> maxMu == UNSET
      invariant a > 0 ==> app < a && 1 <= take <= rem && maxMu == Slope(cs[app], k[app], take) && maxMu <= 0.0
      invariant forall b, p :: 0 <= b < a && 1 <= p <= rem ==>
                  maxMu <= Slope(cs[b], k[b], p) &&
                  (b < app || (b == app && p < take) ==> maxMu < Slope(cs[b], k[b], p))
    {
      forall p | 1 <= p <= rem
        ensures Slope(cs[a], k[a], p) <= 0.0
      {
        SlopeNotPositive(cs[a], k[a], p);
      }
      var mu, add := MaxMarginalUtilMrcs(Column(m, a), |partitions[a]|, rem);
      if maxMu == UNSET || mu < maxMu {
        maxMu, app, take := mu, a, add;
      }
    }
    r := Round(app, take, maxMu);
  }

  /** Gives a round's ways away, one bucket at a time. */
  method GiveRound(partitions: array<seq<nat>>, buckets: seq<nat>, r: Round,
                   ghost owner: seq<nat>, ghost k: seq<nat>, ways: nat)
    returns (rest: seq<nat>, ghost owner': seq<nat>)
    requires r.app < |k| && |owner| + r.take <= ways && buckets == Remaining(|owner|, ways)
    requires Handed(partitions[..], owner, k)
    modifies partitions
    ensures owner' == owner + Repeat(r.app, r.take) && rest == Remaining(|owner'|, ways)
    ensures Handed(partitions[..], owner', k[r.app := k[r.app] + r.take])
  {
    hide Handed, Remaining;
    rest, owner' := buckets, owner;
    ghost var k' := k;
    assert k[r.app := k[r.app] + 0] == k;
    for b := 0 to r.take
      invariant owner' == owner + Repeat(r.app, b) && rest == Remaining(|owner'|, ways)
      invariant k' == k[r.app := k[r.app] + b] && Handed(partitions[..], owner', k')
    {
      rest := Give(partitions, rest, r.app, owner', k', ways);
      owner' := owner' + [r.app];
      k' := k'[r.app := k'[r.app] + 1];
    }
  }

  /** `do_ucp_mrcs` up to the allocation: smooths the curves, gives every application one
      way, then hands out the rest by least slope. */
  method DoUcpMrcs(m: array2<real>, cores: nat, ways: nat)
    returns (partitions: array<seq<nat>>, ghost owner: seq<nat>, ghost rs: seq<Round>)
    requires 1 <= m.Length1 <= cores && m.Length1 <= ways <= m.Length0
    modifies m
    ensures fresh(partitions) && partitions.Length == cores
    // The rounds are those of the greedy rule on the smoothed curves,
    ensures Enough(SmoothAll(old(Columns(m))), ways) && Greedy(SmoothAll(old(Columns(m))), ways, rs)
    // the buckets go out in the order of their numbers, one to every application and then
    // round by round, until all ways are handed out,
    ensures owner == Owners(m.Length1, rs)
    ensures var k := Alloc(m.Length1, rs); Sum(k) == ways == |owner| && Handed(partitions[..], owner, k)
    // and on convex curves no allocation has a smaller total.
    ensures AllConvex(old(Columns(m))) ==> Optimal(SmoothAll(old(Columns(m))), ways, Alloc(m.Length1, rs))
  {
    hide Handed, Owned, Owners, Smooth, Greedy, NonIncreasing, Alloc, Sum;
    ghost var cs := SmoothAll(Columns(m));
    SmoothenMRCs(m);
    ColumnsFall(m, old(Columns(m)));
    var n := m.Length1;
    partitions := new seq<nat>[cores](_ => []);
    var buckets;
    buckets, owner := GiveFirst(partitions, n, ways);
    rs := [];
    GreedyStart(cs, ways);
    while buckets != []
      invariant |owner| <= ways && buckets == Remaining(|owner|, ways)
      invariant Columns(m) == cs && Enough(cs, ways) && Greedy(cs, ways, rs) && owner == Owners(n, rs)
      invariant forall a :: 0 <= a < n ==> NonIncreasing(Column(m, a))
      invariant Sum(Alloc(n, rs)) == |owner| && Handed(partitions[..], owner, Alloc(n, rs))
      decreases |buckets|
    {
      buckets, owner, rs := PlayRound(m, partitions, buckets, ways, owner, rs);
    }
    if AllConvex(old(Columns(m))) {
      UcpIsOptimal(old(Columns(m)), ways, rs);
    }
  }

  lemma ColumnsFall(m: array2<real>, before: seq<Curve>)
    requires Columns(m) == SmoothAll(before)
    ensures forall a :: 0 <= a < m.Length1 ==> NonIncreasing(Column(m, a))
  {
    forall a | 0 <= a < m.Length1
      ensures NonIncreasing(Column(m, a))
    {
      assert Columns(m)[a] == Column(m, a);
      SmoothNonIncreasing(before[a]);
    }
  }

  /** One round: the best use is found and its buckets are moved. */
  method PlayRound(m: array2<real>, partitions: array<seq<nat>>, buckets: seq<nat>, ways: nat,
                   ghost owner: seq<nat>, ghost rs: seq<Round>)
    returns (rest: seq<nat>, ghost owner': seq<nat>, ghost rs': seq<Round>)
    requires |owner| < ways && buckets == Remaining(|owner|, ways) && m.Length1 >= 1
    requires Enough(Columns(m), ways) && Greedy(Columns(m), ways, rs) && owner == Owners(m.Length1, rs)
    requires forall a :: 0 <= a < m.Length1 ==> NonIncreasing(Column(m, a))
    requires var k := Alloc(m.Length1, rs); Sum(k) == |owner| && Handed(partitions[..], owner, k)
    modifies partitions
    ensures |owner| < |owner'| <= ways && rest == Remaining(|owner'|, ways)
    ensures Greedy(Columns(m), ways, rs') && owner' == Owners(m.Length1, rs')
    ensures var k := Alloc(m.Length1, rs'); Sum(k) == |owner'| && Handed(partitions[..], owner', k)
  {
    hide Handed, Owners, Greedy, NonIncreasing, Alloc, Sum, Best;
    ghost var cs := Columns(m);
    ghost var k := Alloc(m.Length1, rs);
    SumsFit(cs, ways, k);
    HandedSizes(partitions[..], owner, k);
    var r := PickRound(m, partitions, |buckets|, k);
    BestBounds(cs, k, |buckets|, r);
    SumUpdate(k, r.app, r.take);
    GreedyMore(cs, ways, rs, r);
    rest, owner' := GiveRound(partitions, buckets, r, owner, k, ways);
    OwnersMore(m.Length1, rs, r);
    rs' := rs + [r];
  }

  lemma HandedSizes(parts: seq<seq<nat>>, owner: seq<nat>, k: seq<nat>)
    requires Handed(parts, owner, k)
    ensures |k| <= |parts| && forall a :: 0 <= a < |k| ==> |parts[a]| == k[a]
  {
  }

  lemma BestBounds(cs: seq<Curve>, k: seq<nat>, rem: nat, r: Round)
    requires Room(cs, k, rem) && Best(cs, k, rem, r)
    ensures r.app < |cs| && 1 <= r.take <= rem
  {
  }

  lemma GreedyStart(cs: seq<Curve>, ways: nat)
    requires Enough(cs, ways) && |cs| <= ways
    ensures Greedy(cs, ways, []) && Alloc(|cs|, []) == Ones(|cs|) && Sum(Ones(|cs|)) == |cs|
  {
    SumOnes(|cs|);
  }

  lemma GreedyMore(cs: seq<Curve>, ways: nat, rs: seq<Round>, r: Round)
    requires Enough(cs, ways) && Greedy(cs, ways, rs) && r.app < |cs|
    requires var k := Alloc(|cs|, rs);
             Sum(k) < ways && Room(cs, k, ways - Sum(k)) && Best(cs, k, ways - Sum(k), r)
    ensures Greedy(cs, ways, rs + [r])
    ensures var k := Alloc(|cs|, rs); Alloc(|cs|, rs + [r]) == k[r.app := k[r.app] + r.take]
  {
    hide Best, Sum, Room;
    assert (rs + [r])[..|rs|] == rs;
  }

  /** One bucket for every application, in order. */
  method GiveFirst(partitions: array<seq<nat>>, n: nat, ways: nat) returns (buckets: seq<nat>, ghost owner: seq<nat>)
    requires n <= partitions.Length && n <= ways && forall a :: 0 <= a < partitions.Length ==> partitions[a] == []
    modifies partitions
    ensures |owner| == n && owner == Owners(n, []) && buckets == Remaining(n, ways)
    ensures Handed(partitions[..], owner, Ones(n))
  {
    buckets := [];
    for i := 0 to ways
      invariant buckets == seq(i, k requires 0 <= k < i => ways - 1 - k)
    {
      buckets := buckets + [ways - 1 - i];
    }
    owner := [];
    ghost var k: seq<nat> := seq(n, _ => 0);
    for a := 0 to n
      invariant owner == seq(a, b => b) && buckets == Remaining(a, ways)
      invariant k == seq(n, b requires 0 <= b < n => if b < a then 1 else 0)
      invariant Handed(partitions[..], owner, k)
    {
      buckets := Give(partitions, buckets, a, owner, k, ways);
      owner := owner + [a];
      k := k[a := k[a] + 1];
    }
    assert k == Ones(n);
  }

  /** What the allocation is worth: on convex miss curves no other way of giving every
      application at least one way has a smaller total of smoothed misses. */
  lemma UcpIsOptimal(cs: seq<Curve>, ways: nat, rs: seq<Round>)
    requires AllConvex(cs) && Enough(SmoothAll(cs), ways)
    requires Greedy(SmoothAll(cs), ways, rs) && Sum(Alloc(|cs|, rs)) == ways
    ensures Optimal(SmoothAll(cs), ways, Alloc(|cs|, rs))
  {
    hide Greedy, Alloc, Sum, Total, Convex, Smooth;
    var s, k := SmoothAll(cs), Alloc(|cs|, rs);
    forall a | 0 <= a < |cs|
      ensures Convex(s[a])
    {
      SmoothConvex(cs[a]);
    }
    forall j | |j| == |cs| && (forall a :: 0 <= a < |cs| ==> j[a] >= 1) && Sum(j) == ways
      ensures (forall a :: 0 <= a < |cs| ==> k[a] <= |s[a]| && j[a] <= |s[a]|) && Total(s, k) <= Total(s, j)
    {
      GreedyIsOptimal(s, ways, rs, j);
    }
    assert Allocation(s, ways, k);
  }

  // ---- The IPC variant ----

  /** The average gain in relative IPC per way; the base is the IPC with three ways. */
  function Gain(c: Curve, cur: nat, p: nat): real
    requires 1 <= cur && 1 <= p && cur + p <= |c| && |c| >= 3 && c[2] != 0.0
  {
    (c[cur + p - 1] - c[cur - 1]) / (p as real * c[2])
  }

  /** The greatest gain over 1..parts ways. */
  function MaxGain(c: Curve, cur: nat, parts: nat): (g: real)
    requires 1 <= cur && 1 <= parts && cur + parts <= |c| && |c| >= 3 && c[2] != 0.0
    ensures forall p :: 1 <= p <= parts ==> Gain(c, cur, p) <= g
    ensures exists p :: 1 <= p <= parts && Gain(c, cur, p) == g
  {
    if parts == 1 then Gain(c, cur, 1)
    else
      var g := MaxGain(c, cur, parts - 1);
      if g < Gain(c, cur, parts) then Gain(c, cur, parts) else g
  }

  /** part is the fewest ways with the greatest gain among after + 1..parts. */
  ghost predicate FirstBest(c: Curve, cur: nat, parts: nat, after: nat, part: nat)
    requires 1 <= cur && cur + parts <= |c| && |c| >= 3 && c[2] != 0.0
  {
    after < part <= parts &&
    forall p :: after < p <= parts ==>
      Gain(c, cur, p) <= Gain(c, cur, part) && (p < part ==> Gain(c, cur, p) < Gain(c, cur, part))
  }

  /** z is the last number of ways whose gain is the unset value. */
  ghost predicate LastUnset(c: Curve, cur: nat, parts: nat, z: nat)
    requires 1 <= cur && cur + parts <= |c| && |c| >= 3 && c[2] != 0.0
  {
    1 <= z <= parts && Gain(c, cur, z) == UNSET && forall p :: z < p <= parts ==> Gain(c, cur, p) != UNSET
  }

  /** Gains are relative: the unit in which the IPC is measured does not matter, and in
      units of the IPC with three ways they are plain slopes. */
  lemma GainScales(c: Curve, f: real, cur: nat, p: nat)
    requires 1 <= cur && 1 <= p && cur + p <= |c| && |c| >= 3 && c[2] != 0.0 && f != 0.0
    ensures Rescaled(c, f)[2] != 0.0 && Gain(Rescaled(c, f), cur, p) == Gain(c, cur, p)
    ensures f * c[2] == 1.0 ==> Gain(c, cur, p) == Slope(Rescaled(c, f), cur, p)
  {
    var hi, lo, base := c[cur + p - 1], c[cur - 1], p as real * c[2];
    NotZero(p as real, c[2]);
    NotZero(f, c[2]);
    assert p as real * (f * c[2]) == f * base;
    assert f * hi - f * lo == f * (hi - lo);
    Cancel(f, hi - lo, base);
  }

  function Rescaled(c: Curve, f: real): (r: Curve)
    ensures |r| == |c| && forall k :: 0 <= k < |c| ==> r[k] == f * c[k]
  {
    seq(|c|, k requires 0 <= k < |c| => f * c[k])
  }

  lemma NotZero(x: real, y: real)
    requires x != 0.0 && y != 0.0
    ensures x * y != 0.0
  {
  }

  lemma Cancel(f: real, x: real, y: real)
    requires f != 0.0 && y != 0.0
    ensures f * y != 0.0 && (f * x) / (f * y) == x / y
  {
    var q := x / y;
    assert q * y == x;
    assert f * x == q * (f * y);
  }

  /** `get_maxmarginalutil_ipcs`.  Gains are positive, so one can equal the unset value,
      and the next candidate then replaces it whatever its own gain.  The result is the
      greatest gain exactly when that does not happen to the greatest one. */
  method MaxMarginalUtilIpcs(c: Curve, cur: nat, parts: nat) returns (mu: real, part: nat)
    requires 1 <= cur && 1 <= parts && cur + parts <= |c| && |c| >= 3 && c[2] != 0.0
    ensures 1 <= part <= parts && mu == Gain(c, cur, part)
    ensures mu == MaxGain(c, cur, parts) <==>
            MaxGain(c, cur, parts) != UNSET || Gain(c, cur, parts) == UNSET
    // The fewest ways reach it, or the last candidate does; after a collision only the
    // candidates behind it are compared.
    ensures MaxGain(c, cur, parts) != UNSET ==> FirstBest(c, cur, parts, 0, part)
    ensures MaxGain(c, cur, parts) == UNSET ==>
              exists z :: LastUnset(c, cur, parts, z) &&
                if z == parts then part == parts else FirstBest(c, cur, parts, z, part)
  {
    hide Gain;
    var maxMu := UNSET;
    var maxMuPart := 0;
    ghost var z := 0;
    for p := 1 to parts + 1
      invariant p == 1 ==> maxMu == UNSET
      invariant p > 1 ==> 1 <= maxMuPart < p && maxMu == Gain(c, cur, maxMuPart)
      invariant p > 1 && MaxGain(c, cur, p - 1) != UNSET ==> FirstBest(c, cur, p - 1, 0, maxMuPart)
      invariant p > 1 && MaxGain(c, cur, p - 1) == UNSET ==>
                  LastUnset(c, cur, p - 1, z) &&
                  if z == p - 1 then maxMuPart == p - 1 else FirstBest(c, cur, p - 1, z, maxMuPart)
    {
      var s := (c[cur + p - 1] - c[cur - 1]) / (p as real * c[2]);
      assert s == Gain(c, cur, p) by { GainAt(c, cur, p); }
      if maxMu == UNSET || s > maxMu {
        maxMu := s;
        maxMuPart := p;
      }
      if s == UNSET {
        z := p;
      }
    }
    mu, part := maxMu, maxMuPart;
  }

  lemma GainAt(c: Curve, cur: nat, p: nat)
    requires 1 <= cur && 1 <= p && cur + p <= |c| && |c| >= 3 && c[2] != 0.0
    ensures Gain(c, cur, p) == (c[cur + p - 1] - c[cur - 1]) / (p as real * c[2])
  {
  }

  /** It does happen, on a curve that never falls: one more way gains 1000, two gain 500
      each, and the second candidate is kept. */
  lemma UnsetCollides()
    ensures var c := [0.0, 0.0, 1.0, 1001.0, 1001.0];
            MaxGain(c, 3, 2) == UNSET && Gain(c, 3, 2) == 500.0
  {
  }
}
