/** Utility-based cache partitioning: miss curves, greedy rounds, and what they achieve. */
module UcpSpec {

  /** c[k - 1] is the miss rate with k ways. */
  type Curve = seq<real>

  // ---- Smoothing ----

  function Min(a: real, b: real): real {
    if b < a then b else a
  }

  function SmoothAt(c: Curve, i: nat): real
    requires i < |c|
  {
    if i == 0 then c[0] else Min(SmoothAt(c, i - 1), c[i])
  }

  function Smooth(c: Curve): (s: Curve)
    ensures |s| == |c|
  {
    seq(|c|, i requires 0 <= i < |c| => SmoothAt(c, i))
  }

  ghost predicate NonIncreasing(c: Curve) {
    forall i, j :: 0 <= i <= j < |c| ==> c[j] <= c[i]
  }

  /** Each further way saves at most as much as the one before. */
  ghost predicate Convex(c: Curve) {
    forall i :: 0 < i < |c| - 1 ==> c[i] - c[i - 1] <= c[i + 1] - c[i]
  }

  /** Smoothing takes the least value so far: the largest non-increasing curve below c. */
  lemma {:induction false} SmoothIsPrefixMin(c: Curve, i: nat)
    requires i < |c|
    ensures forall k :: 0 <= k <= i ==> SmoothAt(c, i) <= c[k]
    ensures exists k :: 0 <= k <= i && SmoothAt(c, i) == c[k]
  {
    if i == 0 {
      assert SmoothAt(c, i) == c[0];
    } else {
      SmoothIsPrefixMin(c, i - 1);
      var k :| 0 <= k <= i - 1 && SmoothAt(c, i - 1) == c[k];
      assert SmoothAt(c, i) == c[k] || SmoothAt(c, i) == c[i];
    }
  }

  lemma {:induction false} SmoothDecreases(c: Curve, i: nat, j: nat)
    requires i <= j < |c|
    ensures SmoothAt(c, j) <= SmoothAt(c, i)
    decreases j
  {
    if i < j {
      SmoothDecreases(c, i, j - 1);
    }
  }

  lemma SmoothNonIncreasing(c: Curve)
    ensures NonIncreasing(Smooth(c))
  {
    forall i, j | 0 <= i <= j < |c|
      ensures Smooth(c)[j] <= Smooth(c)[i]
    {
      SmoothDecreases(c, i, j);
    }
  }

  /** A convex curve falls, then stays at its minimum once it is smoothed. */
  lemma {:induction false} SmoothStep(c: Curve, i: nat)
    requires Convex(c) && i + 1 < |c|
    ensures SmoothAt(c, i + 1) - SmoothAt(c, i) == Min(0.0, c[i + 1] - c[i])
    ensures c[i + 1] - c[i] < 0.0 ==> SmoothAt(c, i) == c[i]
  {
    if i > 0 {
      SmoothStep(c, i - 1);
    }
  }

  lemma SmoothConvex(c: Curve)
    requires Convex(c)
    ensures Convex(Smooth(c))
  {
    var s := Smooth(c);
    forall i | 0 < i < |s| - 1
      ensures s[i] - s[i - 1] <= s[i + 1] - s[i]
    {
      SmoothStep(c, i - 1);
      SmoothStep(c, i);
    }
  }

  /** Smoothing leaves a non-increasing curve alone. */
  lemma SmoothIdentity(c: Curve)
    requires NonIncreasing(c)
    ensures Smooth(c) == c
  {
    forall i | 0 <= i < |c|
      ensures SmoothAt(c, i) == c[i]
    {
      SmoothIsPrefixMin(c, i);
    }
  }

  // ---- Rounds ----

  /** The average change per way of giving p more ways to an application that has cur. */
  function Slope(c: Curve, cur: nat, p: nat): real
    requires 1 <= cur && 1 <= p && cur + p <= |c|
  {
    (c[cur + p - 1] - c[cur - 1]) / p as real
  }

  lemma SlopeTimes(c: Curve, cur: nat, p: nat)
    requires 1 <= cur && 1 <= p && cur + p <= |c|
    ensures Slope(c, cur, p) * p as real == c[cur + p - 1] - c[cur - 1]
  {
  }

  /** app had cur ways, was given take more, at an average change of mu per way. */
  datatype Round = Round(app: nat, take: nat, mu: real)

  function Sum(k: seq<nat>): nat {
    if k == [] then 0 else Sum(k[..|k| - 1]) + k[|k| - 1]
  }

  function Ones(n: nat): (k: seq<nat>)
    ensures |k| == n && forall a :: 0 <= a < n ==> k[a] == 1
  {
    seq(n, _ => 1)
  }

  /** How many ways each of n applications has after some rounds. */
  function Alloc(n: nat, rs: seq<Round>): (k: seq<nat>)
    ensures |k| == n && forall a :: 0 <= a < n ==> k[a] >= 1
  {
    if rs == [] then Ones(n)
    else
      var k, r := Alloc(n, rs[..|rs| - 1]), rs[|rs| - 1];
      if r.app < n then k[r.app := k[r.app] + r.take] else k
  }

  /** Curves reach up to this many ways. */
  ghost predicate Enough(cs: seq<Curve>, ways: nat) {
    forall a :: 0 <= a < |cs| ==> ways <= |cs[a]|
  }

  /** So they do even if one application gets all rem remaining ways. */
  ghost predicate Room(cs: seq<Curve>, k: seq<nat>, rem: nat) {
    |k| == |cs| && forall a :: 0 <= a < |cs| ==> 1 <= k[a] && k[a] + rem <= |cs[a]|
  }

  /** r has the least slope that any application can get from the remaining ways;
      among equals the first application and the fewest ways. */
  ghost predicate Best(cs: seq<Curve>, k: seq<nat>, rem: nat, r: Round)
    requires Room(cs, k, rem)
  {
    r.app < |cs| && 1 <= r.take <= rem && r.mu == Slope(cs[r.app], k[r.app], r.take) &&
    forall a, p :: 0 <= a < |cs| && 1 <= p <= rem ==>
      r.mu <= Slope(cs[a], k[a], p) &&
      (a < r.app || (a == r.app && p < r.take) ==> r.mu < Slope(cs[a], k[a], p))
  }

  /** rs are the rounds of the greedy loop over ways ways. */
  ghost predicate Greedy(cs: seq<Curve>, ways: nat, rs: seq<Round>)
    requires Enough(cs, ways)
    decreases |rs|
  {
    if rs == [] then |cs| <= ways
    else
      var prev := rs[..|rs| - 1];
      var k := Alloc(|cs|, prev);
      Greedy(cs, ways, prev) && Sum(k) < ways && Room(cs, k, ways - Sum(k)) &&
      Best(cs, k, ways - Sum(k), rs[|rs| - 1])
  }

  // ---- Sums ----

  lemma {:induction false} SumUpdate(k: seq<nat>, a: nat, d: nat)
    requires a < |k|
    ensures Sum(k[a := k[a] + d]) == Sum(k) + d
    decreases |k|
  {
    var n := |k| - 1;
    var k' := k[a := k[a] + d];
    if a == n {
      assert k'[..n] == k[..n];
    } else {
      assert k'[..n] == k[..n][a := k[..n][a] + d];
      SumUpdate(k[..n], a, d);
    }
  }

  lemma {:induction false} SumOnes(n: nat)
    ensures Sum(Ones(n)) == n
  {
    if n > 0 {
      SumOnes(n - 1);
      assert Ones(n)[..n - 1] == Ones(n - 1);
    }
  }

  /** With at least one way each, no application can have more than what the others leave. */
  lemma {:induction false} SumBound(k: seq<nat>, a: nat)
    requires a < |k| && forall b :: 0 <= b < |k| ==> k[b] >= 1
    ensures k[a] + |k| - 1 <= Sum(k)
    decreases |k|
  {
    var n := |k| - 1;
    if a < n {
      SumBound(k[..n], a);
    } else if n > 0 {
      SumBound(k[..n], 0);
    }
  }

  /** The ways all rounds give together. */
  function Given(rs: seq<Round>): nat {
    if rs == [] then 0 else Given(rs[..|rs| - 1]) + rs[|rs| - 1].take
  }

  /** The first way of each application and the ways of the rounds: none is lost. */
  lemma {:induction false} AllocSum(n: nat, rs: seq<Round>)
    requires forall r :: 0 <= r < |rs| ==> rs[r].app < n
    ensures Sum(Alloc(n, rs)) == n + Given(rs)
    decreases |rs|
  {
    if rs == [] {
      SumOnes(n);
    } else {
      hide Sum;
      var prev, r := rs[..|rs| - 1], rs[|rs| - 1];
      AllocSum(n, prev);
      SumUpdate(Alloc(n, prev), r.app, r.take);
    }
  }

  // ---- What the rounds achieve ----

  lemma MulLe(a: real, b: real, p: nat)
    requires p >= 1
    ensures a <= b <==> a * p as real <= b * p as real
  {
  }

  lemma MulSplit(mu: real, p: nat, q: nat)
    ensures mu * (p + q) as real == mu * p as real + mu * q as real
  {
  }

  /** After taking the least slope, what the same application can get next is no less. */
  lemma NextSlope(c: Curve, cur: nat, p: nat, q: nat, mu: real)
    requires 1 <= cur && 1 <= p && 1 <= q && cur + p + q <= |c|
    requires mu == Slope(c, cur, p) && mu <= Slope(c, cur, p + q)
    ensures mu <= Slope(c, cur + p, q)
  {
    SlopeTimes(c, cur, p);
    SlopeTimes(c, cur, p + q);
    SlopeTimes(c, cur + p, q);
    hide Slope;
    MulLe(mu, Slope(c, cur, p + q), p + q);
    MulSplit(mu, p, q);
    MulLe(mu, Slope(c, cur + p, q), q);
  }

  lemma BestIs(cs: seq<Curve>, k: seq<nat>, rem: nat, r: Round, a: nat, p: nat)
    requires Room(cs, k, rem) && Best(cs, k, rem, r) && a < |cs| && 1 <= p <= rem
    ensures r.mu <= Slope(cs[a], k[a], p)
  {
  }

  lemma BestFits(cs: seq<Curve>, k: seq<nat>, rem: nat, r: Round)
    requires Room(cs, k, rem) && Best(cs, k, rem, r)
    ensures r.app < |cs| && 1 <= r.take <= rem && r.mu == Slope(cs[r.app], k[r.app], r.take)
  {
  }

  lemma RoomAt(cs: seq<Curve>, k: seq<nat>, rem: nat, a: nat)
    requires Room(cs, k, rem) && a < |cs|
    ensures 1 <= k[a] && k[a] + rem <= |cs[a]|
  {
  }

  lemma TwoRounds(cs: seq<Curve>, k: seq<nat>, rem: nat, k2: seq<nat>, rem2: nat, r1: Round, r2: Round)
    requires Room(cs, k, rem) && Best(cs, k, rem, r1) && Room(cs, k2, rem2) && Best(cs, k2, rem2, r2)
    requires r1.app < |cs| && k2 == k[r1.app := k[r1.app] + r1.take] && rem == rem2 + r1.take
    ensures r1.mu <= r2.mu
  {
    BestFits(cs, k, rem, r1);
    BestFits(cs, k2, rem2, r2);
    RoomAt(cs, k, rem, r2.app);
    hide Best, Slope, Room;
    if r2.app == r1.app {
      BestIs(cs, k, rem, r1, r1.app, r1.take + r2.take);
      NextSlope(cs[r1.app], k[r1.app], r1.take, r2.take, r1.mu);
    } else {
      BestIs(cs, k, rem, r1, r2.app, r2.take);
    }
  }

  /** The chosen slopes never decrease from a round to the next, for arbitrary curves. */
  lemma RoundsNonDecreasing(cs: seq<Curve>, ways: nat, rs: seq<Round>)
    requires Enough(cs, ways)
    requires |rs| >= 2 && Greedy(cs, ways, rs)
    ensures rs[|rs| - 2].mu <= rs[|rs| - 1].mu
  {
    hide Greedy, Alloc, Best, Room, Sum;
    var prev := rs[..|rs| - 1];
    GreedyUnfold(cs, ways, rs);
    GreedyUnfold(cs, ways, prev);
    var k, k2, r1 := Alloc(|cs|, prev[..|prev| - 1]), Alloc(|cs|, prev), prev[|prev| - 1];
    BestFits(cs, k, ways - Sum(k), r1);
    SumUpdate(k, r1.app, r1.take);
    TwoRounds(cs, k, ways - Sum(k), k2, ways - Sum(k2), r1, rs[|rs| - 1]);
  }

  /** So they never decrease between any two rounds. */
  lemma {:induction false} RoundsSorted(cs: seq<Curve>, ways: nat, rs: seq<Round>, i: nat, j: nat)
    requires Enough(cs, ways)
    requires Greedy(cs, ways, rs) && i <= j < |rs|
    ensures rs[i].mu <= rs[j].mu
    decreases |rs|
  {
    var prev := rs[..|rs| - 1];
    if j < |rs| - 1 {
      RoundsSorted(cs, ways, prev, i, j);
    } else if i < j {
      RoundsNonDecreasing(cs, ways, rs);
      RoundsSorted(cs, ways, prev, i, j - 1);
    }
  }

  // ---- Optimality for convex curves ----

  ghost predicate AllConvex(cs: seq<Curve>) {
    forall a :: 0 <= a < |cs| ==> Convex(cs[a])
  }

  function Scaled(l: real, x: real): real {
    l * x
  }

  lemma ScaledAdd(l: real, x: real, y: real)
    ensures Scaled(l, x + y) == Scaled(l, x) + Scaled(l, y)
  {
  }

  lemma ScaledUnits(l: real)
    ensures Scaled(l, 0.0) == 0.0 && Scaled(l, 1.0) == l
  {
  }

  /** On a convex curve p more ways save at most p times what the first of them saves. */
  lemma {:induction false} Rise(c: Curve, cur: nat, p: nat)
    requires Convex(c) && 1 <= cur && 1 <= p && cur + p <= |c|
    ensures var m := c[cur] - c[cur - 1];
            m <= c[cur + p - 1] - c[cur + p - 2] && Scaled(m, p as real) <= c[cur + p - 1] - c[cur - 1]
    decreases p
  {
    hide Scaled, Convex;
    var m := c[cur] - c[cur - 1];
    ScaledUnits(m);
    if p > 1 {
      Rise(c, cur, p - 1);
      ConvexAt(c, cur + p - 2);
      ScaledAdd(m, (p - 1) as real, 1.0);
    }
  }

  lemma ConvexAt(c: Curve, i: nat)
    requires Convex(c) && 0 < i < |c| - 1
    ensures c[i] - c[i - 1] <= c[i + 1] - c[i]
  {
  }

  lemma ScaledIs(m: real, p: nat)
    ensures Scaled(m, p as real) == m * p as real
  {
  }

  lemma SlopeOne(c: Curve, cur: nat)
    requires 1 <= cur < |c|
    ensures Slope(c, cur, 1) == c[cur] - c[cur - 1]
  {
  }

  /** So the first way is the best buy, and a round takes just one. */
  lemma FirstIsLeast(c: Curve, cur: nat, p: nat)
    requires Convex(c) && 1 <= cur && 1 <= p && cur + p <= |c|
    ensures Slope(c, cur, 1) <= Slope(c, cur, p)
  {
    hide Slope, Convex;
    Rise(c, cur, p);
    ScaledIs(c[cur] - c[cur - 1], p);
    hide Scaled;
    SlopeOne(c, cur);
    SlopeTimes(c, cur, p);
    MulLe(Slope(c, cur, 1), Slope(c, cur, p), p);
  }

  lemma TakesOne(cs: seq<Curve>, k: seq<nat>, rem: nat, r: Round)
    requires Room(cs, k, rem)
    requires AllConvex(cs) && Best(cs, k, rem, r)
    ensures r.take == 1 && r.mu == cs[r.app][k[r.app]] - cs[r.app][k[r.app] - 1]
  {
    FirstIsLeast(cs[r.app], k[r.app], r.take);
  }

  /** Ways already given saved at least as much as price each; further ones save at most that. */
  ghost predicate Threshold(cs: seq<Curve>, ways: nat, k: seq<nat>, price: real)
    requires |k| == |cs| && Enough(cs, ways)
  {
    forall a :: 0 <= a < |cs| ==>
      1 <= k[a] <= ways &&
      (k[a] >= 2 ==> cs[a][k[a] - 1] - cs[a][k[a] - 2] <= price) &&
      (k[a] < ways ==> price <= cs[a][k[a]] - cs[a][k[a] - 1])
  }

  lemma SumsFit(cs: seq<Curve>, ways: nat, k: seq<nat>)
    requires |k| == |cs| && (forall a :: 0 <= a < |cs| ==> k[a] >= 1) && Sum(k) <= ways && Enough(cs, ways)
    ensures Room(cs, k, ways - Sum(k)) && forall a :: 0 <= a < |cs| ==> k[a] <= ways
  {
    forall a | 0 <= a < |cs|
      ensures k[a] + (ways - Sum(k)) <= ways
    {
      SumBound(k, a);
    }
  }

  /** One more round, at a slope no less than the previous threshold, moves the threshold. */
  lemma ThresholdStep(cs: seq<Curve>, ways: nat, k: seq<nat>, r: Round, price: real)
    requires |k| == |cs| && Enough(cs, ways) && forall a :: 0 <= a < |cs| ==> 1 <= k[a] < ways
    requires AllConvex(cs) && r.app < |cs| && r.mu == cs[r.app][k[r.app]] - cs[r.app][k[r.app] - 1]
    requires forall a :: 0 <= a < |cs| ==> r.mu <= cs[a][k[a]] - cs[a][k[a] - 1]
    requires forall a :: 0 <= a < |cs| && k[a] >= 2 ==> cs[a][k[a] - 1] - cs[a][k[a] - 2] <= price
    requires price <= r.mu
    ensures Threshold(cs, ways, k[r.app := k[r.app] + 1], r.mu)
  {
  }

  lemma NoneBought(cs: seq<Curve>, k: seq<nat>)
    requires k == Alloc(|cs|, [])
    ensures forall a :: 0 <= a < |cs| ==> k[a] == 1
  {
  }

  lemma BestFirst(cs: seq<Curve>, ways: nat, k: seq<nat>, r: Round)
    requires Sum(k) < ways && Room(cs, k, ways - Sum(k)) && Best(cs, k, ways - Sum(k), r)
    ensures r.app < |cs|
    ensures forall a :: 0 <= a < |cs| ==> k[a] < ways && r.mu <= cs[a][k[a]] - cs[a][k[a] - 1]
  {
    forall a | 0 <= a < |cs|
      ensures k[a] < ways && r.mu <= cs[a][k[a]] - cs[a][k[a] - 1]
    {
      assert r.mu <= Slope(cs[a], k[a], 1);
      SlopeOne(cs[a], k[a]);
      SumBound(k, a);
    }
  }

  lemma GreedyUnfold(cs: seq<Curve>, ways: nat, rs: seq<Round>)
    requires Enough(cs, ways)
    requires Greedy(cs, ways, rs) && rs != []
    ensures var prev, r := rs[..|rs| - 1], rs[|rs| - 1];
            var k := Alloc(|cs|, prev);
            Greedy(cs, ways, prev) && Sum(k) < ways && Room(cs, k, ways - Sum(k)) &&
            Best(cs, k, ways - Sum(k), r) &&
            (r.app < |cs| ==> Alloc(|cs|, rs) == k[r.app := k[r.app] + r.take])
  {
    hide Best, Sum;
  }

  /** On convex curves, the last round gives one way to the application where it saves most. */
  lemma LastRound(cs: seq<Curve>, ways: nat, k: seq<nat>, r: Round)
    requires Enough(cs, ways) && AllConvex(cs)
    requires Sum(k) < ways && Room(cs, k, ways - Sum(k)) && Best(cs, k, ways - Sum(k), r)
    ensures r.take == 1 && r.app < |cs| && r.mu == cs[r.app][k[r.app]] - cs[r.app][k[r.app] - 1]
    ensures forall a :: 0 <= a < |cs| ==> 1 <= k[a] < ways && r.mu <= cs[a][k[a]] - cs[a][k[a] - 1]
  {
    BestFirst(cs, ways, k, r);
    TakesOne(cs, k, ways - Sum(k), r);
    assert forall a :: 0 <= a < |cs| ==> 1 <= k[a];
    hide *;
  }

  /** The last chosen slope separates what was bought from what was not. */
  lemma {:induction false} GreedyThreshold(cs: seq<Curve>, ways: nat, rs: seq<Round>)
    requires Enough(cs, ways)
    requires AllConvex(cs) && Greedy(cs, ways, rs) && rs != []
    ensures Threshold(cs, ways, Alloc(|cs|, rs), rs[|rs| - 1].mu)
    decreases |rs|
  {
    hide Alloc, Greedy, Best, Room, Slope, AllConvex, Convex, Threshold;
    var prev, r := rs[..|rs| - 1], rs[|rs| - 1];
    var k := Alloc(|cs|, prev);
    GreedyUnfold(cs, ways, rs);
    LastRound(cs, ways, k, r);
    var price := r.mu;
    if prev != [] {
      GreedyThreshold(cs, ways, prev);
      RoundsNonDecreasing(cs, ways, rs);
      price := prev[|prev| - 1].mu;
      BoughtBelow(cs, ways, k, price);
    } else {
      NoneBought(cs, k);
    }
    ThresholdStep(cs, ways, k, r, price);
  }

  lemma BoughtBelow(cs: seq<Curve>, ways: nat, k: seq<nat>, price: real)
    requires |k| == |cs| && Enough(cs, ways) && Threshold(cs, ways, k, price)
    ensures forall a :: 0 <= a < |cs| ==> k[a] <= |cs[a]|
    ensures forall a :: 0 <= a < |cs| && k[a] >= 2 ==> cs[a][k[a] - 1] - cs[a][k[a] - 2] <= price
  {
  }

  /** Moving away from the threshold, up or down, costs at least price per way. */
  lemma {:induction false} Tangent(c: Curve, ways: nat, k: nat, j: nat, price: real)
    requires Convex(c) && 1 <= k <= ways <= |c| && 1 <= j <= ways
    requires k >= 2 ==> c[k - 1] - c[k - 2] <= price
    requires k < ways ==> price <= c[k] - c[k - 1]
    ensures c[j - 1] - c[k - 1] >= Scaled(price, j as real - k as real)
    decreases if j > k then j - k else k - j
  {
    hide Scaled;
    ScaledUnits(price);
    if j > k {
      Tangent(c, ways, k, j - 1, price);
      StepUp(c, ways, k, j - 1, price);
      ScaledAdd(price, j as real - k as real - 1.0, 1.0);
    } else if j < k {
      Tangent(c, ways, k, j + 1, price);
      StepDown(c, k, j, price);
      ScaledAdd(price, j as real - k as real, 1.0);
    }
  }

  lemma {:induction false} StepUp(c: Curve, ways: nat, k: nat, j: nat, price: real)
    requires Convex(c) && 1 <= k <= j < ways <= |c|
    requires price <= c[k] - c[k - 1]
    ensures price <= c[j] - c[j - 1]
    decreases j
  {
    if j > k {
      StepUp(c, ways, k, j - 1, price);
    }
  }

  lemma {:induction false} StepDown(c: Curve, k: nat, j: nat, price: real)
    requires Convex(c) && 1 <= j < k <= |c| && c[k - 1] - c[k - 2] <= price
    ensures c[j] - c[j - 1] <= price
    decreases k - j
  {
    if j + 1 < k {
      StepDown(c, k, j + 1, price);
    }
  }

  /** The total over all applications. */
  function Total(cs: seq<Curve>, k: seq<nat>): real
    requires |k| == |cs| && forall a :: 0 <= a < |cs| ==> 1 <= k[a] <= |cs[a]|
  {
    if cs == [] then 0.0
    else
      var n := |cs| - 1;
      Total(cs[..n], k[..n]) + cs[n][k[n] - 1]
  }

  /** k gives every application at least one way, and ways in all. */
  ghost predicate Allocation(cs: seq<Curve>, ways: nat, k: seq<nat>) {
    |k| == |cs| && (forall a :: 0 <= a < |cs| ==> 1 <= k[a] <= |cs[a]|) && Sum(k) == ways
  }

  /** No allocation has a smaller total. */
  ghost predicate Optimal(cs: seq<Curve>, ways: nat, k: seq<nat>) {
    Allocation(cs, ways, k) && forall j :: Allocation(cs, ways, j) ==> Total(cs, k) <= Total(cs, j)
  }

  lemma TotalLast(cs: seq<Curve>, k: seq<nat>)
    requires cs != [] && |k| == |cs| && forall a :: 0 <= a < |cs| ==> 1 <= k[a] <= |cs[a]|
    ensures var n := |cs| - 1;
            Total(cs, k) == Total(cs[..n], k[..n]) + cs[n][k[n] - 1] && Sum(k) == Sum(k[..n]) + k[n]
  {
  }

  lemma {:induction false} TotalTangent(cs: seq<Curve>, ways: nat, k: seq<nat>, j: seq<nat>, price: real)
    requires |j| == |k| == |cs| && Enough(cs, ways) && forall a :: 0 <= a < |cs| ==> 1 <= j[a] <= ways
    requires AllConvex(cs) && Threshold(cs, ways, k, price)
    ensures Total(cs, j) - Total(cs, k) >= Scaled(price, Sum(j) as real - Sum(k) as real)
    decreases |cs|
  {
    hide Scaled, Convex, AllConvex, Enough, Threshold, Total, Sum;
    if cs == [] {
      TotalNone(cs, j, k, price);
    } else {
      var n := |cs| - 1;
      AllButLast(cs, ways, k, price);
      TotalTangent(cs[..n], ways, k[..n], j[..n], price);
      Tangent(cs[n], ways, k[n], j[n], price);
      TotalLast(cs, k);
      TotalLast(cs, j);
      SplitSum(price, Sum(j[..n]), Sum(k[..n]), j[n], k[n]);
      assert Scaled(price, Sum(j) as real - Sum(k) as real) ==
             Scaled(price, Sum(j[..n]) as real - Sum(k[..n]) as real) + Scaled(price, j[n] as real - k[n] as real);
    }
  }

  lemma TotalNone(cs: seq<Curve>, j: seq<nat>, k: seq<nat>, price: real)
    requires cs == [] && j == [] && k == []
    ensures Total(cs, j) == Total(cs, k) == 0.0 && Scaled(price, Sum(j) as real - Sum(k) as real) == 0.0
  {
    ScaledUnits(price);
  }

  lemma SplitSum(l: real, a: nat, b: nat, c: nat, d: nat)
    ensures Scaled(l, (a + c) as real - (b + d) as real) ==
            Scaled(l, a as real - b as real) + Scaled(l, c as real - d as real)
  {
    ScaledAdd(l, a as real - b as real, c as real - d as real);
    hide Scaled;
    assert (a + c) as real - (b + d) as real == (a as real - b as real) + (c as real - d as real);
  }

  /** What holds of all curves holds of the first ones and of the last. */
  lemma AllButLast(cs: seq<Curve>, ways: nat, k: seq<nat>, price: real)
    requires |k| == |cs| > 0 && Enough(cs, ways) && AllConvex(cs) && Threshold(cs, ways, k, price)
    ensures var n := |cs| - 1;
            Enough(cs[..n], ways) && AllConvex(cs[..n]) && Threshold(cs[..n], ways, k[..n], price) &&
            Convex(cs[n]) && 1 <= k[n] <= ways <= |cs[n]| &&
            (k[n] >= 2 ==> cs[n][k[n] - 1] - cs[n][k[n] - 2] <= price) &&
            (k[n] < ways ==> price <= cs[n][k[n]] - cs[n][k[n] - 1])
    ensures forall a :: 0 <= a < |cs| ==> 1 <= k[a] <= ways <= |cs[a]|
  {
    hide Convex;
  }

  /** With as many ways as applications there is only one allocation. */
  lemma {:induction false} SumIsCount(j: seq<nat>)
    requires (forall a :: 0 <= a < |j| ==> j[a] >= 1) && Sum(j) <= |j|
    ensures j == Ones(|j|)
    decreases |j|
  {
    if j != [] {
      var n := |j| - 1;
      AtLeastCount(j[..n]);
      SumIsCount(j[..n]);
    }
  }

  lemma {:induction false} AtLeastCount(j: seq<nat>)
    requires forall a :: 0 <= a < |j| ==> j[a] >= 1
    ensures |j| <= Sum(j)
    decreases |j|
  {
    if j != [] {
      AtLeastCount(j[..|j| - 1]);
    }
  }

  /** The greedy allocation has the least total of all allocations of the same ways. */
  lemma GreedyIsOptimal(cs: seq<Curve>, ways: nat, rs: seq<Round>, j: seq<nat>)
    requires Enough(cs, ways)
    requires AllConvex(cs) && Greedy(cs, ways, rs) && Sum(Alloc(|cs|, rs)) == ways
    requires |j| == |cs| && (forall a :: 0 <= a < |cs| ==> j[a] >= 1) && Sum(j) == ways
    ensures forall a :: 0 <= a < |cs| ==> Alloc(|cs|, rs)[a] <= |cs[a]| && j[a] <= |cs[a]|
    ensures Total(cs, Alloc(|cs|, rs)) <= Total(cs, j)
  {
    hide Best, Convex, Slope, Total;
    var k := Alloc(|cs|, rs);
    SumsFit(cs, ways, j);
    SumsFit(cs, ways, k);
    if rs == [] {
      SumOnes(|cs|);
      SumIsCount(j);
    } else {
      GreedyThreshold(cs, ways, rs);
      TotalTangent(cs, ways, k, j, rs[|rs| - 1].mu);
      ScaledUnits(rs[|rs| - 1].mu);
    }
  }
}
