/** The repair for cache buckets 10 and 11, which must not be apart. */
module CosRepair {
  import opened Basics

  // ---- Counting buckets ----

  function One(yes: bool): nat {
    if yes then 1 else 0
  }

  /** How often bucket b is in a partition, */
  function Occ(p: seq<int>, b: int): nat {
    if p == [] then 0 else Occ(p[..|p| - 1], b) + One(p[|p| - 1] == b)
  }

  /** and in all partitions. */
  function Times(ps: seq<seq<int>>, b: int): nat {
    if ps == [] then 0 else Times(ps[..|ps| - 1], b) + Occ(ps[|ps| - 1], b)
  }

  /** No bucket is in two partitions, or twice in one. */
  ghost predicate Disjoint(ps: seq<seq<int>>) {
    forall b :: Times(ps, b) <= 1
  }

  ghost predicate Together(ps: seq<seq<int>>) {
    exists a :: 0 <= a < |ps| && Occ(ps[a], 10) > 0 && Occ(ps[a], 11) > 0
  }

  lemma OccPush(p: seq<int>, x: int, b: int)
    ensures Occ(p + [x], b) == Occ(p, b) + One(x == b)
  {
    assert (p + [x])[..|p|] == p;
  }

  lemma {:induction false} OccIn(p: seq<int>, b: int)
    ensures Occ(p, b) > 0 <==> b in p
    decreases |p|
  {
    if p != [] {
      OccIn(p[..|p| - 1], b);
    }
  }

  lemma {:induction false} TimesAt(ps: seq<seq<int>>, a: nat, b: int)
    requires a < |ps|
    ensures Occ(ps[a], b) <= Times(ps, b)
    decreases |ps|
  {
    if a < |ps| - 1 {
      TimesAt(ps[..|ps| - 1], a, b);
    }
  }

  lemma {:induction false} TimesNone(ps: seq<seq<int>>, b: int)
    requires forall a :: 0 <= a < |ps| ==> Occ(ps[a], b) == 0
    ensures Times(ps, b) == 0
    decreases |ps|
  {
    if ps != [] {
      TimesNone(ps[..|ps| - 1], b);
    }
  }

  /** A bucket that occurs once is in one partition only. */
  lemma {:induction false} TimesTwo(ps: seq<seq<int>>, a: nat, c: nat, b: int)
    requires a < c < |ps|
    ensures Occ(ps[a], b) + Occ(ps[c], b) <= Times(ps, b)
    decreases |ps|
  {
    if c < |ps| - 1 {
      TimesTwo(ps[..|ps| - 1], a, c, b);
    } else {
      TimesAt(ps[..|ps| - 1], a, b);
    }
  }

  /** Changing one partition changes the total by the difference. */
  lemma {:induction false} TimesUpdate(ps: seq<seq<int>>, a: nat, p: seq<int>, b: int)
    requires a < |ps|
    ensures Times(ps[a := p], b) + Occ(ps[a], b) == Times(ps, b) + Occ(p, b)
    decreases |ps|
  {
    var n := |ps| - 1;
    if a == n {
      assert ps[a := p][..n] == ps[..n];
    } else {
      assert ps[a := p][..n] == ps[..n][a := p];
      TimesUpdate(ps[..n], a, p, b);
    }
  }

  /** Bucket x of partition a and bucket y of partition c trade places. */
  ghost predicate Traded(p: seq<seq<int>>, q: seq<seq<int>>, a: nat, x: int, c: nat, y: int) {
    a < |p| == |q| && c < |p| && a != c && |q[a]| == |p[a]| && |q[c]| == |p[c]| &&
    Occ(p[a], x) > 0 && Occ(p[c], y) > 0 &&
    (forall b :: Occ(q[a], b) + One(b == x) == Occ(p[a], b) + One(b == y)) &&
    (forall b :: Occ(q[c], b) + One(b == y) == Occ(p[c], b) + One(b == x)) &&
    forall d :: 0 <= d < |p| && d != a && d != c ==> q[d] == p[d]
  }

  lemma TradeKeeps(p: seq<seq<int>>, q: seq<seq<int>>, a: nat, x: int, c: nat, y: int)
    requires Traded(p, q, a, x, c, y)
    ensures (forall b :: Times(q, b) == Times(p, b)) && forall d :: 0 <= d < |p| ==> |q[d]| == |p[d]|
  {
    var r := p[a := q[a]];
    forall b
      ensures Times(q, b) == Times(p, b)
    {
      TimesUpdate(p, a, q[a], b);
      TimesUpdate(r, c, q[c], b);
      assert q == r[c := q[c]];
    }
  }

  // ---- Stack surgery ----

  /** The stack after its elements from n up, but not i, were moved to a second one, which
      turns their order round. */
  function Moved(stack: seq<int>, n: nat, i: nat): (r: seq<int>)
    requires n <= |stack| && i < |stack|
    ensures |r| == |stack| - n - One(n <= i)
  {
    if n <= i then Reversed(stack[n..i] + stack[i + 1..]) else Reversed(stack[n..])
  }

  /** The stack without its element i, the other way round. */
  function Without(stack: seq<int>, i: nat): (r: seq<int>)
    requires i < |stack|
    ensures |r| == |stack| - 1
  {
    Moved(stack, 0, i)
  }

  /** The element nearest the top that is not mark is at i. */
  ghost predicate TopOther(stack: seq<int>, mark: int, i: nat) {
    i < |stack| && stack[i] != mark && forall k :: i < k < |stack| ==> stack[k] == mark
  }

  lemma MoveOne(stack: seq<int>, n: nat, i: nat)
    requires n < |stack| && i < |stack|
    ensures Moved(stack, n, i) == Moved(stack, n + 1, i) + if n == i then [] else [stack[n]]
  {
    hide Reversed;
    if n < i {
      MoveBelow(stack, n, i);
    } else if n > i {
      MoveAbove(stack, n);
    } else {
      assert stack[n..i] + stack[i + 1..] == stack[n + 1..];
    }
  }

  lemma MoveBelow(stack: seq<int>, n: nat, i: nat)
    requires n < i < |stack|
    ensures Reversed(stack[n..i] + stack[i + 1..]) == Reversed(stack[n + 1..i] + stack[i + 1..]) + [stack[n]]
  {
    hide Reversed;
    assert stack[n..i] == [stack[n]] + stack[n + 1..i];
    ReversedPush(stack[n], stack[n + 1..i] + stack[i + 1..]);
    assert stack[n..i] + stack[i + 1..] == [stack[n]] + (stack[n + 1..i] + stack[i + 1..]);
  }

  lemma MoveAbove(stack: seq<int>, n: nat)
    requires n < |stack|
    ensures Reversed(stack[n..]) == Reversed(stack[n + 1..]) + [stack[n]]
  {
    hide Reversed;
    assert stack[n..] == [stack[n]] + stack[n + 1..];
    ReversedPush(stack[n], stack[n + 1..]);
  }

  lemma ReversedPush(x: int, s: seq<int>)
    ensures Reversed([x] + s) == Reversed(s) + [x]
  {
  }

  lemma {:induction false} OccMoved(stack: seq<int>, n: nat, i: nat, b: int)
    requires n <= |stack| && i < |stack|
    ensures Occ(Moved(stack, n, i), b) + Occ(stack[..n], b) + One(n <= i && stack[i] == b) == Occ(stack, b)
    decreases |stack| - n
  {
    hide Occ;
    if n == |stack| {
      assert stack[..n] == stack;
      OccNone(b);
    } else {
      OccMoved(stack, n + 1, i, b);
      assert stack[..n + 1] == stack[..n] + [stack[n]];
      OccPush(stack[..n], stack[n], b);
      MoveOne(stack, n, i);
      OccPush(Moved(stack, n + 1, i), stack[n], b);
      assert Moved(stack, n + 1, i) + [] == Moved(stack, n + 1, i);
    }
  }

  lemma OccNone(b: int)
    ensures Occ([], b) == 0
  {
  }

  /** Every other bucket is still there. */
  lemma OccWithout(stack: seq<int>, i: nat)
    requires i < |stack|
    ensures forall b :: Occ(Without(stack, i), b) + One(b == stack[i]) == Occ(stack, b)
  {
    hide Occ, Moved;
    forall b
      ensures Occ(Without(stack, i), b) + One(b == stack[i]) == Occ(stack, b)
    {
      OccMoved(stack, 0, i, b);
      OccNone(b);
      assert stack[..0] == [];
    }
  }

  /** Empties the stack and pushes back all but its topmost element other than mark. */
  method TakeOther(stack: seq<int>, mark: int) returns (rest: seq<int>, swapMe: int, ghost i: nat)
    requires Occ(stack, mark) < |stack|
    ensures TopOther(stack, mark, i) && swapMe == stack[i] && rest == Without(stack, i)
    ensures forall b :: Occ(rest, b) + One(b == swapMe) == Occ(stack, b)
  {
    hide Occ, Moved;
    i := FindOther(stack, mark);
    var clustParts := stack;
    rest, swapMe := [], -1;
    var notFound := true;
    while clustParts != []
      invariant |clustParts| <= |stack| && clustParts == stack[..|clustParts|]
      invariant notFound <==> i < |clustParts|
      invariant !notFound ==> swapMe == stack[i]
      invariant rest == Moved(stack, |clustParts|, i)
      decreases |clustParts|
    {
      var n := |clustParts| - 1;
      var buckID := clustParts[n];
      MoveOne(stack, n, i);
      if buckID != mark && notFound {
        swapMe := buckID;
        notFound := false;
      } else {
        rest := rest + [buckID];
      }
      clustParts := clustParts[..n];
    }
    OccWithout(stack, i);
  }

  ghost function FindOther(stack: seq<int>, mark: int): (i: nat)
    requires Occ(stack, mark) < |stack|
    ensures TopOther(stack, mark, i)
    decreases |stack|
  {
    var n := |stack| - 1;
    if stack[n] != mark then n else FindOther(stack[..n], mark)
  }

  /** Where a bucket that is in the stack once is, */
  ghost function FindMark(stack: seq<int>, mark: int): (i: nat)
    requires Occ(stack, mark) == 1
    ensures i < |stack| && forall k :: 0 <= k < |stack| ==> (stack[k] == mark <==> k == i)
    decreases |stack|
  {
    var n := |stack| - 1;
    if stack[n] != mark then FindMark(stack[..n], mark) else OccIn(stack[..n], mark); n
  }

  /** Empties the stack and pushes back everything but mark. */
  method DropMark(stack: seq<int>, mark: int) returns (rest: seq<int>, ghost i: nat)
    requires Occ(stack, mark) == 1
    ensures i < |stack| && stack[i] == mark && rest == Without(stack, i)
    ensures forall b :: Occ(rest, b) + One(b == mark) == Occ(stack, b)
  {
    hide Occ, Moved;
    i := FindMark(stack, mark);
    var clustParts := stack;
    rest := [];
    while clustParts != []
      invariant |clustParts| <= |stack| && clustParts == stack[..|clustParts|]
      invariant rest == Moved(stack, |clustParts|, i)
      decreases |clustParts|
    {
      var n := |clustParts| - 1;
      var buckID := clustParts[n];
      MoveOne(stack, n, i);
      if buckID != mark {
        rest := rest + [buckID];
      }
      clustParts := clustParts[..n];
    }
    OccWithout(stack, i);
  }

  // ---- The repair ----

  /** Where a bucket is, -1 when it is nowhere; the scan pops a copy of every stack. */
  method FindBucket(ps: array<seq<int>>, bucket: int) returns (victim: int)
    ensures victim == -1 || (0 <= victim < ps.Length && Occ(ps[victim], bucket) > 0)
    ensures victim == -1 ==> forall a :: 0 <= a < ps.Length ==> Occ(ps[a], bucket) == 0
  {
    victim := -1;
    for a := 0 to ps.Length
      invariant victim == -1 || (0 <= victim < a && Occ(ps[victim], bucket) > 0)
      invariant victim == -1 ==> forall b :: 0 <= b < a ==> Occ(ps[b], bucket) == 0
    {
      var found := Scan(ps[a], bucket);
      if found {
        victim := a;
      }
    }
  }

  method Scan(stack: seq<int>, bucket: int) returns (found: bool)
    ensures found <==> Occ(stack, bucket) > 0
  {
    var clustParts := stack;
    found := false;
    while clustParts != []
      invariant found || Occ(clustParts, bucket) > 0 <==> Occ(stack, bucket) > 0
      decreases |clustParts|
    {
      var n := |clustParts| - 1;
      if clustParts[n] == bucket {
        found := true;
      }
      clustParts := clustParts[..n];
    }
  }

  /** The partitions after the trade: the bucket nearest the top of a that is not mark goes
      to the top of c, the bucket wanted to the top of a, and both stacks are turned round. */
  ghost predicate Exchanged(p: seq<seq<int>>, q: seq<seq<int>>, a: nat, mark: int, c: nat, wanted: int,
                            i: nat, j: nat)
  {
    a < |p| && c < |p| && a != c && TopOther(p[a], mark, i) && j < |p[c]| && p[c][j] == wanted &&
    q == p[a := Without(p[a], i) + [wanted]][c := Without(p[c], j) + [p[a][i]]]
  }

  /** Trades some other bucket of partition a, which holds mark, for the bucket wanted
      there, now in c. */
  method Trade(ps: array<seq<int>>, a: nat, mark: int, c: nat, wanted: int)
    returns (swapMe: int, ghost i: nat, ghost j: nat)
    requires a < ps.Length && c < ps.Length && a != c && Disjoint(ps[..])
    requires |ps[a]| > 1 && Occ(ps[a], mark) > 0 && Occ(ps[c], wanted) > 0
    modifies ps
    ensures swapMe != mark && Traded(old(ps[..]), ps[..], a, swapMe, c, wanted)
    ensures Exchanged(old(ps[..]), ps[..], a, mark, c, wanted, i, j)
  {
    ghost var p := ps[..];
    TimesAt(p, a, mark);
    TimesAt(p, c, wanted);
    hide Occ, Times, Without, TopOther;
    var rest1, rest2;
    rest1, swapMe, i := TakeOther(ps[a], mark);
    rest2, j := DropMark(ps[c], wanted);
    assert swapMe != mark by { IsOther(p[a], mark, i); }
    forall b
      ensures Occ(rest1 + [wanted], b) + One(b == swapMe) == Occ(p[a], b) + One(b == wanted)
      ensures Occ(rest2 + [swapMe], b) + One(b == wanted) == Occ(p[c], b) + One(b == swapMe)
    {
      OccPush(rest1, wanted, b);
      OccPush(rest2, swapMe, b);
    }
    assert One(swapMe == swapMe) == 1;
    ps[a] := rest1 + [wanted];
    ps[c] := rest2 + [swapMe];
    assert ps[..] == p[a := rest1 + [wanted]][c := rest2 + [swapMe]];
  }

  lemma IsOther(stack: seq<int>, mark: int, i: nat)
    requires TopOther(stack, mark, i)
    ensures i < |stack| && stack[i] != mark
  {
  }

  /** Exactly one of the two buckets is handed out, as with eleven ways. */
  ghost predicate OneMissing(ps: seq<seq<int>>) {
    Times(ps, 10) > 0 <==> Times(ps, 11) == 0
  }

  ghost predicate AllSmall(ps: seq<seq<int>>) {
    forall a :: 0 <= a < |ps| ==> |ps[a]| < 2
  }

  /** 10 and 11 on top of partition d, whose two top buckets take their places. */
  function Topped(p: seq<seq<int>>, a: nat, c: nat, d: nat): seq<seq<int>>
    requires a < |p| && c < |p| && d < |p| && |p[d]| >= 2
  {
    var n := |p[d]|;
    p[d := p[d][..n - 2] + [10] + [11]][a := [p[d][n - 1]]][c := [p[d][n - 2]]]
  }

  ghost predicate FirstBig(p: seq<seq<int>>, d: nat) {
    d < |p| && |p[d]| >= 2 && forall b :: 0 <= b < d ==> |p[b]| < 2
  }

  ghost predicate Apart(p: seq<seq<int>>, a: nat, c: nat) {
    a < |p| && c < |p| && a != c && 10 in p[a] && 11 in p[c]
  }

  /** The repair when 10 is in a and 11 in c: the partition of 10 takes both if it has
      another bucket to give, else that of 11, else the first that has two. */
  ghost predicate Repaired(p: seq<seq<int>>, q: seq<seq<int>>, a: nat, c: nat)
    requires a < |p| && c < |p|
  {
    if |p[a]| > 1 then exists i, j :: Exchanged(p, q, a, 10, c, 11, i, j)
    else if |p[c]| > 1 then exists i, j :: Exchanged(p, q, c, 11, a, 10, i, j)
    else if AllSmall(p) then q == p
    else exists d :: FirstBig(p, d) && q == Topped(p, a, c, d)
  }

  /** `verify_intel_cos_issue`; ok is false where the source goes on to use partition -1,
      after which nothing is promised. */
  method VerifyIntelCosIssue(ps: array<seq<int>>) returns (ok: bool)
    requires Disjoint(ps[..])
    modifies ps
    // It goes wrong exactly when one bucket is missing and some partition has two.
    ensures ok <==> !OneMissing(old(ps[..])) || AllSmall(old(ps[..]))
    // No bucket is lost, duplicated or invented, and no partition changes size.
    ensures ok ==> forall b :: Times(ps[..], b) == Times(old(ps[..]), b)
    ensures ok ==> forall a :: 0 <= a < ps.Length ==> |ps[a]| == |old(ps[..])[a]|
    // 10 and 11 end up together unless every partition is too small for both.
    ensures ok && Times(old(ps[..]), 10) > 0 ==> Together(ps[..]) || AllSmall(ps[..])
    // Nothing happens when they are together, or one is absent.
    ensures ok && (Together(old(ps[..])) || Times(old(ps[..]), 10) == 0 || Times(old(ps[..]), 11) == 0) ==>
              ps[..] == old(ps[..])
    // When they are apart, this is who gets what.
    ensures forall a, c :: Apart(old(ps[..]), a, c) ==> Repaired(old(ps[..]), ps[..], a, c)
  {
    hide Occ, Times, Traded, Exchanged, Repaired;
    ghost var p := ps[..];
    var v10 := FindBucket(ps, 10);
    var v11 := FindBucket(ps, 11);
    Located(p, v10, v11);
    OnlyThere(p, v10, v11);
    ok := true;
    if v10 != v11 {
      var size10 := if v10 < 0 then -1 else |ps[v10]|;
      var size11 := if v11 < 0 then -1 else |ps[v11]|;
      if size10 > 1 {
        if v11 < 0 {
          assert |p[v10]| >= 2;
          return false;
        }
        ghost var s, i, j;
        s, i, j := Trade(ps, v10, 10, v11, 11);
        TradeRepairs(p, ps[..], v10, v11, i, j);
        TradeKeeps(p, ps[..], v10, s, v11, 11);
        TradeJoins(p, ps[..], v10, s, v11, 10, 11);
      } else if size11 > 1 {
        if v10 < 0 {
          assert |p[v11]| >= 2;
          return false;
        }
        ghost var s, i, j;
        s, i, j := Trade(ps, v11, 11, v10, 10);
        TradeRepairs(p, ps[..], v10, v11, i, j);
        TradeKeeps(p, ps[..], v11, s, v10, 10);
        TradeJoins(p, ps[..], v11, s, v10, 11, 10);
      } else {
        ok := BothSingle(ps, v10, v11);
      }
    }
  }

  lemma Located(p: seq<seq<int>>, v10: int, v11: int)
    requires Disjoint(p)
    requires v10 == -1 || (0 <= v10 < |p| && Occ(p[v10], 10) > 0)
    requires v11 == -1 || (0 <= v11 < |p| && Occ(p[v11], 11) > 0)
    requires v10 == -1 ==> forall a :: 0 <= a < |p| ==> Occ(p[a], 10) == 0
    requires v11 == -1 ==> forall a :: 0 <= a < |p| ==> Occ(p[a], 11) == 0
    ensures (v10 == -1 <==> Times(p, 10) == 0) && (v11 == -1 <==> Times(p, 11) == 0)
    ensures v10 != -1 && v10 == v11 ==> Together(p)
    ensures v10 != v11 ==> !Together(p)
  {
    hide Occ, Times;
    if v10 != -1 { TimesAt(p, v10, 10); } else { TimesNone(p, 10); }
    if v11 != -1 { TimesAt(p, v11, 11); } else { TimesNone(p, 11); }
    if v10 != v11 && Together(p) {
      var a :| 0 <= a < |p| && Occ(p[a], 10) > 0 && Occ(p[a], 11) > 0;
      if v10 != -1 { OnlyOne(p, a, v10, 10); }
      if v11 != -1 { OnlyOne(p, a, v11, 11); }
    }
  }

  /** Nowhere else are the two. */
  lemma OnlyThere(p: seq<seq<int>>, v10: int, v11: int)
    requires Disjoint(p)
    requires v10 == -1 || (0 <= v10 < |p| && Occ(p[v10], 10) > 0)
    requires v11 == -1 || (0 <= v11 < |p| && Occ(p[v11], 11) > 0)
    requires v10 == -1 ==> forall a :: 0 <= a < |p| ==> Occ(p[a], 10) == 0
    requires v11 == -1 ==> forall a :: 0 <= a < |p| ==> Occ(p[a], 11) == 0
    ensures forall a :: 0 <= a < |p| && 10 in p[a] ==> a == v10
    ensures forall a :: 0 <= a < |p| && 11 in p[a] ==> a == v11
  {
    hide Occ, Times;
    forall a | 0 <= a < |p|
      ensures (10 in p[a] ==> a == v10) && (11 in p[a] ==> a == v11)
    {
      OccIn(p[a], 10);
      OccIn(p[a], 11);
      if 10 in p[a] { OnlyOne(p, a, v10, 10); }
      if 11 in p[a] { OnlyOne(p, a, v11, 11); }
    }
  }

  lemma TradeRepairs(p: seq<seq<int>>, q: seq<seq<int>>, a: nat, c: nat, i: nat, j: nat)
    requires a < |p| && c < |p|
    requires if |p[a]| > 1 then Exchanged(p, q, a, 10, c, 11, i, j)
             else |p[c]| > 1 && Exchanged(p, q, c, 11, a, 10, i, j)
    ensures Repaired(p, q, a, c)
  {
    hide Exchanged;
  }

  lemma OnlyOne(p: seq<seq<int>>, a: nat, c: nat, b: int)
    requires Disjoint(p) && a < |p| && c < |p| && Occ(p[a], b) > 0 && Occ(p[c], b) > 0
    ensures a == c
  {
    if a < c {
      TimesTwo(p, a, c, b);
    } else if c < a {
      TimesTwo(p, c, a, b);
    }
  }

  lemma TradeJoins(p: seq<seq<int>>, q: seq<seq<int>>, a: nat, s: int, c: nat, here: int, wanted: int)
    requires Traded(p, q, a, s, c, wanted) && Occ(p[a], here) > 0 && s != here
    ensures Occ(q[a], here) > 0 && Occ(q[a], wanted) > 0
  {
    hide Occ;
    assert Occ(q[a], here) + One(here == s) == Occ(p[a], here) + One(here == wanted);
    assert Occ(q[a], wanted) + One(wanted == s) == Occ(p[a], wanted) + 1;
  }

  /** Both alone or missing: they take the place of the top two buckets of the first
      partition that has two. */
  method BothSingle(ps: array<seq<int>>, v10: int, v11: int) returns (ok: bool)
    requires -1 <= v10 < ps.Length && -1 <= v11 < ps.Length && v10 != v11
    requires v10 >= 0 ==> |ps[v10]| <= 1 && Occ(ps[v10], 10) > 0
    requires v11 >= 0 ==> |ps[v11]| <= 1 && Occ(ps[v11], 11) > 0
    modifies ps
    ensures ok <==> (v10 >= 0 && v11 >= 0) || AllSmall(old(ps[..]))
    ensures ok ==> forall b :: Times(ps[..], b) == Times(old(ps[..]), b)
    ensures ok ==> forall a :: 0 <= a < ps.Length ==> |ps[a]| == |old(ps[..])[a]|
    ensures ok ==> Together(ps[..]) || AllSmall(ps[..])
    ensures ok && (v10 < 0 || v11 < 0) ==> ps[..] == old(ps[..])
    ensures v10 >= 0 && v11 >= 0 ==> Repaired(old(ps[..]), ps[..], v10, v11)
  {
    hide Times;
    var a := 0;
    if v10 >= 0 { OccIn(ps[v10], 10); }
    if v11 >= 0 { OccIn(ps[v11], 11); }
    while a < ps.Length
      invariant 0 <= a <= ps.Length && ps[..] == old(ps[..])
      invariant forall b :: 0 <= b < a ==> |ps[b]| < 2
    {
      if a != v10 && a != v11 && |ps[a]| >= 2 {
        if v10 < 0 || v11 < 0 {
          assert |old(ps[..])[a]| >= 2;
          return false;
        }
        assert FirstBig(old(ps[..]), a);
        SwapTop(ps, v10, v11, a);
        return true;
      }
      a := a + 1;
    }
    return true;
  }

  method SwapTop(ps: array<seq<int>>, v10: nat, v11: nat, a: nat)
    requires v10 < ps.Length && v11 < ps.Length && v10 != v11 && a < ps.Length && a != v10 && a != v11
    requires ps[v10] == [10] && ps[v11] == [11] && |ps[a]| >= 2
    modifies ps
    ensures forall b :: Times(ps[..], b) == Times(old(ps[..]), b)
    ensures forall d :: 0 <= d < ps.Length ==> |ps[d]| == |old(ps[..])[d]|
    ensures Together(ps[..]) && ps[..] == Topped(old(ps[..]), v10, v11, a)
  {
    hide Occ, Times;
    var n := |ps[a]|;
    var swap1 := ps[a][n - 1];
    var swap2 := ps[a][n - 2];
    var low := ps[a][..n - 2];
    ghost var p := ps[..];
    ps[a] := low + [10] + [11];
    ps[v10] := [swap1];
    ps[v11] := [swap2];
    assert p[a] == low + [swap2] + [swap1];
    assert ps[..] == p[a := low + [10] + [11]][v10 := [swap1]][v11 := [swap2]];
    SwapKeeps(p, v10, v11, a, low, swap1, swap2);
  }

  lemma SwapKeeps(p: seq<seq<int>>, v10: nat, v11: nat, a: nat, low: seq<int>, swap1: int, swap2: int)
    requires v10 < |p| && v11 < |p| && v10 != v11 && a < |p| && a != v10 && a != v11
    requires p[v10] == [10] && p[v11] == [11] && p[a] == low + [swap2] + [swap1]
    ensures var q := p[a := low + [10] + [11]][v10 := [swap1]][v11 := [swap2]];
            (forall b :: Times(q, b) == Times(p, b)) && (forall d :: 0 <= d < |p| ==> |q[d]| == |p[d]|) && Together(q)
  {
    hide Occ, Times;
    var p1 := p[a := low + [10] + [11]];
    var p2 := p1[v10 := [swap1]];
    var q := p2[v11 := [swap2]];
    forall b
      ensures Times(q, b) == Times(p, b)
    {
      SwapCounts(low, swap2, swap1, b);
      TimesUpdate(p, a, low + [10] + [11], b);
      TimesUpdate(p1, v10, [swap1], b);
      TimesUpdate(p2, v11, [swap2], b);
    }
    SwapCounts(low, 10, 11, 10);
    SwapCounts(low, 10, 11, 11);
    assert Occ(q[a], 10) > 0 && Occ(q[a], 11) > 0;
  }

  lemma SwapCounts(low: seq<int>, x: int, y: int, b: int)
    ensures Occ(low + [x] + [y], b) == Occ(low, b) + One(x == b) + One(y == b)
    ensures Occ(low + [10] + [11], b) == Occ(low, b) + One(10 == b) + One(11 == b)
    ensures Occ([x], b) == One(x == b) && Occ([y], b) == One(y == b)
    ensures Occ([10], b) == One(10 == b) && Occ([11], b) == One(11 == b)
  {
    OccPush(low, x, b);
    OccPush(low + [x], y, b);
    OccPush(low, 10, b);
    OccPush(low + [10], 11, b);
    hide Occ;
    OccOne(x, b);
    OccOne(y, b);
    OccOne(10, b);
    OccOne(11, b);
  }

  lemma OccOne(x: int, b: int)
    ensures Occ([x], b) == One(x == b)
  {
    assert [x][..0] == [];
  }
}
