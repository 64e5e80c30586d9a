/** The lock-free allocator of core-id blocks: a load, arithmetic in 32 bits and a
    compare-and-exchange, retried until it wins. */
module CoreBlocks {
  import opened Basics

  /** `NMAXCORES`. */
  const NMAXCORES: nat := 512

  const WRAP: nat := 0x1_0000_0000

  /** `slow_round_up` without wrap-around. */
  function RoundUp(x: nat, q: nat): (r: nat)
    requires q > 0
  {
    if x % q == 0 then x else x + (q - x % q)
  }

  /** `rounded` and `replace` as 32-bit unsigned numbers. */
  function Rounded(current: nat, alignment: nat): nat
    requires alignment > 0
  {
    RoundUp(current, alignment) % WRAP
  }

  function Replace(current: nat, n: nat, alignment: nat): nat
    requires alignment > 0
  {
    (Rounded(current, alignment) + n) % WRAP
  }

  /** The two 32-bit arguments; division by a zero alignment is the caller's error. */
  predicate InRange(n: nat, alignment: nat) {
    n < WRAP && 0 < alignment < WRAP
  }

  /** What a caller can check before the call: the sum does not wrap for the greatest
      counter, or it wraps to more than the limit for every counter but 0. */
  predicate Harmless(n: nat, alignment: nat)
    requires alignment > 0
  {
    n + RoundUp(NMAXCORES, alignment) < WRAP ||
    (alignment > NMAXCORES && n + alignment > WRAP + NMAXCORES)
  }

  datatype Block = Block(start: nat, len: nat)

  /** Where a thread stands: outside, about to load, or about to compare and exchange. */
  datatype Pc = Idle | Wants(n: nat, alignment: nat) | Loaded(n: nat, alignment: nat, current: nat)

  /** The shared counter, the threads, and the blocks handed out so far. */
  datatype State = State(count: nat, threads: seq<Pc>, blocks: seq<Block>)

  datatype Action =
    | Call(t: nat, n: nat, alignment: nat)
    | Load(t: nat)
    | Cas(t: nat)
    | TakeId(t: nat)

  /** Call and TakeId start `allocate_contiguous_aligned_block` and `core_id`; the latter
      aborts the process when the counter has reached the limit. */
  predicate Enabled(s: State, act: Action) {
    act.t < |s.threads| &&
    match act
    case Call(t, n, a) => s.threads[t].Idle? && InRange(n, a)
    case Load(t) => s.threads[t].Wants? && s.threads[t].alignment > 0
    case Cas(t) => s.threads[t].Loaded? && s.threads[t].alignment > 0
    case TakeId(t) => s.threads[t].Idle? && s.count < NMAXCORES
  }

  /** The effect of each action; a load that finds no room ends the call with -1. */
  function Do(s: State, act: Action): State
    requires Enabled(s, act)
  {
    match act
    case Call(t, n, a) => s.(threads := s.threads[t := Wants(n, a)])
    case Load(t) =>
      var p := s.threads[t];
      s.(threads := s.threads[t := if Replace(s.count, p.n, p.alignment) > NMAXCORES then Idle
                                   else Loaded(p.n, p.alignment, s.count)])
    case Cas(t) =>
      var p := s.threads[t];
      if s.count == p.current then
        State(Replace(p.current, p.n, p.alignment), s.threads[t := Idle],
              s.blocks + [Block(Rounded(p.current, p.alignment), p.n)])
      else s.(threads := s.threads[t := Wants(p.n, p.alignment)])
    case TakeId(t) => s.(count := s.count + 1, blocks := s.blocks + [Block(s.count, 1)])
  }

  // ---- Rounding ----

  /** Rounding gives the least multiple at or above x. */
  lemma RoundUpLeast(x: nat, q: nat, m: nat)
    requires q > 0
    ensures RoundUp(x, q) % q == 0 && x <= RoundUp(x, q) < x + q
    ensures m % q == 0 && x <= m ==> RoundUp(x, q) <= m
  {
    Quotient(x, q);
    Quotient(m, q);
    if x % q != 0 {
      DivUnique(RoundUp(x, q), q, x / q + 1, 0);
      if m % q == 0 && x <= m {
        if m / q <= x / q {
          MulMono(m / q, x / q, q);
        } else {
          MulMono(x / q + 1, m / q, q);
        }
      }
    }
  }

  lemma RoundUpMono(x: nat, y: nat, q: nat)
    requires q > 0 && x <= y
    ensures RoundUp(x, q) <= RoundUp(y, q)
  {
    RoundUpLeast(y, q, 0);
    RoundUpLeast(x, q, RoundUp(y, q));
  }

  lemma NoWrap(x: nat)
    ensures x < WRAP ==> x % WRAP == x
    ensures WRAP <= x < 2 * WRAP ==> x % WRAP == x - WRAP
  {
  }

  /** A counter within the limit rounds without wrapping. */
  lemma RoundingFits(current: nat, alignment: nat)
    requires current <= NMAXCORES && 0 < alignment < WRAP
    ensures RoundUp(current, alignment) < WRAP && Rounded(current, alignment) == RoundUp(current, alignment)
  {
    RoundUpLeast(current, alignment, alignment);
    if current <= alignment {
      DivUnique(alignment, alignment, 1, 0);
    }
    NoWrap(RoundUp(current, alignment));
  }

  /** A successful exchange hands out a block inside the limit, and does not turn the
      counter back, exactly when the 32-bit sum did not wrap. */
  lemma RightIffNoWrap(current: nat, n: nat, alignment: nat)
    requires current <= NMAXCORES && InRange(n, alignment) && Replace(current, n, alignment) <= NMAXCORES
    ensures RoundUp(current, alignment) + n < WRAP <==>
            Rounded(current, alignment) + n <= NMAXCORES && current <= Replace(current, n, alignment)
    ensures RoundUp(current, alignment) + n < WRAP ==>
              Replace(current, n, alignment) == Rounded(current, alignment) + n
  {
    RoundingFits(current, alignment);
    RoundUpLeast(current, alignment, 0);
    NoWrap(RoundUp(current, alignment) + n);
  }

  /** An alignment above the limit rounds every counter but 0 to itself. */
  lemma RoundsToAlignment(current: nat, alignment: nat)
    requires current <= NMAXCORES < alignment
    ensures RoundUp(current, alignment) == if current == 0 then 0 else alignment
  {
    DivUnique(current, alignment, 0, current);
  }

  /** Harmless arguments never wrap where there is room. */
  lemma HarmlessNeverWraps(current: nat, n: nat, alignment: nat)
    requires current <= NMAXCORES && InRange(n, alignment) && Harmless(n, alignment)
    requires Replace(current, n, alignment) <= NMAXCORES
    ensures RoundUp(current, alignment) + n < WRAP
  {
    RoundingFits(current, alignment);
    NoWrap(RoundUp(current, alignment) + n);
    RoundUpMono(current, NMAXCORES, alignment);
    if alignment > NMAXCORES {
      RoundsToAlignment(current, alignment);
    }
  }

  /** Any other arguments do, at some counter that is not 0. */
  lemma HarmfulWraps(n: nat, alignment: nat) returns (current: nat)
    requires InRange(n, alignment) && !Harmless(n, alignment)
    ensures 0 < current <= NMAXCORES && Replace(current, n, alignment) <= NMAXCORES
    ensures RoundUp(current, alignment) + n >= WRAP
  {
    hide RoundUp;
    if alignment > NMAXCORES {
      current := 1;
      RoundsToAlignment(1, alignment);
      RoundsToAlignment(NMAXCORES, alignment);
    } else {
      current := LeastWrapping(n, alignment);
    }
    hide Harmless;
    RoundingFits(current, alignment);
    NoWrap(RoundUp(current, alignment) + n);
  }

  /** A counter that rounds to the least multiple at which the sum wraps. */
  lemma LeastWrapping(n: nat, alignment: nat) returns (current: nat)
    requires n < WRAP && 0 < alignment <= NMAXCORES && n + RoundUp(NMAXCORES, alignment) >= WRAP
    ensures 0 < current <= NMAXCORES && WRAP <= RoundUp(current, alignment) + n <= WRAP + NMAXCORES
  {
    hide RoundUp;
    var m := RoundUp(WRAP - n, alignment);
    RoundUpLeast(NMAXCORES, alignment, 0);
    RoundUpLeast(WRAP - n, alignment, RoundUp(NMAXCORES, alignment));
    WholeGap(m, alignment);
    current := m - alignment + 1;
    RoundUpBetween(m, alignment, current);
  }

  lemma WholeGap(m: nat, q: nat)
    requires q > 0 && m % q == 0 && m > 0
    ensures m >= q
  {
    Quotient(m, q);
    MulMono(1, m / q, q);
  }

  /** Everything in the alignment-wide gap below a positive multiple rounds up to it. */
  lemma RoundUpBetween(m: nat, q: nat, x: nat)
    requires q > 0 && m % q == 0 && m > 0 && m - q < x <= m
    ensures RoundUp(x, q) == m
  {
    Quotient(m, q);
    if m < q {
      MulMono(1, m / q, q);
    }
    RoundUpLeast(x, q, m);
    var r := RoundUp(x, q);
    Quotient(r, q);
    if r < m {
      if r / q >= m / q {
        MulMono(m / q, r / q, q);
      } else {
        MulMono(r / q + 1, m / q, q);
      }
    }
  }

  /** The condition on the arguments is exact: it says that no counter within the limit
      makes the call succeed with a sum that wrapped. */
  lemma HarmlessIff(n: nat, alignment: nat)
    requires InRange(n, alignment)
    ensures Harmless(n, alignment) <==>
            forall current: nat :: current <= NMAXCORES && Replace(current, n, alignment) <= NMAXCORES ==>
              RoundUp(current, alignment) + n < WRAP
  {
    if Harmless(n, alignment) {
      forall current: nat | current <= NMAXCORES && Replace(current, n, alignment) <= NMAXCORES
        ensures RoundUp(current, alignment) + n < WRAP
      {
        HarmlessNeverWraps(current, n, alignment);
      }
    } else {
      var current := HarmfulWraps(n, alignment);
    }
  }

  // ---- The invariant ----

  /** A thread inside a call has harmless arguments, and has gone on only where there was room. */
  predicate PcOk(p: Pc) {
    (!p.Idle? ==> InRange(p.n, p.alignment) && Harmless(p.n, p.alignment)) &&
    (p.Loaded? ==> Replace(p.current, p.n, p.alignment) <= NMAXCORES)
  }

  /** Blocks lie one after the other below the counter. */
  ghost predicate Inv(s: State) {
    s.count <= NMAXCORES &&
    (forall i :: 0 <= i < |s.blocks| ==> s.blocks[i].start + s.blocks[i].len <= s.count) &&
    (forall i, j :: 0 <= i < j < |s.blocks| ==> s.blocks[i].start + s.blocks[i].len <= s.blocks[j].start) &&
    (forall t :: 0 <= t < |s.threads| ==> PcOk(s.threads[t]))
  }

  /** Each action keeps the invariant and never turns the counter back. */
  lemma StepKeeps(s: State, act: Action)
    requires Inv(s) && Enabled(s, act) && (act.Call? ==> Harmless(act.n, act.alignment))
    ensures Inv(Do(s, act)) && s.count <= Do(s, act).count
    ensures s.blocks <= Do(s, act).blocks
  {
    hide Harmless, Replace, Rounded, RoundUp, InRange;
    if act.Cas? && s.count == s.threads[act.t].current {
      var p := s.threads[act.t];
      assert PcOk(p);
      CasIsRight(p);
    }
  }

  lemma CasIsRight(p: Pc)
    requires p.Loaded? && PcOk(p) && p.current <= NMAXCORES
    ensures var r := Rounded(p.current, p.alignment);
            p.current <= r && r % p.alignment == 0 && r + p.n == Replace(p.current, p.n, p.alignment) <= NMAXCORES
  {
    HarmlessNeverWraps(p.current, p.n, p.alignment);
    RightIffNoWrap(p.current, p.n, p.alignment);
    RoundingFits(p.current, p.alignment);
    RoundUpLeast(p.current, p.alignment, 0);
  }

  /** The state after actions of any threads in any order; those that cannot be taken
      are passed over. */
  function Run(s: State, acts: seq<Action>): State {
    if acts == [] then s
    else
      var before := Run(s, acts[..|acts| - 1]);
      if Enabled(before, acts[|acts| - 1]) then Do(before, acts[|acts| - 1]) else before
  }

  /** Arguments of a call. */
  datatype Args = Args(n: nat, alignment: nat)

  /** Every call of the run is one of these. */
  ghost predicate CallsIn(acts: seq<Action>, calls: iset<Args>) {
    forall act :: act in acts && act.Call? ==> Args(act.n, act.alignment) in calls
  }

  ghost predicate AllHarmless(calls: iset<Args>) {
    forall c :: c in calls ==> InRange(c.n, c.alignment) && Harmless(c.n, c.alignment)
  }

  lemma {:induction false} RunKeeps(s: State, acts: seq<Action>, calls: iset<Args>)
    requires Inv(s) && CallsIn(acts, calls) && AllHarmless(calls)
    ensures Inv(Run(s, acts)) && s.count <= Run(s, acts).count && s.blocks <= Run(s, acts).blocks
  {
    hide Inv, Do, Enabled, Harmless;
    if acts != [] {
      RunKeeps(s, acts[..|acts| - 1], calls);
      if Enabled(Run(s, acts[..|acts| - 1]), acts[|acts| - 1]) {
        StepKeeps(Run(s, acts[..|acts| - 1]), acts[|acts| - 1]);
      }
    }
  }

  function Initial(threads: nat): State {
    State(0, seq(threads, i => Idle), [])
  }

  /** The blocks handed out are inside the limit and pairwise disjoint. */
  ghost predicate Right(s: State) {
    (forall i :: 0 <= i < |s.blocks| ==> s.blocks[i].start + s.blocks[i].len <= NMAXCORES) &&
    (forall i, j :: 0 <= i < j < |s.blocks| ==> Apart(s.blocks[i], s.blocks[j]))
  }

  predicate Apart(b: Block, c: Block) {
    b.start + b.len <= c.start || c.start + c.len <= b.start
  }

  /** Whatever the interleaving of harmless calls, all blocks are right. */
  lemma BlocksAreRight(threads: nat, acts: seq<Action>, calls: iset<Args>)
    requires CallsIn(acts, calls) && AllHarmless(calls)
    ensures Right(Run(Initial(threads), acts))
  {
    hide Run;
    RunKeeps(Initial(threads), acts, calls);
  }

  /** Exactly the harmless calls are right in every run: any other breaks some run. */
  lemma RightExactlyWhenHarmless(calls: iset<Args>)
    requires forall c :: c in calls ==> InRange(c.n, c.alignment)
    ensures AllHarmless(calls) <==>
            forall threads: nat, acts :: CallsIn(acts, calls) ==> Right(Run(Initial(threads), acts))
  {
    hide Run, Initial, Harmless, Right;
    if AllHarmless(calls) {
      forall threads: nat, acts | CallsIn(acts, calls)
        ensures Right(Run(Initial(threads), acts))
      {
        BlocksAreRight(threads, acts, calls);
      }
    } else {
      var c :| c in calls && !Harmless(c.n, c.alignment);
      var acts := HarmfulRun(c.n, c.alignment);
      assert CallsIn(acts, calls) && !Right(Run(Initial(1), acts));
    }
  }

  /** A block handed out by an exchange starts at a multiple of the caller's alignment. */
  lemma BlockIsAligned(s: State, t: nat)
    requires Inv(s) && Enabled(s, Cas(t)) && s.count == s.threads[t].current
    ensures var b, p := Do(s, Cas(t)).blocks[|s.blocks|], s.threads[t];
            |Do(s, Cas(t)).blocks| == |s.blocks| + 1 && b.len == p.n && b.start % p.alignment == 0 && b.start >= s.count
  {
    assert PcOk(s.threads[t]);
    CasIsRight(s.threads[t]);
  }

  lemma Then(s0: State, acts: seq<Action>, s: State, act: Action, s': State)
    requires Run(s0, acts) == s && Enabled(s, act) && Do(s, act) == s'
    ensures Run(s0, acts + [act]) == s'
  {
    hide Enabled, Do;
    assert (acts + [act])[..|acts + [act]| - 1] == acts;
  }

  lemma HugeSums()
    ensures Rounded(0, 8) == 0 && Replace(0, 8, 8) == 8
    ensures Rounded(8, 8) == 8 && Replace(8, WRAP - 4, 8) == 4
    ensures Rounded(4, 4) == 4 && Replace(4, 8, 4) == 12
  {
  }

  /** One call from start to end, with nobody else. */
  lemma Alone(s0: State, acts: seq<Action>, s: State, n: nat, alignment: nat)
    requires Run(s0, acts) == s && s.threads == [Idle] && InRange(n, alignment)
    requires Replace(s.count, n, alignment) <= NMAXCORES
    ensures Run(s0, acts + [Call(0, n, alignment)] + [Load(0)] + [Cas(0)]) ==
            State(Replace(s.count, n, alignment), [Idle], s.blocks + [Block(Rounded(s.count, alignment), n)])
  {
    hide Replace, Rounded;
    var s1 := s.(threads := [Wants(n, alignment)]);
    Then(s0, acts, s, Call(0, n, alignment), s1);
    var s2 := s.(threads := [Loaded(n, alignment, s.count)]);
    Then(s0, acts + [Call(0, n, alignment)], s1, Load(0), s2);
    Then(s0, acts + [Call(0, n, alignment)] + [Load(0)], s2, Cas(0),
         State(Replace(s.count, n, alignment), [Idle], s.blocks + [Block(Rounded(s.count, alignment), n)]));
  }

  /** k ids drawn by `core_id`. */
  lemma {:induction false} Draws(k: nat) returns (acts: seq<Action>)
    requires k <= NMAXCORES
    ensures forall act :: act in acts ==> act.TakeId?
    ensures var s := Run(Initial(1), acts); s.count == k && s.threads == [Idle]
  {
    acts := [];
    NoActions(Initial(1));
    for i := 0 to k
      invariant forall act :: act in acts ==> act.TakeId?
      invariant var s := Run(Initial(1), acts); s.count == i && s.threads == [Idle]
    {
      hide Run, Initial;
      var s := Run(Initial(1), acts);
      Then(Initial(1), acts, s, TakeId(0), s.(count := s.count + 1, blocks := s.blocks + [Block(s.count, 1)]));
      acts := acts + [TakeId(0)];
    }
  }

  /** Arguments that are not harmless break a run: after some ids are drawn, one call
      succeeds with a block that leaves the limit. */
  lemma HarmfulRun(n: nat, alignment: nat) returns (acts: seq<Action>)
    requires InRange(n, alignment) && !Harmless(n, alignment)
    ensures CallsIn(acts, iset{Args(n, alignment)}) && !Right(Run(Initial(1), acts))
  {
    hide Run, Initial, Replace, Harmless;
    var current := HarmfulWraps(n, alignment);
    var draws := Draws(current);
    var s := Run(Initial(1), draws);
    Alone(Initial(1), draws, s, n, alignment);
    acts := draws + [Call(0, n, alignment)] + [Load(0)] + [Cas(0)];
    RoundingFits(current, alignment);
    var t := Run(Initial(1), acts);
    assert t.blocks[|s.blocks|] == Block(Rounded(current, alignment), n);
  }

  /** How it looks: a huge request wraps, turns the counter back
      from 8 to 4, and the next block overlaps the first. */
  lemma HugeRequestOverlaps() returns (acts: seq<Action>)
    ensures Run(Initial(1), acts) == State(12, [Idle], [Block(0, 8), Block(8, WRAP - 4), Block(4, 8)])
  {
    hide Run, Replace, Rounded;
    HugeSums();
    acts := [];
    assert Run(Initial(1), []) == Initial(1) by { NoActions(Initial(1)); }
    assert Initial(1).threads == [Idle];
    Alone(Initial(1), acts, Initial(1), 8, 8);
    acts := acts + [Call(0, 8, 8)] + [Load(0)] + [Cas(0)];
    var s1 := State(8, [Idle], [] + [Block(0, 8)]);
    Alone(Initial(1), acts, s1, WRAP - 4, 8);
    acts := acts + [Call(0, WRAP - 4, 8)] + [Load(0)] + [Cas(0)];
    var s2 := State(4, [Idle], s1.blocks + [Block(8, WRAP - 4)]);
    Alone(Initial(1), acts, s2, 8, 4);
    acts := acts + [Call(0, 8, 4)] + [Load(0)] + [Cas(0)];
  }

  lemma NoActions(s: State)
    ensures Run(s, []) == s
  {
  }

  /** Once a request finds no room it never will: the counter only grows. */
  lemma NoRoomStays(current: nat, later: nat, n: nat, alignment: nat)
    requires current <= later <= NMAXCORES && InRange(n, alignment) && Harmless(n, alignment)
    requires Replace(current, n, alignment) > NMAXCORES
    ensures Replace(later, n, alignment) > NMAXCORES && RoundUp(later, alignment) + n > NMAXCORES
  {
    RoundingFits(current, alignment);
    RoundingFits(later, alignment);
    NoWrap(RoundUp(current, alignment) + n);
    NoWrap(RoundUp(later, alignment) + n);
    RoundUpMono(current, later, alignment);
    RoundUpMono(later, NMAXCORES, alignment);
    if alignment > NMAXCORES {
      RoundsToAlignment(current, alignment);
      RoundsToAlignment(later, alignment);
    }
  }

  // ---- One call among others ----

  predicate NotMine(me: nat, acts: seq<Action>) {
    forall act :: act in acts ==> act.t != me
  }

  /** Other threads' actions leave a thread where it stands. */
  lemma {:induction false} RunLeaves(s: State, acts: seq<Action>, me: nat)
    requires NotMine(me, acts) && me < |s.threads|
    ensures |Run(s, acts).threads| == |s.threads| && Run(s, acts).threads[me] == s.threads[me]
  {
    hide Rounded, Replace;
    if acts != [] {
      RunLeaves(s, acts[..|acts| - 1], me);
    }
  }

  /** The shared counter; threads and blocks are the model's record of the run. */
  class CoreIds {
    var count: nat
    var threads: seq<Pc>
    var blocks: seq<Block>

    function S(): State
      reads this
    {
      State(count, threads, blocks)
    }

    ghost predicate Valid()
      reads this
    {
      Inv(S())
    }

    constructor (n: nat)
      ensures Valid() && S() == Initial(n)
    {
      count, threads, blocks := 0, seq(n, i => Idle), [];
    }

    /** What other threads do in the meantime. */
    method Others(me: nat, acts: seq<Action>, ghost calls: iset<Args>)
      requires Valid() && CallsIn(acts, calls) && AllHarmless(calls) && NotMine(me, acts) && me < |threads|
      modifies this
      ensures Valid() && S() == Run(old(S()), acts) && old(count) <= count && old(blocks) <= blocks
      ensures |threads| == old(|threads|) && threads[me] == old(threads[me])
    {
      hide Inv, Run;
      RunKeeps(S(), acts, calls);
      RunLeaves(S(), acts, me);
      var s := Run(S(), acts);
      count, threads, blocks := s.count, s.threads, s.blocks;
    }

    /** `allocate_contiguous_aligned_block` with any finite interference: env[i] is what the
        other threads do between this thread's i-th load and its exchange. The final state
        is that of the trace: this thread does its call, its loads and its exchanges and
        nothing else. A block is the least one that is aligned and beyond every block before
        it; -1 means that there is no room, now or later. */
    method Allocate(me: nat, n: nat, alignment: nat, env: seq<seq<Action>>, ghost calls: iset<Args>)
      returns (r: int, ghost rounds: nat, ghost trace: seq<Action>)
      requires Valid() && me < |threads| && threads[me].Idle? && InRange(n, alignment) && Harmless(n, alignment)
      requires AllHarmless(calls) && forall acts :: acts in env ==> CallsIn(acts, calls) && NotMine(me, acts)
      modifies this
      ensures Valid() && old(count) <= count && old(blocks) <= blocks
      ensures S() == Run(old(S()), trace) && rounds <= |env|
      ensures r == -1 ==> trace == Tries(me, n, alignment, env, rounds) + [Load(me)]
      ensures r != -1 ==>
                trace == Tries(me, n, alignment, env, rounds) + [Load(me)] +
                         (if rounds < |env| then env[rounds] else []) + [Cas(me)]
      ensures r == -1 ==> RoundUp(count, alignment) + n > NMAXCORES
      ensures r != -1 ==>
                r >= old(count) && r % alignment == 0 && r + n == count <= NMAXCORES &&
                r == RoundUp(Run(old(S()), trace[..|trace| - 1]).count, alignment) &&
                |blocks| > 0 && blocks[|blocks| - 1] == Block(r, n)
    {
      hide Inv, Do, Enabled, Run, Replace, Rounded, RoundUp, CallsIn, AllHarmless, NotMine, Harmless;
      CallKeeps(S(), me, n, alignment);
      ghost var s0 := S();
      threads := threads[me := Wants(n, alignment)];
      trace := [Call(me, n, alignment)];
      RunOne(s0, Call(me, n, alignment));
      var i := 0;
      while true
        invariant Valid() && me < |threads| && threads[me] == Wants(n, alignment) && i <= |env|
        invariant old(count) <= count && old(blocks) <= blocks
        invariant S() == Run(s0, trace) && trace == Tries(me, n, alignment, env, i)
        decreases |env| - i
      {
        var current := count;
        var rounded := Rounded(current, alignment);
        var replace := Replace(current, n, alignment);
        LoadKeeps(S(), me);
        RunMore(s0, trace, Load(me));
        trace := trace + [Load(me)];
        if replace > NMAXCORES {
          InLimit(S());
          NoRoomStays(current, current, n, alignment);
          threads := threads[me := Idle];
          return -1, i, trace;
        }
        threads := threads[me := Loaded(n, alignment, current)];
        ghost var acts := if i < |env| then env[i] else [];
        if i < |env| {
          assert env[i] in env;
          Others(me, env[i], calls);
        }
        RunConcat(s0, trace, acts);
        NoActions(Run(s0, trace));
        trace := trace + acts;
        CasKeeps(S(), me);
        RunMore(s0, trace, Cas(me));
        ghost var before := trace;
        trace := trace + [Cas(me)];
        assert trace[..|trace| - 1] == before;
        if count == current {
          count := replace;
          threads := threads[me := Idle];
          blocks := blocks + [Block(rounded, n)];
          return rounded, i, trace;
        }
        threads := threads[me := Wants(n, alignment)];
        i := i + 1;
      }
    }
  }

  /** What a thread and the others have done when its first k exchanges have failed. */
  ghost function Tries(me: nat, n: nat, alignment: nat, env: seq<seq<Action>>, k: nat): seq<Action>
    requires k <= |env|
  {
    if k == 0 then [Call(me, n, alignment)]
    else Tries(me, n, alignment, env, k - 1) + [Load(me)] + env[k - 1] + [Cas(me)]
  }

  lemma RunOne(s: State, act: Action)
    ensures Run(s, [act]) == if Enabled(s, act) then Do(s, act) else s
  {
    hide Enabled, Do;
    assert [act][..0] == [];
    NoActions(s);
  }

  lemma RunMore(s: State, acts: seq<Action>, act: Action)
    ensures var before := Run(s, acts);
            Run(s, acts + [act]) == if Enabled(before, act) then Do(before, act) else before
  {
    hide Enabled, Do;
    assert (acts + [act])[..|acts + [act]| - 1] == acts;
  }

  lemma {:induction false} RunConcat(s: State, a: seq<Action>, b: seq<Action>)
    ensures Run(s, a + b) == Run(Run(s, a), b)
    decreases |b|
  {
    hide Enabled, Do;
    if b == [] {
      assert a + b == a;
    } else {
      var init := b[..|b| - 1];
      RunConcat(s, a, init);
      assert (a + b)[..|a + b| - 1] == a + init && (a + b)[|a + b| - 1] == b[|b| - 1];
    }
  }

  lemma InLimit(s: State)
    requires Inv(s)
    ensures s.count <= NMAXCORES
  {
  }

  lemma CallKeeps(s: State, t: nat, n: nat, alignment: nat)
    requires Inv(s) && t < |s.threads| && s.threads[t].Idle? && InRange(n, alignment) && Harmless(n, alignment)
    ensures Enabled(s, Call(t, n, alignment))
    ensures Do(s, Call(t, n, alignment)) == s.(threads := s.threads[t := Wants(n, alignment)])
    ensures Inv(s.(threads := s.threads[t := Wants(n, alignment)]))
  {
    hide Replace;
    StepKeeps(s, Call(t, n, alignment));
  }

  lemma LoadKeeps(s: State, t: nat)
    requires Inv(s) && t < |s.threads| && s.threads[t].Wants?
    ensures s.threads[t].alignment > 0 && Enabled(s, Load(t))
    ensures var p := s.threads[t];
            var s' := s.(threads := s.threads[t := if Replace(s.count, p.n, p.alignment) > NMAXCORES then Idle
                                                   else Loaded(p.n, p.alignment, s.count)]);
            Inv(s') && Do(s, Load(t)) == s'
  {
    assert PcOk(s.threads[t]);
    hide Replace;
    StepKeeps(s, Load(t));
  }

  lemma CasKeeps(s: State, t: nat)
    requires Inv(s) && t < |s.threads| && s.threads[t].Loaded?
    ensures s.threads[t].alignment > 0 && Enabled(s, Cas(t))
    ensures var p := s.threads[t];
            if s.count == p.current then
              var r := Rounded(p.current, p.alignment);
              var s' := State(Replace(p.current, p.n, p.alignment), s.threads[t := Idle], s.blocks + [Block(r, p.n)]);
              r >= s.count && r == RoundUp(s.count, p.alignment) && r % p.alignment == 0 &&
              r + p.n == Replace(p.current, p.n, p.alignment) <= NMAXCORES && Inv(s') && Do(s, Cas(t)) == s'
            else
              var s' := s.(threads := s.threads[t := Wants(p.n, p.alignment)]);
              Inv(s') && Do(s, Cas(t)) == s'
  {
    assert PcOk(s.threads[t]);
    if s.count == s.threads[t].current {
      CasIsRight(s.threads[t]);
      RoundingFits(s.count, s.threads[t].alignment);
    }
    hide Replace, Rounded, RoundUp, Harmless;
    StepKeeps(s, Cas(t));
  }
}
