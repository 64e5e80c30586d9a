/** The integrated load harness: T threads, each response closed in two critical sections. */
module Harness {

  datatype Config = Config(threads: nat, warmupReqs: nat, maxReqs: nat)

  datatype Status = INIT | WARMUP | ROI

  /** Where a thread stands between two critical sections or clock reads. */
  datatype Thread =
    | Idle
    | Waiting(id: nat, genNs: nat)
    | Serving
    | Responding(id: nat, svcNs: nat)
    | Counting

  datatype ReqInfo = ReqInfo(id: nat, startNs: nat)

  datatype Sample = Sample(queue: nat, svc: nat, sjrn: nat)

  /** The shared fields, the threads and the clock; pendingAtRoi and roiStarts are history:
      the threads between their two sections when the ROI began, and how often it began. */
  datatype State = State(
    status: Status, startedReqs: nat, inFlightReqs: map<nat, nat>, numReqsInFlight: int,
    queueTimes: seq<nat>, svcTimes: seq<nat>, sjrnTimes: seq<nat>,
    finishedReqs: nat, reqInfo: seq<ReqInfo>, threads: seq<Thread>, now: nat, dumped: bool,
    pendingAtRoi: nat, roiStarts: nat)

  function Initial(c: Config): State {
    State(INIT, 0, map[], 0, [], [], [], 0, seq(c.threads, i => ReqInfo(0, 0)), seq(c.threads, i => Idle), 0, false,
        0, 0)
  }

  datatype Action =
    | Start
    | Create(t: nat, genNs: nat)
    | Receive(t: nat, clock: nat)
    | Measure(t: nat, clock: nat)
    | Finish(t: nat, clock: nat)
    | Count(t: nat)

  /** The barrier lets the first action through once every thread is there; a thread wakes
      no earlier than its request's arrival time; sendResp demands that the clock has
      advanced; the clock never runs backwards; nothing happens after the process exits. */
  predicate Enabled(s: State, act: Action) {
    !s.dumped &&
    match act
    case Start => s.status == INIT && forall i :: 0 <= i < |s.threads| ==> s.threads[i].Idle?
    case Create(t, _) => t < |s.threads| && s.threads[t].Idle? && s.status != INIT
    case Receive(t, clock) =>
      t < |s.threads| && s.threads[t].Waiting? && clock >= s.now && clock >= s.threads[t].genNs
    case Measure(t, clock) =>
      t < |s.threads| && t < |s.reqInfo| && s.threads[t].Serving? && clock >= s.now && clock > s.reqInfo[t].startNs
    case Finish(t, clock) => t < |s.threads| && s.threads[t].Responding? && clock >= s.now
    case Count(t) => t < |s.threads| && s.threads[t].Counting?
  }

  /** Threads between `finiReq` and the count. */
  function Pending(ts: seq<Thread>): (n: nat)
    ensures n <= |ts|
  {
    if ts == [] then 0 else Pending(ts[..|ts| - 1]) + if ts[|ts| - 1].Counting? then 1 else 0
  }

  /** Threads holding a request that is in flight. */
  function Busy(ts: seq<Thread>): (n: nat)
    ensures n <= |ts|
  {
    if ts == [] then 0 else Busy(ts[..|ts| - 1]) + if ts[|ts| - 1].Idle? || ts[|ts| - 1].Counting? then 0 else 1
  }

  /** The effect of each action. */
  function Do(c: Config, s: State, act: Action): State
    requires Enabled(s, act)
  {
    match act
    case Start => s.(status := WARMUP)
    case Create(t, gen) =>
      s.(startedReqs := s.startedReqs + 1, inFlightReqs := s.inFlightReqs[s.startedReqs := gen],
         numReqsInFlight := s.numReqsInFlight + 1, threads := s.threads[t := Waiting(s.startedReqs, gen)])
    case Receive(t, clock) =>
      s.(now := clock, threads := s.threads[t := Serving],
         reqInfo := if t < |s.reqInfo| then s.reqInfo[t := ReqInfo(s.threads[t].id, clock)] else s.reqInfo)
    case Measure(t, clock) =>
      s.(now := clock, threads := s.threads[t := Responding(s.reqInfo[t].id, clock - s.reqInfo[t].startNs)])
    case Finish(t, clock) => Finished(s, t, clock)
    case Count(t) => Counted(c, s, t)
  }

  /** `finiReq`. */
  function Finished(s: State, t: nat, clock: nat): State
    requires t < |s.threads| && s.threads[t].Responding?
  {
    var th := s.threads[t];
    var s' := s.(now := clock, threads := s.threads[t := Counting],
                 inFlightReqs := s.inFlightReqs - {th.id}, numReqsInFlight := s.numReqsInFlight - 1);
    if s.status == ROI && SampleFits(s, th.id, th.svcNs, clock) then
      var sjrn := clock - s.inFlightReqs[th.id];
      s'.(queueTimes := s.queueTimes + [sjrn - th.svcNs], svcTimes := s.svcTimes + [th.svcNs],
          sjrnTimes := s.sjrnTimes + [sjrn])
    else s'
  }

  /** The second critical section of `sendResp`. */
  function Counted(c: Config, s: State, t: nat): State
    requires t < |s.threads|
  {
    var s' := s.(finishedReqs := s.finishedReqs + 1, threads := s.threads[t := Idle]);
    if s'.finishedReqs == c.warmupReqs then
      s'.(status := ROI, queueTimes := [], svcTimes := [], sjrnTimes := [],
          pendingAtRoi := Pending(s'.threads), roiStarts := s.roiStarts + 1)
    else if s'.finishedReqs == c.warmupReqs + c.maxReqs then s'.(dumped := true)
    else s'
  }

  /** The assertions of `finiReq` that concern times. */
  predicate SampleFits(s: State, id: nat, svcNs: nat, clock: nat) {
    id in s.inFlightReqs && clock > s.inFlightReqs[id] && clock - s.inFlightReqs[id] >= svcNs
  }

  /** Every assertion the source makes at an action. */
  predicate AssertionsHold(c: Config, s: State, act: Action)
    requires Enabled(s, act)
  {
    match act
    case Finish(t, clock) =>
      var th := s.threads[t];
      th.id in s.inFlightReqs && (s.status == ROI ==> SampleFits(s, th.id, th.svcNs, clock))
    case Count(t) => s.finishedReqs + 1 == c.warmupReqs ==> s.status == WARMUP
    case _ => true
  }

  // ---- The invariant ----

  /** The request a thread holds. */
  function IdOf(s: State, t: nat): nat
    requires t < |s.threads| == |s.reqInfo|
  {
    match s.threads[t]
    case Waiting(id, _) => id
    case Responding(id, _) => id
    case _ => s.reqInfo[t].id
  }

  predicate Holds(th: Thread) {
    !th.Idle? && !th.Counting?
  }

  /** A thread's request is in flight and its times are in order. */
  ghost predicate ThreadOk(s: State, t: nat)
    requires t < |s.threads| == |s.reqInfo|
  {
    Holds(s.threads[t]) ==>
      var id := IdOf(s, t);
      id in s.inFlightReqs &&
      match s.threads[t]
      case Waiting(_, gen) => s.inFlightReqs[id] == gen
      case Serving => s.inFlightReqs[id] <= s.reqInfo[t].startNs <= s.now
      case Responding(_, svc) => svc > 0 && s.inFlightReqs[id] + svc <= s.now
      case _ => true
  }

  ghost predicate Threads(c: Config, s: State) {
    |s.threads| == |s.reqInfo| == c.threads &&
    (forall t :: 0 <= t < c.threads ==> ThreadOk(s, t)) &&
    (forall t, v :: 0 <= t < v < c.threads && Holds(s.threads[t]) && Holds(s.threads[v]) ==> IdOf(s, t) != IdOf(s, v))
  }

  /** Request ids are fresh, and the counter, the map and the threads agree. */
  ghost predicate Ids(s: State) {
    (forall id :: id in s.inFlightReqs ==> id < s.startedReqs) &&
    s.numReqsInFlight == |s.inFlightReqs| == Busy(s.threads)
  }

  /** Every sample splits into queueing and service. */
  ghost predicate Samples(s: State) {
    |s.queueTimes| == |s.svcTimes| == |s.sjrnTimes| &&
    forall i :: 0 <= i < |s.sjrnTimes| ==> s.queueTimes[i] + s.svcTimes[i] == s.sjrnTimes[i]
  }

  /** How the phases follow the count of finished requests, and how many samples there are. */
  ghost predicate Phases(c: Config, s: State) {
    (s.status == ROI <==> 1 <= c.warmupReqs <= s.finishedReqs) &&
    (s.status == INIT ==> s.finishedReqs == 0 && Pending(s.threads) == 0 && Busy(s.threads) == 0) &&
    s.roiStarts == (if s.status == ROI then 1 else 0) &&
    (s.status != ROI ==> s.sjrnTimes == []) &&
    (s.status == ROI ==>
      s.pendingAtRoi < c.threads &&
      |s.sjrnTimes| + s.pendingAtRoi == s.finishedReqs - c.warmupReqs + Pending(s.threads)) &&
    (if s.dumped then c.maxReqs > 0 && s.finishedReqs == c.warmupReqs + c.maxReqs && Pending(s.threads) < c.threads
     else c.maxReqs > 0 ==> s.finishedReqs < c.warmupReqs + c.maxReqs)
  }

  ghost predicate Inv(c: Config, s: State) {
    Threads(c, s) && Ids(s) && Samples(s) && Phases(c, s)
  }

  lemma {:induction false} PendingUpdate(ts: seq<Thread>, t: nat, th: Thread)
    requires t < |ts|
    ensures Pending(ts[t := th]) == Pending(ts) - (if ts[t].Counting? then 1 else 0) + (if th.Counting? then 1 else 0)
    decreases |ts|
  {
    var n := |ts| - 1;
    if t < n {
      PendingUpdate(ts[..n], t, th);
      assert ts[t := th][..n] == ts[..n][t := th];
    } else {
      assert ts[t := th][..n] == ts[..n];
    }
  }

  lemma {:induction false} BusyUpdate(ts: seq<Thread>, t: nat, th: Thread)
    requires t < |ts|
    ensures Busy(ts[t := th]) == Busy(ts) - (if Holds(ts[t]) then 1 else 0) + (if Holds(th) then 1 else 0)
    decreases |ts|
  {
    var n := |ts| - 1;
    if t < n {
      BusyUpdate(ts[..n], t, th);
      assert ts[t := th][..n] == ts[..n][t := th];
    } else {
      assert ts[t := th][..n] == ts[..n];
    }
  }

  lemma {:induction false} NotAllPending(ts: seq<Thread>, t: nat)
    requires t < |ts| && !ts[t].Counting?
    ensures Pending(ts) < |ts|
    decreases |ts|
  {
    var n := |ts| - 1;
    if t < n {
      NotAllPending(ts[..n], t);
    }
  }

  /** In any state the invariant allows, no assertion of the source fails. */
  lemma NoAssertionFails(c: Config, s: State, act: Action)
    requires Inv(c, s) && Enabled(s, act)
    ensures AssertionsHold(c, s, act)
  {
    if act.Finish? {
      assert ThreadOk(s, act.t);
    }
    if act.Count? {
      BusyOrPending(s.threads, act.t);
    }
  }

  lemma {:induction false} BusyOrPending(ts: seq<Thread>, t: nat)
    requires t < |ts| && ts[t].Counting?
    ensures Pending(ts) > 0
    decreases |ts|
  {
    var n := |ts| - 1;
    if t < n {
      BusyOrPending(ts[..n], t);
    }
  }

  /** A thread keeps its request from step to step; a new request has a new id. */
  lemma StepId(c: Config, s: State, act: Action, t: nat)
    requires Threads(c, s) && Enabled(s, act) && t < c.threads
    ensures var s' := Do(c, s, act);
            |s'.threads| == |s'.reqInfo| == c.threads &&
            (Holds(s'.threads[t]) ==>
              if act.Create? && act.t == t then IdOf(s', t) == s.startedReqs
              else Holds(s.threads[t]) && IdOf(s', t) == IdOf(s, t))
  {
    hide Pending, ThreadOk, SampleFits;
  }

  lemma StepThread(c: Config, s: State, act: Action, t: nat)
    requires Threads(c, s) && Ids(s) && Enabled(s, act) && t < c.threads
    ensures |Do(c, s, act).threads| == |Do(c, s, act).reqInfo| == c.threads && ThreadOk(Do(c, s, act), t)
  {
    hide Do, Pending, Busy, SampleFits, Enabled, ThreadOk, IdOf;
    StepSize(c, s, act);
    if act.Start? || act.t != t {
      if act.Finish? && Holds(s.threads[t]) {
        FinishId(c, s, act);
        OtherId(c, s, t, act.t);
      }
      StepOther(c, s, act, t);
    } else {
      StepOwn(c, s, act);
    }
  }

  lemma FinishId(c: Config, s: State, act: Action)
    requires Threads(c, s) && Enabled(s, act) && act.Finish?
    ensures act.t < c.threads && Holds(s.threads[act.t]) && IdOf(s, act.t) == s.threads[act.t].id
  {
    hide ThreadOk;
  }

  lemma StepOwn(c: Config, s: State, act: Action)
    requires Threads(c, s) && Enabled(s, act) && !act.Start?
    ensures |Do(c, s, act).threads| == |Do(c, s, act).reqInfo| == c.threads && ThreadOk(Do(c, s, act), act.t)
  {
    hide Pending, SampleFits;
    assert ThreadOk(s, act.t);
  }

  /** Other threads' actions leave a thread's request alone. */
  lemma StepOther(c: Config, s: State, act: Action, t: nat)
    requires Threads(c, s) && Ids(s) && Enabled(s, act) && t < c.threads && (act.Start? || act.t != t)
    requires act.Finish? && Holds(s.threads[t]) ==> s.threads[act.t].id != IdOf(s, t)
    ensures |Do(c, s, act).threads| == |Do(c, s, act).reqInfo| == c.threads && ThreadOk(Do(c, s, act), t)
  {
    hide Pending, Busy, SampleFits;
    assert ThreadOk(s, t);
    StepSize(c, s, act);
    var s' := Do(c, s, act);
    assert s'.threads[t] == s.threads[t] && s'.reqInfo[t] == s.reqInfo[t] && s'.now >= s.now;
    hide Do, Threads;
    if Holds(s.threads[t]) {
      var id := IdOf(s, t);
      assert id in s'.inFlightReqs && s'.inFlightReqs[id] == s.inFlightReqs[id] by { KeptId(c, s, act, id); }
    }
  }

  lemma KeptId(c: Config, s: State, act: Action, id: nat)
    requires Enabled(s, act) && id in s.inFlightReqs && id < s.startedReqs
    requires act.Finish? ==> s.threads[act.t].id != id
    ensures var s' := Do(c, s, act); id in s'.inFlightReqs && s'.inFlightReqs[id] == s.inFlightReqs[id]
  {
    hide Pending, SampleFits;
  }

  lemma OtherId(c: Config, s: State, t: nat, v: nat)
    requires Threads(c, s) && t < c.threads && v < c.threads && t != v && Holds(s.threads[t]) && Holds(s.threads[v])
    ensures IdOf(s, t) != IdOf(s, v)
  {
    hide ThreadOk, IdOf, Holds;
  }

  lemma StepThreads(c: Config, s: State, act: Action)
    requires Inv(c, s) && Enabled(s, act)
    ensures Threads(c, Do(c, s, act))
  {
    hide Do, Pending, Busy, Samples, Phases, ThreadOk, IdOf, Enabled;
    var s' := Do(c, s, act);
    forall t | 0 <= t < c.threads
      ensures |s'.threads| == |s'.reqInfo| == c.threads && ThreadOk(s', t)
    {
      StepThread(c, s, act, t);
    }
    StepSize(c, s, act);
    forall t, v | 0 <= t < v < c.threads && Holds(s'.threads[t]) && Holds(s'.threads[v])
      ensures IdOf(s', t) != IdOf(s', v)
    {
      StepId(c, s, act, t);
      StepId(c, s, act, v);
      if act.Create? {
        IdStarted(c, s, if act.t == t then v else t);
      }
    }
  }

  lemma StepSize(c: Config, s: State, act: Action)
    requires Threads(c, s) && Enabled(s, act)
    ensures |Do(c, s, act).threads| == |Do(c, s, act).reqInfo| == c.threads
  {
    hide Pending, ThreadOk, SampleFits;
  }

  lemma IdStarted(c: Config, s: State, t: nat)
    requires Threads(c, s) && Ids(s) && t < c.threads && Holds(s.threads[t])
    ensures IdOf(s, t) < s.startedReqs
  {
    assert ThreadOk(s, t);
  }

  lemma MapAdd(m: map<nat, nat>, k: nat, v: nat)
    requires k !in m
    ensures |m[k := v]| == |m| + 1
  {
    assert m[k := v].Keys == m.Keys + {k};
  }

  lemma MapRemove(m: map<nat, nat>, k: nat)
    requires k in m
    ensures |m - {k}| == |m| - 1
  {
    assert (m - {k}).Keys == m.Keys - {k};
  }

  /** What each action does to its thread, and nothing else to the threads. */
  lemma StepFrame(c: Config, s: State, act: Action)
    requires Enabled(s, act)
    ensures if act.Start? then Do(c, s, act).threads == s.threads else
              act.t < |s.threads| && |Do(c, s, act).threads| == |s.threads| &&
              Do(c, s, act).threads == s.threads[act.t := Do(c, s, act).threads[act.t]] &&
              (Holds(s.threads[act.t]) <==> !act.Create? && !act.Count?) &&
              (Holds(Do(c, s, act).threads[act.t]) <==> !act.Finish? && !act.Count?) &&
              (s.threads[act.t].Counting? <==> act.Count?) && (Do(c, s, act).threads[act.t].Counting? <==> act.Finish?)
  {
    hide Pending, SampleFits;
  }

  lemma StepIds(c: Config, s: State, act: Action)
    requires Inv(c, s) && Enabled(s, act)
    ensures Ids(Do(c, s, act))
  {
    if act.Finish? {
      assert ThreadOk(s, act.t);
    }
    StepFrame(c, s, act);
    var s' := Do(c, s, act);
    if !act.Start? {
      BusyUpdate(s.threads, act.t, s'.threads[act.t]);
    }
    hide Pending, Busy, Samples, Phases, Threads, SampleFits, ThreadOk, Holds;
    if act.Create? {
      MapAdd(s.inFlightReqs, s.startedReqs, act.genNs);
    } else if act.Finish? {
      MapRemove(s.inFlightReqs, s.threads[act.t].id);
    }
  }

  lemma StepSamples(c: Config, s: State, act: Action)
    requires Inv(c, s) && Enabled(s, act)
    ensures Samples(Do(c, s, act))
  {
    hide Pending, Busy, Threads, Ids, Phases;
  }

  lemma CountPhases(c: Config, s: State, t: nat)
    requires Phases(c, s) && t < |s.threads| == c.threads && s.threads[t].Counting? && !s.dumped
    requires s.finishedReqs + 1 == c.warmupReqs ==> s.status == WARMUP
    ensures Phases(c, Counted(c, s, t))
  {
    var ts := s.threads[t := Idle];
    PendingUpdate(s.threads, t, Idle);
    BusyUpdate(s.threads, t, Idle);
    NotAllPending(ts, t);
    BusyOrPending(s.threads, t);
    hide Pending, Busy;
  }

  lemma FinishPhases(c: Config, s: State, t: nat, clock: nat)
    requires Phases(c, s) && t < |s.threads| && s.threads[t].Responding? && !s.dumped
    requires s.status == ROI ==> SampleFits(s, s.threads[t].id, s.threads[t].svcNs, clock)
    ensures Phases(c, Finished(s, t, clock))
  {
    PendingUpdate(s.threads, t, Counting);
    BusyUpdate(s.threads, t, Counting);
    BusyPositive(s.threads, t);
    hide Pending, Busy, SampleFits;
  }

  lemma {:induction false} BusyPositive(ts: seq<Thread>, t: nat)
    requires t < |ts| && Holds(ts[t])
    ensures Busy(ts) > 0
    decreases |ts|
  {
    var n := |ts| - 1;
    if t < n {
      BusyPositive(ts[..n], t);
    }
  }

  /** Steps that finish no request change no count. */
  lemma OtherPhases(c: Config, s: State, act: Action)
    requires Phases(c, s) && Enabled(s, act) && !act.Finish? && !act.Count?
    requires act.Start? ==> s.finishedReqs == 0
    ensures Phases(c, Do(c, s, act))
  {
    StepFrame(c, s, act);
    hide Pending, Busy;
    if !act.Start? {
      PendingUpdate(s.threads, act.t, Do(c, s, act).threads[act.t]);
      BusyUpdate(s.threads, act.t, Do(c, s, act).threads[act.t]);
    }
  }

  lemma StepPhases(c: Config, s: State, act: Action)
    requires Inv(c, s) && Enabled(s, act)
    ensures Phases(c, Do(c, s, act))
  {
    NoAssertionFails(c, s, act);
    hide Pending, Busy, Samples, SampleFits, ThreadOk, Holds, Phases;
    match act
    case Finish(t, clock) => FinishPhases(c, s, t, clock);
    case Count(t) => CountPhases(c, s, t);
    case _ =>
      if act.Start? {
        StartCount(c, s);
      }
      OtherPhases(c, s, act);
  }

  lemma StartCount(c: Config, s: State)
    requires Phases(c, s) && s.status == INIT
    ensures s.finishedReqs == 0
  {
  }

  lemma StepKeeps(c: Config, s: State, act: Action)
    requires Inv(c, s) && Enabled(s, act)
    ensures Inv(c, Do(c, s, act))
  {
    hide *;
    StepThreads(c, s, act);
    StepIds(c, s, act);
    StepSamples(c, s, act);
    StepPhases(c, s, act);
    assert Inv(c, Do(c, s, act)) by { Together(c, Do(c, s, act)); }
  }

  lemma Together(c: Config, s: State)
    requires Threads(c, s) && Ids(s) && Samples(s) && Phases(c, s)
    ensures Inv(c, s)
  {
  }

  // ---- Runs ----

  /** The state after actions of any threads in any order. */
  function Run(c: Config, s: State, acts: seq<Action>): State
    requires Legal(c, s, acts)
    decreases |acts|, 1
  {
    if acts == [] then s else Do(c, Run(c, s, acts[..|acts| - 1]), acts[|acts| - 1])
  }

  predicate Legal(c: Config, s: State, acts: seq<Action>)
    decreases |acts|, 0
  {
    acts == [] ||
    (Legal(c, s, acts[..|acts| - 1]) && Enabled(Run(c, s, acts[..|acts| - 1]), acts[|acts| - 1]))
  }

  lemma {:induction false} InitialCounts(n: nat)
    ensures Pending(seq(n, i => Idle)) == 0 && Busy(seq(n, i => Idle)) == 0
  {
    if n > 0 {
      InitialCounts(n - 1);
      assert seq(n, i => Idle)[..n - 1] == seq(n - 1, i => Idle);
    }
  }

  lemma InitialInv(c: Config)
    ensures Inv(c, Initial(c))
  {
    InitialCounts(c.threads);
  }

  lemma {:induction false} RunKeeps(c: Config, acts: seq<Action>)
    requires Legal(c, Initial(c), acts)
    ensures Inv(c, Run(c, Initial(c), acts))
  {
    hide Inv, Initial, Do, Enabled;
    if acts == [] {
      InitialInv(c);
    } else {
      RunKeeps(c, acts[..|acts| - 1]);
      StepKeeps(c, Run(c, Initial(c), acts[..|acts| - 1]), acts[|acts| - 1]);
    }
  }

  /** Whatever the interleaving, no assertion of the source ever fails. */
  lemma AssertionsNeverFail(c: Config, acts: seq<Action>, act: Action)
    requires Legal(c, Initial(c), acts) && Enabled(Run(c, Initial(c), acts), act)
    ensures AssertionsHold(c, Run(c, Initial(c), acts), act)
  {
    RunKeeps(c, acts);
    NoAssertionFails(c, Run(c, Initial(c), acts), act);
  }

  /** Samples taken when the request limit dumps them: none without warm-up requests;
      otherwise the limit, off by at most one for each other thread. */
  lemma SamplesAtDump(c: Config, acts: seq<Action>)
    requires Legal(c, Initial(c), acts)
    ensures var s := Run(c, Initial(c), acts);
            s.dumped ==>
              c.threads > 0 && c.maxReqs > 0 && s.finishedReqs == c.warmupReqs + c.maxReqs &&
              if c.warmupReqs == 0 then s.sjrnTimes == []
              else c.maxReqs - (c.threads - 1) <= |s.sjrnTimes| <= c.maxReqs + (c.threads - 1)
  {
    RunKeeps(c, acts);
    hide Threads, Ids;
  }

  /** A run dumps only with a positive limit, and then exactly when the count reaches it. */
  lemma DumpsAtTheLimit(c: Config, acts: seq<Action>)
    requires Legal(c, Initial(c), acts)
    ensures var s := Run(c, Initial(c), acts);
            s.dumped <==> c.maxReqs > 0 && s.finishedReqs >= c.warmupReqs + c.maxReqs
  {
    RunKeeps(c, acts);
    hide Threads, Ids, Samples;
  }

  /** The region of interest begins at most once, and exactly when warm-up ends. */
  lemma RoiBeginsOnce(c: Config, acts: seq<Action>)
    requires Legal(c, Initial(c), acts)
    ensures var s := Run(c, Initial(c), acts);
            s.roiStarts == if 1 <= c.warmupReqs <= s.finishedReqs then 1 else 0
  {
    RunKeeps(c, acts);
    hide Threads, Ids, Samples;
  }

  /** Every sample splits exactly, and the in-flight counter is the size of the map. */
  lemma SamplesSplit(c: Config, acts: seq<Action>)
    requires Legal(c, Initial(c), acts)
    ensures var s := Run(c, Initial(c), acts);
            s.numReqsInFlight == |s.inFlightReqs| <= c.threads &&
            |s.queueTimes| == |s.svcTimes| == |s.sjrnTimes| &&
            forall i :: 0 <= i < |s.sjrnTimes| ==> s.queueTimes[i] + s.svcTimes[i] == s.sjrnTimes[i]
  {
    RunKeeps(c, acts);
    hide Phases;
  }

  lemma {:induction false} LegalPrefix(c: Config, s: State, acts: seq<Action>, i: nat)
    requires Legal(c, s, acts) && i <= |acts|
    ensures Legal(c, s, acts[..i])
    decreases |acts| - i
  {
    hide Do, Enabled;
    if i < |acts| {
      LegalPrefix(c, s, acts, i + 1);
      assert acts[..i + 1][..i] == acts[..i];
    } else {
      assert acts[..i] == acts;
    }
  }

  lemma RunLast(c: Config, s: State, acts: seq<Action>, j: nat)
    requires Legal(c, s, acts) && 0 < j <= |acts|
    ensures Legal(c, s, acts[..j]) && Legal(c, s, acts[..j - 1])
    ensures Enabled(Run(c, s, acts[..j - 1]), acts[j - 1])
    ensures Run(c, s, acts[..j]) == Do(c, Run(c, s, acts[..j - 1]), acts[j - 1])
  {
    hide Do, Enabled;
    LegalPrefix(c, s, acts, j);
    LegalPrefix(c, s, acts, j - 1);
    assert acts[..j][..j - 1] == acts[..j - 1];
  }

  /** A request's id is the count of requests started before it, so ids never repeat. */
  lemma {:induction false} IdsNeverRepeat(c: Config, s: State, acts: seq<Action>, i: nat, j: nat)
    requires Legal(c, s, acts) && i < j <= |acts| && acts[i].Create?
    ensures Legal(c, s, acts[..i]) && Legal(c, s, acts[..j])
    ensures Run(c, s, acts[..i]).startedReqs < Run(c, s, acts[..j]).startedReqs
    decreases j
  {
    hide Do, Enabled, Run, Legal;
    RunLast(c, s, acts, j);
    StartedStep(c, Run(c, s, acts[..j - 1]), acts[j - 1]);
    if i < j - 1 {
      IdsNeverRepeat(c, s, acts, i, j - 1);
    }
  }

  lemma StartedStep(c: Config, s: State, act: Action)
    requires Enabled(s, act)
    ensures Do(c, s, act).startedReqs == s.startedReqs + if act.Create? then 1 else 0
  {
  }

  // ---- The bound on the samples is reached ----

  /** Some run leads to the state. */
  ghost predicate Reachable(c: Config, s: State) {
    exists acts :: Legal(c, Initial(c), acts) && Run(c, Initial(c), acts) == s
  }

  lemma Then(c: Config, s: State, act: Action, s': State)
    requires Reachable(c, s) && Enabled(s, act) && Do(c, s, act) == s'
    ensures Reachable(c, s')
  {
    hide Initial, Do, Enabled;
    var acts :| Legal(c, Initial(c), acts) && Run(c, Initial(c), acts) == s;
    assert (acts + [act])[..|acts + [act]| - 1] == acts;
    assert Legal(c, Initial(c), acts + [act]) && Run(c, Initial(c), acts + [act]) == s';
  }

  const TWO: Config := Config(2, 1, 1)

  /** Both threads have their first request, made and received at time 1, and have measured
      it at time 2. */
  function Measured(threads: seq<Thread>, inFlight: map<nat, nat>): State {
    State(WARMUP, 2, inFlight, |inFlight|, [], [], [], 0, [ReqInfo(0, 1), ReqInfo(1, 1)], threads, 2, false, 0, 0)
  }

  lemma Opening()
    ensures Reachable(TWO, Measured([Responding(0, 1), Responding(1, 1)], map[0 := 0, 1 := 0]))
  {
    hide Legal, Run;
    var s0 := Initial(TWO);
    assert Reachable(TWO, s0) by { Empty(TWO); }
    hide Reachable;
    var s1 := State(WARMUP, 0, map[], 0, [], [], [], 0, [ReqInfo(0, 0), ReqInfo(0, 0)], [Idle, Idle], 0, false, 0, 0);
    Then(TWO, s0, Start, s1);
    var s2 := State(WARMUP, 1, map[0 := 0], 1, [], [], [], 0, [ReqInfo(0, 0), ReqInfo(0, 0)], [Waiting(0, 0), Idle],
        0, false, 0, 0);
    Then(TWO, s1, Create(0, 0), s2);
    var s3 := State(WARMUP, 2, map[0 := 0, 1 := 0], 2, [], [], [], 0, [ReqInfo(0, 0), ReqInfo(0, 0)],
                    [Waiting(0, 0), Waiting(1, 0)], 0, false, 0, 0);
    Then(TWO, s2, Create(1, 0), s3);
    var s4 := s3.(now := 1, reqInfo := [ReqInfo(0, 1), ReqInfo(0, 0)], threads := [Serving, Waiting(1, 0)]);
    Then(TWO, s3, Receive(0, 1), s4);
    var s5 := s4.(reqInfo := [ReqInfo(0, 1), ReqInfo(1, 1)], threads := [Serving, Serving]);
    Then(TWO, s4, Receive(1, 1), s5);
    var s6 := s5.(now := 2, threads := [Responding(0, 1), Serving]);
    Then(TWO, s5, Measure(0, 2), s6);
    var s7 := s6.(threads := [Responding(0, 1), Responding(1, 1)]);
    Then(TWO, s6, Measure(1, 2), s7);
  }

  lemma Empty(c: Config)
    ensures Reachable(c, Initial(c))
  {
    assert Legal(c, Initial(c), []) && Run(c, Initial(c), []) == Initial(c);
  }

  /** One thread, no warm-up request and a limit of one. */
  const COLD: Config := Config(1, 0, 1)

  /** Without warm-up the ROI never begins: a run of one thread dumps no sample at all. */
  lemma NoSampleWithoutWarmup() returns (s: State)
    ensures Reachable(COLD, s) && s.dumped && COLD.maxReqs == 1 && s.sjrnTimes == []
  {
    var s0 := Initial(COLD);
    Empty(COLD);
    hide Reachable, Pending;
    var s1 := s0.(status := WARMUP);
    Then(COLD, s0, Start, s1);
    var s2 := s1.(startedReqs := 1, inFlightReqs := map[0 := 0], numReqsInFlight := 1, threads := [Waiting(0, 0)]);
    Then(COLD, s1, Create(0, 0), s2);
    var s3 := s2.(now := 1, reqInfo := [ReqInfo(0, 1)], threads := [Serving]);
    Then(COLD, s2, Receive(0, 1), s3);
    var s4 := s3.(now := 2, threads := [Responding(0, 1)]);
    Then(COLD, s3, Measure(0, 2), s4);
    var s5 := s4.(threads := [Counting], inFlightReqs := map[], numReqsInFlight := 0);
    Then(COLD, s4, Finish(0, 2), s5);
    s := s5.(threads := [Idle], finishedReqs := 1, dumped := true);
    Then(COLD, s5, Count(0), s);
  }

  lemma PendingPair(a: Thread, b: Thread)
    ensures Pending([a, b]) == (if a.Counting? then 1 else 0) + if b.Counting? then 1 else 0
  {
    assert [a, b][..1] == [a] && [a][..0] == [];
    assert Pending([a]) == if a.Counting? then 1 else 0;
  }

  /** Thread 0 has left its first critical section. */
  function FirstDone(): State {
    Measured([Counting, Responding(1, 1)], map[1 := 0])
  }

  lemma FirstFinishes()
    ensures Reachable(TWO, FirstDone())
  {
    hide Reachable;
    Opening();
    Then(TWO, Measured([Responding(0, 1), Responding(1, 1)], map[0 := 0, 1 := 0]), Finish(0, 2), FirstDone());
  }

  /** The ROI begins at thread 0's count, the other thread standing at th. */
  function Begun(s: State, th: Thread): State {
    s.(threads := [Idle, th], finishedReqs := 1, status := ROI, pendingAtRoi := if th.Counting? then 1 else 0,
       roiStarts := 1)
  }

  lemma Begins(s: State, th: Thread)
    requires Reachable(TWO, s) && s.status == WARMUP && s.finishedReqs == 0 && s.roiStarts == 0 && !s.dumped
    requires s.threads == [Counting, th]
    requires s.queueTimes == s.svcTimes == s.sjrnTimes == []
    ensures Reachable(TWO, Begun(s, th))
  {
    hide Reachable, Pending;
    PendingPair(Idle, th);
    assert s.threads[0 := Idle] == [Idle, th];
    Then(TWO, s, Count(0), Begun(s, th));
  }

  /** The second count is the last. */
  lemma Ends(s: State, t: nat)
    requires Reachable(TWO, s) && s.status == ROI && s.finishedReqs == 1 && !s.dumped
    requires t < |s.threads| && s.threads[t].Counting?
    ensures Reachable(TWO, s.(threads := s.threads[t := Idle], finishedReqs := 2, dumped := true))
  {
    hide Reachable, Pending;
    Then(TWO, s, Count(t), s.(threads := s.threads[t := Idle], finishedReqs := 2, dumped := true));
  }

  /** Both requests finish before either is counted: the dump has no sample, one too few. */
  lemma OneTooFew() returns (s: State)
    ensures Reachable(TWO, s) && s.dumped && |s.sjrnTimes| == TWO.maxReqs - (TWO.threads - 1)
  {
    hide Reachable, Pending;
    FirstFinishes();
    var s9 := Measured([Counting, Counting], map[]);
    Then(TWO, FirstDone(), Finish(1, 2), s9);
    Begins(s9, Counting);
    hide Do, Enabled;
    var s10 := Begun(s9, Counting);
    Ends(s10, 1);
    s := s10.(threads := s10.threads[1 := Idle], finishedReqs := 2, dumped := true);
  }

  /** One request finishes uncounted while the other thread serves two: the dump has two
      samples, one too many. */
  lemma OneTooMany() returns (s: State)
    ensures Reachable(TWO, s) && s.dumped && |s.sjrnTimes| == TWO.maxReqs + (TWO.threads - 1)
  {
    hide Reachable, Pending, Do, Enabled;
    FirstFinishes();
    Begins(FirstDone(), Responding(1, 1));
    var s12 := Again();
    var s14 := BothSampled(s12);
    Ends(s14, 0);
    s := s14.(threads := s14.threads[0 := Idle], finishedReqs := 2, dumped := true);
  }

  /** Thread 0 takes and measures a second request. */
  lemma Again() returns (s: State)
    requires Reachable(TWO, Begun(FirstDone(), Responding(1, 1)))
    ensures s == Second() && Reachable(TWO, s)
  {
    hide Reachable, Pending;
    var s9 := Begun(FirstDone(), Responding(1, 1));
    var s10 := s9.(threads := [Waiting(2, 0), Responding(1, 1)], startedReqs := 3,
                   inFlightReqs := map[1 := 0, 2 := 0], numReqsInFlight := 2);
    Then(TWO, s9, Create(0, 0), s10);
    var s11 := s10.(now := 3, threads := [Serving, Responding(1, 1)], reqInfo := [ReqInfo(2, 3), ReqInfo(1, 1)]);
    Then(TWO, s10, Receive(0, 3), s11);
    s := s11.(now := 4, threads := [Responding(2, 1), Responding(1, 1)]);
    Then(TWO, s11, Measure(0, 4), s);
  }

  function Second(): State {
    Begun(FirstDone(), Responding(1, 1)).(
      now := 4, threads := [Responding(2, 1), Responding(1, 1)], startedReqs := 3,
      inFlightReqs := map[1 := 0, 2 := 0], numReqsInFlight := 2, reqInfo := [ReqInfo(2, 3), ReqInfo(1, 1)])
  }

  /** Both threads finish a request in the ROI. */
  lemma BothSampled(s12: State) returns (s: State)
    requires s12 == Second() && Reachable(TWO, s12)
    ensures Reachable(TWO, s) && s.status == ROI && s.finishedReqs == 1 && !s.dumped
    ensures s.threads == [Counting, Counting] && |s.sjrnTimes| == 2
  {
    hide Reachable, Pending;
    var s13 := s12.(threads := [Counting, Responding(1, 1)], inFlightReqs := map[1 := 0], numReqsInFlight := 1,
                    queueTimes := [3], svcTimes := [1], sjrnTimes := [4]);
    Then(TWO, s12, Finish(0, 4), s13);
    s := s13.(threads := [Counting, Counting], inFlightReqs := map[], numReqsInFlight := 0,
              queueTimes := [3, 3], svcTimes := [1, 1], sjrnTimes := [4, 4]);
    Then(TWO, s13, Finish(1, 4), s);
  }

  // ---- The harness ----

  /** The shared object; threads and the history fields are the model's own. */
  class IntegratedServer {
    const config: Config
    var status: Status
    var startedReqs: nat
    var inFlightReqs: map<nat, nat>
    var numReqsInFlight: int
    var queueTimes: seq<nat>
    var svcTimes: seq<nat>
    var sjrnTimes: seq<nat>
    var finishedReqs: nat
    var reqInfo: seq<ReqInfo>
    var dumped: bool
    ghost var threads: seq<Thread>
    ghost var now: nat
    ghost var pendingAtRoi: nat
    ghost var roiStarts: nat

    ghost function S(): State
      reads this
    {
      State(status, startedReqs, inFlightReqs, numReqsInFlight, queueTimes, svcTimes, sjrnTimes,
            finishedReqs, reqInfo, threads, now, dumped, pendingAtRoi, roiStarts)
    }

    ghost predicate Valid()
      reads this
    {
      Inv(config, S())
    }

    constructor (config: Config)
      ensures Valid() && this.config == config && S() == Initial(config)
    {
      this.config := config;
      status, startedReqs, inFlightReqs, numReqsInFlight := INIT, 0, map[], 0;
      queueTimes, svcTimes, sjrnTimes := [], [], [];
      finishedReqs, reqInfo, dumped := 0, seq(config.threads, i => ReqInfo(0, 0)), false;
      threads, now, pendingAtRoi, roiStarts := seq(config.threads, i => Idle), 0, 0, 0;
      new;
      InitialInv(config);
    }

    /** The last thread to arrive at the barrier lets all of them through. */
    method StartAll()
      requires Valid() && Enabled(S(), Start)
      modifies this
      ensures Valid() && S() == Do(config, old(S()), Start)
    {
      hide Inv;
      StepKeeps(config, S(), Start);
      status := WARMUP;
    }

    /** The critical section of `startReq`; genNs is the next arrival time. */
    method StartReq(t: nat, genNs: nat) returns (id: nat)
      requires Valid() && Enabled(S(), Create(t, genNs))
      modifies this
      ensures Valid() && S() == Do(config, old(S()), Create(t, genNs))
      ensures id == old(startedReqs)
    {
      hide Inv;
      StepKeeps(config, S(), Create(t, genNs));
      id := startedReqs;
      startedReqs := startedReqs + 1;
      inFlightReqs := inFlightReqs[id := genNs];
      numReqsInFlight := numReqsInFlight + 1;
      threads := threads[t := Waiting(id, genNs)];
    }

    /** The end of `recvReq`: the thread is awake and reads the clock. */
    method NoteStart(t: nat, id: nat, clock: nat)
      requires Valid() && t < |reqInfo| && Enabled(S(), Receive(t, clock)) && id == threads[t].id
      modifies this
      ensures Valid() && S() == Do(config, old(S()), Receive(t, clock))
    {
      hide Inv;
      StepKeeps(config, S(), Receive(t, clock));
      reqInfo := reqInfo[t := ReqInfo(id, clock)];
      threads, now := threads[t := Serving], clock;
    }

    /** The start of `sendResp`, up to its clock reading. */
    method MeasureService(t: nat, clock: nat) returns (id: nat, svcNs: nat)
      requires Valid() && t < |reqInfo| && Enabled(S(), Measure(t, clock))
      modifies this
      ensures Valid() && S() == Do(config, old(S()), Measure(t, clock))
      ensures S().threads[t] == Responding(id, svcNs)
    {
      hide Inv;
      StepKeeps(config, S(), Measure(t, clock));
      id, svcNs := reqInfo[t].id, clock - reqInfo[t].startNs;
      threads, now := threads[t := Responding(id, svcNs)], clock;
    }

    /** `finiReq`: its assertions hold, so each subtraction is of no more than there is. */
    method FiniReq(t: nat, id: nat, svcNs: nat, curNs: nat)
      requires Valid() && Enabled(S(), Finish(t, curNs)) && threads[t] == Responding(id, svcNs)
      modifies this
      ensures Valid() && S() == Do(config, old(S()), Finish(t, curNs))
    {
      hide Inv, Do;
      DoFinish(config, S(), t, curNs);
      StepKeeps(config, S(), Finish(t, curNs));
      var genNs := inFlightReqs[id];
      if status == ROI {
        var sjrn := curNs - genNs;
        var qtime := sjrn - svcNs;
        queueTimes, svcTimes, sjrnTimes := queueTimes + [qtime], svcTimes + [svcNs], sjrnTimes + [sjrn];
      }
      inFlightReqs := inFlightReqs - {id};
      numReqsInFlight := numReqsInFlight - 1;
      threads, now := threads[t := Counting], curNs;
    }

    /** `_startRoi`. */
    method BeginRoi()
      requires status == WARMUP
      modifies this
      ensures S() == old(S()).(status := ROI, queueTimes := [], svcTimes := [], sjrnTimes := [],
                               pendingAtRoi := Pending(threads), roiStarts := old(roiStarts) + 1)
    {
      hide Pending;
      status := ROI;
      queueTimes, svcTimes, sjrnTimes := [], [], [];
      pendingAtRoi, roiStarts := Pending(threads), roiStarts + 1;
    }

    /** The second critical section of `sendResp`. */
    method CountResp(t: nat)
      requires Valid() && Enabled(S(), Count(t))
      modifies this
      ensures Valid() && S() == Do(config, old(S()), Count(t))
    {
      hide Inv, Pending, SampleFits, Do;
      DoCount(config, S(), t);
      StepKeeps(config, S(), Count(t));
      NoAssertionFails(config, S(), Count(t));
      finishedReqs := finishedReqs + 1;
      threads := threads[t := Idle];
      if finishedReqs == config.warmupReqs {
        BeginRoi();
      } else if finishedReqs == config.warmupReqs + config.maxReqs {
        dumped := true;
      }
    }

    /** `recvReq` with no other thread in between; the first of all waits for every thread. */
    method RecvReq(t: nat, genNs: nat, clock: nat)
      requires Valid() && !dumped && t < |threads| && threads[t].Idle? && clock >= now && clock >= genNs
      requires status == INIT ==> Enabled(S(), Start)
      modifies this
      ensures Valid() && !dumped && t < |threads| == |reqInfo| && threads[t] == Serving
      ensures reqInfo[t] == ReqInfo(old(startedReqs), clock) && now == clock
      ensures inFlightReqs == old(inFlightReqs)[old(startedReqs) := genNs] && sjrnTimes == old(sjrnTimes)
      ensures startedReqs == old(startedReqs) + 1 && finishedReqs == old(finishedReqs)
      ensures status == if old(status) == INIT then WARMUP else old(status)
      ensures Ran(config, old(S()), Received(old(status), t, genNs, clock), S())
    {
      ghost var s, acts := S(), [];
      assert Ran(config, s, acts, S());
      if status == INIT {
        RanMore(config, s, acts, S(), Start);
        acts := [Start];
        StartAll();
      }
      assert Enabled(S(), Create(t, genNs));
      RanMore(config, s, acts, S(), Create(t, genNs));
      acts := acts + [Create(t, genNs)];
      var id := StartReq(t, genNs);
      RanMore(config, s, acts, S(), Receive(t, clock));
      NoteStart(t, id, clock);
      assert acts + [Receive(t, clock)] == Received(old(status), t, genNs, clock);
    }

    /** `sendResp` with no other thread in between: the sample splits the time from arrival
        to now at the start of service. */
    method SendResp(t: nat, clock: nat, curNs: nat)
      requires Valid() && t < |reqInfo| && Enabled(S(), Measure(t, clock)) && curNs >= clock
      modifies this
      ensures Valid() && finishedReqs == old(finishedReqs) + 1 && reqInfo == old(reqInfo)
      ensures old(reqInfo[t].id in inFlightReqs) && inFlightReqs == old(inFlightReqs) - {old(reqInfo[t].id)}
      ensures finishedReqs != config.warmupReqs && old(status) == ROI ==>
                var id, svc := old(reqInfo[t].id), clock - old(reqInfo[t].startNs);
                var sjrn := curNs - old(inFlightReqs)[id];
                sjrnTimes == old(sjrnTimes) + [sjrn] && svcTimes == old(svcTimes) + [svc] &&
                queueTimes == old(queueTimes) + [sjrn - svc]
      ensures old(status) != ROI ==> sjrnTimes == []
      ensures status == if finishedReqs == config.warmupReqs then ROI else old(status)
      ensures Ran(config, old(S()), [Measure(t, clock), Finish(t, curNs), Count(t)], S())
    {
      hide Inv, Do, Enabled, Ran;
      ghost var s := S();
      MeasureFacts(config, S(), t, clock);
      var id, svcNs := MeasureService(t, clock);
      ghost var s1 := S();
      FinishFacts(config, S(), t, curNs);
      FiniReq(t, id, svcNs, curNs);
      ghost var s2 := S();
      CountFacts(config, S(), t);
      CountResp(t);
      RanThree(config, s, Measure(t, clock), s1, Finish(t, curNs), s2, Count(t), S());
    }
  }

  /** The actions lead from s to s'. */
  ghost predicate Ran(c: Config, s: State, acts: seq<Action>, s': State) {
    Legal(c, s, acts) && s' == Run(c, s, acts)
  }

  lemma RanMore(c: Config, s: State, acts: seq<Action>, s': State, act: Action)
    requires Ran(c, s, acts, s') && Enabled(s', act)
    ensures Ran(c, s, acts + [act], Do(c, s', act))
  {
    assert (acts + [act])[..|acts|] == acts;
    hide Do, Enabled;
  }

  lemma RanThree(c: Config, s: State, a1: Action, s1: State, a2: Action, s2: State, a3: Action, s3: State)
    requires Enabled(s, a1) && s1 == Do(c, s, a1)
    requires Enabled(s1, a2) && s2 == Do(c, s1, a2)
    requires Enabled(s2, a3) && s3 == Do(c, s2, a3)
    ensures Ran(c, s, [a1, a2, a3], s3)
  {
    assert Ran(c, s, [], s);
    hide Ran, Do, Enabled;
    RanMore(c, s, [], s, a1);
    assert [] + [a1] == [a1];
    RanMore(c, s, [a1], s1, a2);
    assert [a1] + [a2] == [a1, a2];
    RanMore(c, s, [a1, a2], s2, a3);
    assert [a1, a2] + [a3] == [a1, a2, a3];
  }

  /** What a thread does to get its next request. */
  function Received(status: Status, t: nat, genNs: nat, clock: nat): seq<Action> {
    (if status == INIT then [Start] else []) + [Create(t, genNs), Receive(t, clock)]
  }

  lemma DoCount(c: Config, s: State, t: nat)
    requires Enabled(s, Count(t))
    ensures Do(c, s, Count(t)) == Counted(c, s, t)
  {
  }

  /** The assertions of `finiReq` hold, so a sample is always taken in the ROI. */
  lemma DoFinish(c: Config, s: State, t: nat, clock: nat)
    requires Inv(c, s) && Enabled(s, Finish(t, clock))
    ensures var th := s.threads[t];
            th.id in s.inFlightReqs && clock - s.inFlightReqs[th.id] >= th.svcNs
    ensures var th := s.threads[t];
            var sjrn := clock - s.inFlightReqs[th.id];
            var s' := s.(now := clock, threads := s.threads[t := Counting],
                         inFlightReqs := s.inFlightReqs - {th.id}, numReqsInFlight := s.numReqsInFlight - 1);
            Do(c, s, Finish(t, clock)) ==
              if s.status == ROI then
                s'.(queueTimes := s.queueTimes + [sjrn - th.svcNs], svcTimes := s.svcTimes + [th.svcNs],
                    sjrnTimes := s.sjrnTimes + [sjrn])
              else s'
  {
    NoAssertionFails(c, s, Finish(t, clock));
    assert ThreadOk(s, t);
  }

  lemma MeasureFacts(c: Config, s: State, t: nat, clock: nat)
    requires Inv(c, s) && t < |s.reqInfo| && Enabled(s, Measure(t, clock))
    ensures s.reqInfo[t].id in s.inFlightReqs && clock > s.reqInfo[t].startNs
    ensures t < |s.threads|
    ensures var s' := Do(c, s, Measure(t, clock));
            s' == s.(now := clock,
                threads := s.threads[t := Responding(s.reqInfo[t].id, clock - s.reqInfo[t].startNs)]) &&
            !s.dumped
  {
    assert ThreadOk(s, t);
    hide Pending, Busy, Samples, Phases;
  }

  lemma FinishFacts(c: Config, s: State, t: nat, clock: nat)
    requires Inv(c, s) && t < |s.threads| && s.threads[t].Responding? && clock >= s.now && !s.dumped
    ensures Enabled(s, Finish(t, clock)) && s.threads[t].id in s.inFlightReqs
    ensures var s', id, svc := Do(c, s, Finish(t, clock)), s.threads[t].id, s.threads[t].svcNs;
            var sjrn := clock - s.inFlightReqs[id];
            sjrn >= svc && t < |s'.threads| && s'.threads[t].Counting? && !s'.dumped &&
            s'.status == s.status && s'.finishedReqs == s.finishedReqs && s'.reqInfo == s.reqInfo &&
            s'.inFlightReqs == s.inFlightReqs - {id} &&
            if s.status == ROI then
              s'.sjrnTimes == s.sjrnTimes + [sjrn] && s'.svcTimes == s.svcTimes + [svc] &&
              s'.queueTimes == s.queueTimes + [sjrn - svc]
            else s'.sjrnTimes == s.sjrnTimes
  {
    NoAssertionFails(c, s, Finish(t, clock));
    assert ThreadOk(s, t);
    hide Pending, Busy, Samples, Phases, Threads;
  }

  lemma CountFacts(c: Config, s: State, t: nat)
    requires Inv(c, s) && t < |s.threads| && s.threads[t].Counting? && !s.dumped
    ensures Enabled(s, Count(t))
    ensures var s' := Do(c, s, Count(t));
            s'.finishedReqs == s.finishedReqs + 1 && s'.reqInfo == s.reqInfo && s'.inFlightReqs == s.inFlightReqs &&
            (s.status != ROI ==> s'.sjrnTimes == []) &&
            if s'.finishedReqs == c.warmupReqs then s'.status == ROI && s'.sjrnTimes == []
            else
              s'.status == s.status && s'.sjrnTimes == s.sjrnTimes && s'.svcTimes == s.svcTimes &&
              s'.queueTimes == s.queueTimes
  {
    hide Pending, Busy, Threads, Ids, Samples;
  }
}
