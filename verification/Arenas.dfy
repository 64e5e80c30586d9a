/** The per-CPU arena allocator: pages carved into linked free lists, lists claimed by
    callers, and lists split by owning region and spliced back. */
module Arenas {
  import opened Basics

  const MAX_ARENAS: nat := 32

  function Unit(arena: nat): (u: nat)
    ensures u > 0 && (arena < MAX_ARENAS ==> u <= 512)
  {
    (arena + 1) * 16
  }

  // ---- Layout ----

  /** Region i is [start + i * maxPerCore, start + (i + 1) * maxPerCore). */
  datatype Layout = Layout(start: nat, page: nat, maxPerCore: nat, ncpus: nat)
  {
    ghost predicate Valid() {
      page >= Unit(MAX_ARENAS - 1) + Unit(MAX_ARENAS - 1) && maxPerCore > 0 && start > 0 &&
      IsMultiple(start, page) && IsMultiple(maxPerCore, page)
    }

    function Begin(cpu: nat): nat {
      start + cpu * maxPerCore
    }

    /** `PointerToCpu`. */
    function CpuOf(p: nat): nat
      requires maxPerCore > 0 && p >= start
    {
      (p - start) / maxPerCore
    }
  }

  function IsMultiple(x: nat, u: nat): bool {
    u > 0 && x % u == 0
  }

  function PageOf(p: nat, page: nat): (q: nat)
    requires page > 0
    ensures q <= p
  {
    p / page * page
  }

  /** `iceil`. */
  function Iceil(x: nat, u: nat): nat
    requires u > 0
  {
    x + if x % u == 0 then 0 else u - x % u
  }

  lemma MultipleNext(x: nat, u: nat)
    requires IsMultiple(x, u)
    ensures IsMultiple(x + u, u)
  {
    Quotient(x, u);
    DivUnique(x + u, u, x / u + 1, 0);
  }

  /** Two multiples differ by a whole unit. */
  lemma MultipleGap(x: nat, y: nat, u: nat)
    requires IsMultiple(x, u) && IsMultiple(y, u) && x < y
    ensures x + u <= y
  {
    Quotient(x, u);
    Quotient(y, u);
    if y / u <= x / u {
      MulMono(y / u, x / u, u);
    } else {
      MulMono(x / u + 1, y / u, u);
    }
  }

  /** `iceil` gives the least multiple at or above x. */
  lemma IceilLeast(x: nat, u: nat)
    requires u > 0
    ensures IsMultiple(Iceil(x, u), u) && x <= Iceil(x, u) < x + u
  {
    Quotient(x, u);
    if x % u != 0 {
      DivUnique(Iceil(x, u), u, x / u + 1, 0);
    }
  }

  lemma PageIs(p: nat, q: nat, page: nat)
    requires page > 0 && IsMultiple(q, page) && q <= p < q + page
    ensures PageOf(p, page) == q
  {
    Quotient(q, page);
    DivUnique(p, page, q / page, p - q);
  }

  lemma CpuIs(lay: Layout, p: nat, cpu: nat)
    requires lay.maxPerCore > 0 && lay.Begin(cpu) <= p < lay.Begin(cpu + 1)
    ensures p >= lay.start && lay.CpuOf(p) == cpu
  {
    assert lay.Begin(cpu + 1) == lay.Begin(cpu) + lay.maxPerCore;
    DivUnique(p - lay.start, lay.maxPerCore, cpu, p - lay.Begin(cpu));
  }

  /** Regions are made of whole pages. */
  lemma {:induction false} BeginIsPage(lay: Layout, cpu: nat)
    requires lay.Valid()
    ensures IsMultiple(lay.Begin(cpu), lay.page)
  {
    if cpu > 0 {
      BeginIsPage(lay, cpu - 1);
      assert lay.Begin(cpu) == lay.Begin(cpu - 1) + lay.maxPerCore;
      MultipleSum(lay.Begin(cpu - 1), lay.maxPerCore, lay.page);
    }
  }

  lemma MultipleSum(x: nat, y: nat, u: nat)
    requires IsMultiple(x, u) && IsMultiple(y, u)
    ensures IsMultiple(x + y, u)
  {
    Quotient(x, u);
    Quotient(y, u);
    assert (x / u + y / u) * u == x / u * u + y / u * u;
    DivUnique(x + y, u, x / u + y / u, 0);
  }

  /** A region lies wholly in the managed range, so each address belongs to one CPU. */
  lemma InRegion(lay: Layout, cpu: nat)
    requires lay.maxPerCore > 0 && cpu < lay.ncpus
    ensures lay.start <= lay.Begin(cpu) && lay.Begin(cpu + 1) <= lay.Begin(lay.ncpus)
  {
    MulMono(cpu + 1, lay.ncpus, lay.maxPerCore);
  }

  // ---- Pointers ----

  /** Where a list hangs: a region's arena, a caller's slot, a caller's list being sorted
      by region for release, a page being carved, or nowhere (in use by the program). */
  datatype Place =
    | Arena(cpu: nat, arena: nat)
    | Held(id: nat, arena: nat)
    | Group(id: nat, cpu: nat, arena: nat)
    | Fresh(id: nat, arena: nat)
    | Live(arena: nat)

  /** A page half carved: p is the unit whose link is written next. */
  datatype Carve = Carve(page: nat, first: nat, p: nat)

  /** All pointers: first words of units, list heads and tails, page cursors, and the
      unused part of every region. */
  datatype World = World(mem: map<nat, nat>, heads: map<Place, nat>, tails: map<Place, nat>,
                         carving: map<Place, Carve>, begin: seq<nat>)
  {
    function Head(p: Place): nat {
      if p in heads then heads[p] else 0
    }

    function Tail(p: Place): nat {
      if p in tails then tails[p] else 0
    }

    /** What the last link of a list must be. */
    function Stop(p: Place): nat {
      if p in carving then carving[p].p else 0
    }
  }

  /** The abstract state: the units of each list, the place of each unit, the size class
      of each page and the pages fully carved. */
  datatype Units = Units(lists: map<Place, seq<nat>>, where: map<nat, Place>, size: map<nat, nat>, done: set<nat>)
  {
    ghost function List(p: Place): seq<nat> {
      if p in lists then lists[p] else []
    }
  }

  datatype Action =
    | Claim(id: nat, cpu: nat, arena: nat)
    | TakePage(id: nat, cpu: nat, arena: nat)
    | TakeRaw(cpu: nat, pages: nat)
    | Link(id: nat, arena: nat)
    | Finish(id: nat, arena: nat)
    | Alloc(id: nat, arena: nat)
    | Dealloc(id: nat, arena: nat, unit: nat)
    | Scribble(unit: nat, value: nat)
    | Gather(id: nat, arena: nat)
    | Splice(id: nat, cpu: nat, arena: nat)

  /** When each action can be taken. */
  ghost predicate Enabled(lay: Layout, w: World, u: Units, act: Action)
    requires lay.Valid() && |w.begin| == lay.ncpus
  {
    match act
    case Claim(id, cpu, a) =>
      a < MAX_ARENAS && cpu < lay.ncpus && w.Head(Arena(cpu, a)) != 0 && w.Head(Held(id, a)) == 0
    case TakePage(id, cpu, a) =>
      a < MAX_ARENAS && cpu < lay.ncpus && w.Head(Arena(cpu, a)) == 0 && Fresh(id, a) !in w.carving &&
      w.begin[cpu] + lay.page <= lay.Begin(cpu + 1)
    case TakeRaw(cpu, n) =>
      cpu < lay.ncpus && w.begin[cpu] + n * lay.page <= lay.Begin(cpu + 1)
    case Link(id, a) =>
      Fresh(id, a) in w.carving && More(lay, w.carving[Fresh(id, a)], a)
    case Finish(id, a) =>
      Fresh(id, a) in w.carving && !More(lay, w.carving[Fresh(id, a)], a) && w.Head(Held(id, a)) == 0
    case Alloc(id, a) => w.Head(Held(id, a)) != 0
    case Dealloc(id, a, x) => x in u.where && u.where[x] == Live(a)
    case Scribble(x, v) => x in u.where && u.where[x].Live?
    case Gather(id, a) => w.Head(Held(id, a)) != 0
    case Splice(id, cpu, a) => w.Head(Group(id, cpu, a)) != 0
  }

  /** The loop condition of `initialize_page`. */
  predicate More(lay: Layout, c: Carve, a: nat) {
    c.p + Unit(a) + Unit(a) <= c.page + lay.page
  }

  function Next(w: World, p: nat): nat {
    if p in w.mem then w.mem[p] else 0
  }

  /** The effect of each action on the pointers. */
  function Do(lay: Layout, w: World, act: Action): World
    requires lay.page > 0 && lay.maxPerCore > 0
  {
    match act
    case Claim(id, cpu, a) =>
      w.(heads := w.heads[Held(id, a) := w.Head(Arena(cpu, a))][Arena(cpu, a) := 0])
    case TakePage(id, cpu, a) =>
      if cpu >= |w.begin| then w else
        var page := w.begin[cpu];
        var first := Iceil(page, Unit(a));
        w.(begin := w.begin[cpu := page + lay.page], heads := w.heads[Fresh(id, a) := first],
           carving := w.carving[Fresh(id, a) := Carve(page, first, first)])
    case TakeRaw(cpu, n) =>
      if cpu >= |w.begin| then w else w.(begin := w.begin[cpu := w.begin[cpu] + n * lay.page])
    case Link(id, a) =>
      if Fresh(id, a) !in w.carving then w else
        var c := w.carving[Fresh(id, a)];
        w.(mem := w.mem[c.p := c.p + Unit(a)], carving := w.carving[Fresh(id, a) := c.(p := c.p + Unit(a))])
    case Finish(id, a) =>
      if Fresh(id, a) !in w.carving then w else
        var c := w.carving[Fresh(id, a)];
        w.(mem := w.mem[c.p := 0], carving := w.carving - {Fresh(id, a)},
           heads := w.heads[Held(id, a) := c.first][Fresh(id, a) := 0])
    case Alloc(id, a) =>
      w.(heads := w.heads[Held(id, a) := Next(w, w.Head(Held(id, a)))])
    case Dealloc(id, a, x) =>
      w.(mem := w.mem[x := w.Head(Held(id, a))], heads := w.heads[Held(id, a) := x])
    case Scribble(x, v) => w.(mem := w.mem[x := v])
    case Gather(id, a) =>
      var p := w.Head(Held(id, a));
      if p < lay.start then w else
        var g := Group(id, lay.CpuOf(p), a);
        w.(mem := w.mem[p := if w.Tail(g) == 0 then 0 else w.Head(g)],
           heads := w.heads[Held(id, a) := Next(w, p)][g := p],
           tails := if w.Tail(g) == 0 then w.tails[g := p] else w.tails)
    case Splice(id, cpu, a) =>
      var g := Group(id, cpu, a);
      w.(mem := w.mem[w.Tail(g) := w.Head(Arena(cpu, a))],
         heads := w.heads[Arena(cpu, a) := w.Head(g)][g := 0],
         tails := w.tails[g := 0])
  }

  /** All units of one place change to another. */
  ghost function Relabel(where: map<nat, Place>, p: Place, q: Place): map<nat, Place> {
    map x | x in where :: if where[x] == p then q else where[x]
  }

  /** The effect of each action on the lists: what the pointer surgery is for. */
  ghost function Moved(lay: Layout, w: World, u: Units, act: Action): Units
    requires lay.page > 0 && lay.maxPerCore > 0
  {
    match act
    case Claim(id, cpu, a) =>
      u.(lists := u.lists[Held(id, a) := u.List(Arena(cpu, a))][Arena(cpu, a) := []],
         where := Relabel(u.where, Arena(cpu, a), Held(id, a)))
    case TakePage(id, cpu, a) =>
      if cpu >= |w.begin| then u else u.(size := u.size[w.begin[cpu] := a])
    case TakeRaw(cpu, n) => u
    case Link(id, a) =>
      var f := Fresh(id, a);
      if f !in w.carving then u else
        u.(lists := u.lists[f := u.List(f) + [w.carving[f].p]], where := u.where[w.carving[f].p := f])
    case Finish(id, a) =>
      var f := Fresh(id, a);
      if f !in w.carving then u else
        u.(lists := u.lists[Held(id, a) := u.List(f) + [w.carving[f].p]][f := []],
           where := Relabel(u.where, f, Held(id, a))[w.carving[f].p := Held(id, a)],
           done := u.done + {w.carving[f].page})
    case Alloc(id, a) =>
      var p := Held(id, a);
      if u.List(p) == [] then u else
        u.(lists := u.lists[p := u.List(p)[1..]], where := u.where[u.List(p)[0] := Live(a)])
    case Dealloc(id, a, x) =>
      var p := Held(id, a);
      u.(lists := u.lists[p := [x] + u.List(p)], where := u.where[x := p])
    case Scribble(x, v) => u
    case Gather(id, a) =>
      var p := Held(id, a);
      if u.List(p) == [] || u.List(p)[0] < lay.start then u else
        var x := u.List(p)[0];
        var g := Group(id, lay.CpuOf(x), a);
        u.(lists := u.lists[p := u.List(p)[1..]][g := [x] + u.List(g)], where := u.where[x := g])
    case Splice(id, cpu, a) =>
      var g := Group(id, cpu, a);
      u.(lists := u.lists[Arena(cpu, a) := u.List(g) + u.List(Arena(cpu, a))][g := []],
         where := Relabel(u.where, g, Arena(cpu, a)))
  }

  // ---- The invariant ----

  /** Following the links from head passes through s and then reaches stop. */
  ghost predicate Chain(mem: map<nat, nat>, head: nat, s: seq<nat>, stop: nat)
    decreases |s|
  {
    if s == [] then head == stop
    else head == s[0] && head in mem && head != 0 && Chain(mem, mem[head], s[1..], stop)
  }

  ghost predicate NoDup(s: seq<nat>) {
    forall i, j :: 0 <= i < j < |s| ==> s[i] != s[j]
  }

  /** Every list is a chain of links, null-terminated unless its page is being carved. */
  ghost predicate Linked(w: World, u: Units) {
    forall p :: Chain(w.mem, w.Head(p), u.List(p), w.Stop(p))
  }

  /** Every unit is in exactly the list of its place, once. */
  ghost predicate Owned(u: Units) {
    (forall p :: NoDup(u.List(p)) && (p.Live? ==> u.List(p) == [])) &&
    (forall p, x :: x in u.List(p) ==> x in u.where && u.where[x] == p) &&
    (forall x :: x in u.where && !u.where[x].Live? ==> x in u.List(u.where[x]))
  }

  ghost predicate IsUnit(lay: Layout, page: nat, a: nat, x: nat) {
    IsMultiple(x, Unit(a)) && page <= x && x + Unit(a) <= page + lay.page
  }

  /** Every unit lies inside a page of its own size class, and in its own region's list. */
  ghost predicate Fits(lay: Layout, u: Units)
    requires lay.page > 0 && lay.maxPerCore > 0
  {
    forall x :: x in u.where ==> x >= lay.start && UnitFits(lay, u, x, u.where[x])
  }

  ghost predicate UnitFits(lay: Layout, u: Units, x: nat, p: Place)
    requires lay.page > 0 && lay.maxPerCore > 0 && x >= lay.start
  {
    var page := PageOf(x, lay.page);
    page in u.size && u.size[page] == p.arena && IsUnit(lay, page, p.arena, x) &&
    (p.Arena? || p.Group? ==> p.cpu == lay.CpuOf(x))
  }

  /** Every page in use is whole, inside one region and below the region's cursor. */
  ghost predicate Pages(lay: Layout, w: World, u: Units)
    requires lay.page > 0 && lay.maxPerCore > 0
  {
    |w.begin| == lay.ncpus &&
    (forall cpu :: 0 <= cpu < lay.ncpus ==>
      IsMultiple(w.begin[cpu], lay.page) && lay.Begin(cpu) <= w.begin[cpu] <= lay.Begin(cpu + 1)) &&
    forall page :: page in u.size ==>
      IsMultiple(page, lay.page) && u.size[page] < MAX_ARENAS && page >= lay.start && lay.CpuOf(page) < lay.ncpus &&
      page + lay.page <= w.begin[lay.CpuOf(page)]
  }

  /** A group's tail is the last unit of its list. */
  ghost predicate Tails(w: World, u: Units) {
    forall p: Place :: p.Group? ==> w.Tail(p) == if u.List(p) == [] then 0 else u.List(p)[|u.List(p)| - 1]
  }

  /** Units s are all of a page's units below p, in ascending order. */
  ghost predicate Ascending(lay: Layout, page: nat, a: nat, s: seq<nat>, p: nat) {
    (forall i, j :: 0 <= i < j < |s| ==> s[i] < s[j]) &&
    (forall i :: 0 <= i < |s| ==> IsUnit(lay, page, a, s[i]) && s[i] < p) &&
    (forall x: nat :: IsUnit(lay, page, a, x) && x < p ==> x in s)
  }

  /** A page being carved belongs to one carver, whose list is the part already linked. */
  ghost predicate Carving(lay: Layout, w: World, u: Units)
    requires lay.page > 0
  {
    (forall f :: f in w.carving ==>
      var c := w.carving[f];
      f.Fresh? && c.page in u.size && c.page !in u.done && u.size[c.page] == f.arena &&
      IsUnit(lay, c.page, f.arena, c.p) && c.first == w.Head(f) &&
      Ascending(lay, c.page, f.arena, u.List(f), c.p) &&
      forall x :: x in u.where && PageOf(x, lay.page) == c.page ==> u.where[x] == f) &&
    (forall f: Place :: f.Fresh? && f !in w.carving ==> u.List(f) == []) &&
    (forall f, g :: f in w.carving && g in w.carving && f != g ==> w.carving[f].page != w.carving[g].page)
  }

  /** No unit of a fully carved page is ever lost. */
  ghost predicate Complete(lay: Layout, u: Units) {
    forall page :: page in u.done ==> page in u.size && AllThere(lay, u, page, u.size[page])
  }

  ghost predicate AllThere(lay: Layout, u: Units, page: nat, a: nat) {
    forall x: nat :: IsUnit(lay, page, a, x) ==> x in u.where
  }

  ghost predicate Good(lay: Layout, w: World, u: Units) {
    lay.Valid() && Linked(w, u) && Owned(u) && Fits(lay, u) && Pages(lay, w, u) && Tails(w, u) &&
    Carving(lay, w, u) && Complete(lay, u)
  }

  // ---- Frames ----

  ghost predicate SamePlace(w: World, u: Units, w': World, u': Units, p: Place) {
    w'.Head(p) == w.Head(p) && w'.Stop(p) == w.Stop(p) && u'.List(p) == u.List(p)
  }

  /** Links change only outside the lists of the untouched places. */
  ghost predicate LinksKept(mem: map<nat, nat>, mem': map<nat, nat>, u: Units, T: set<Place>) {
    forall x :: x in mem && x in u.where && !u.where[x].Live? && u.where[x] !in T ==> x in mem' && mem'[x] == mem[x]
  }

  ghost predicate Rechained(w: World, u: Units, T: set<Place>) {
    forall p :: p in T ==> Chain(w.mem, w.Head(p), u.List(p), w.Stop(p))
  }

  ghost predicate SameElsewhere(w: World, u: Units, w': World, u': Units, T: set<Place>) {
    forall p :: p !in T ==> SamePlace(w, u, w', u', p)
  }

  lemma LinkedFrame(w: World, u: Units, w': World, u': Units, T: set<Place>)
    requires Linked(w, u) && Owned(u)
    requires SameElsewhere(w, u, w', u', T) && LinksKept(w.mem, w'.mem, u, T) && Rechained(w', u', T)
    ensures Linked(w', u')
  {
    hide Chain, LinksKept, Owned;
    forall p
      ensures Chain(w'.mem, w'.Head(p), u'.List(p), w'.Stop(p))
    {
      if p !in T {
        assert SamePlace(w, u, w', u', p);
        assert Chain(w.mem, w.Head(p), u.List(p), w.Stop(p));
        ListKept(w.mem, w'.mem, u, T, p);
        ChainFrame(w.mem, w'.mem, w.Head(p), u.List(p), w.Stop(p));
      }
    }
  }

  lemma ListKept(mem: map<nat, nat>, mem': map<nat, nat>, u: Units, T: set<Place>, p: Place)
    requires Owned(u) && LinksKept(mem, mem', u, T) && p !in T
    ensures forall x :: x in u.List(p) && x in mem ==> x in mem' && mem'[x] == mem[x]
  {
    hide NoDup;
    if p.Live? {
      assert u.List(p) == [];
    }
  }

  lemma {:induction false} ChainFrame(mem: map<nat, nat>, mem': map<nat, nat>, head: nat, s: seq<nat>, stop: nat)
    requires Chain(mem, head, s, stop)
    requires forall x :: x in s && x in mem ==> x in mem' && mem'[x] == mem[x]
    ensures Chain(mem', head, s, stop)
    decreases |s|
  {
    if s != [] {
      assert s[0] in s;
      ChainFrame(mem, mem', mem[head], s[1..], stop);
    }
  }

  ghost predicate ListsKept(u: Units, u': Units, T: set<Place>) {
    (forall p :: p !in T ==> u'.List(p) == u.List(p)) &&
    (forall x :: x in u.where && !u.where[x].Live? && u.where[x] !in T ==>
        x in u'.where && u'.where[x] == u.where[x]) &&
    (forall x :: x in u'.where && !u'.where[x].Live? && u'.where[x] !in T ==> x in u.where && u.where[x] == u'.where[x])
  }

  ghost predicate OwnedAt(u: Units, p: Place) {
    NoDup(u.List(p)) && !p.Live? &&
    (forall x :: x in u.List(p) ==> x in u.where && u.where[x] == p) &&
    (forall x :: x in u.where && u.where[x] == p ==> x in u.List(p))
  }

  lemma OwnedFrame(u: Units, u': Units, T: set<Place>)
    requires Owned(u) && ListsKept(u, u', T)
    requires forall p :: p in T ==> OwnedAt(u', p)
    ensures Owned(u')
  {
    hide NoDup;
    forall p
      ensures NoDup(u'.List(p)) && (p.Live? ==> u'.List(p) == [])
    {
      if p !in T {
        assert u'.List(p) == u.List(p);
      } else {
        assert OwnedAt(u', p);
      }
    }
    forall p, x | x in u'.List(p)
      ensures x in u'.where && u'.where[x] == p
    {
      if p !in T {
        assert x in u.List(p);
      } else {
        assert OwnedAt(u', p);
      }
    }
    forall x | x in u'.where && !u'.where[x].Live?
      ensures x in u'.List(u'.where[x])
    {
      if u'.where[x] !in T {
        assert x in u.List(u.where[x]);
      } else {
        assert OwnedAt(u', u'.where[x]);
      }
    }
  }

  lemma TailsKept(w: World, u: Units, w': World, u': Units)
    requires Tails(w, u)
    requires forall p: Place :: p.Group? ==> w'.Tail(p) == w.Tail(p) && u'.List(p) == u.List(p)
    ensures Tails(w', u')
  {
  }

  /** What the actions on whole units leave alone. */
  ghost predicate Quiet(lay: Layout, w: World, u: Units, w': World, u': Units)
    requires lay.maxPerCore > 0
  {
    w'.begin == w.begin && w'.carving == w.carving && u'.size == u.size && u'.done == u.done &&
    u'.where.Keys == u.where.Keys &&
    (forall f: Place :: f.Fresh? ==> w'.Head(f) == w.Head(f) && u'.List(f) == u.List(f)) &&
    (forall x :: x in u.where ==> Rehomed(lay, x, u.where[x], u'.where[x]))
  }

  ghost predicate Rehomed(lay: Layout, x: nat, p: Place, q: Place)
    requires lay.maxPerCore > 0
  {
    p == q || (!p.Fresh? && !q.Fresh? && p.arena == q.arena &&
               (q.Arena? || q.Group? ==> x >= lay.start && q.cpu == lay.CpuOf(x)))
  }

  lemma QuietKeeps(lay: Layout, w: World, u: Units, w': World, u': Units)
    requires Good(lay, w, u) && Quiet(lay, w, u, w', u')
    ensures Fits(lay, u') && Pages(lay, w', u') && Carving(lay, w', u') && Complete(lay, u')
  {
    hide Ascending, IsUnit, PageOf, Linked, Owned, Tails, Chain, Unit, IsMultiple;
    QuietFits(lay, w, u, w', u');
    QuietCarving(lay, w, u, w', u');
    hide Fits, Carving;
  }

  lemma QuietFits(lay: Layout, w: World, u: Units, w': World, u': Units)
    requires lay.page > 0 && lay.maxPerCore > 0 && Fits(lay, u) && Quiet(lay, w, u, w', u')
    ensures Fits(lay, u')
  {
    hide IsUnit, PageOf;
    forall x | x in u'.where
      ensures x >= lay.start && UnitFits(lay, u', x, u'.where[x])
    {
      assert UnitFits(lay, u, x, u.where[x]);
      assert Rehomed(lay, x, u.where[x], u'.where[x]);
    }
  }

  lemma QuietCarving(lay: Layout, w: World, u: Units, w': World, u': Units)
    requires lay.page > 0 && Carving(lay, w, u) && lay.maxPerCore > 0 && Quiet(lay, w, u, w', u')
    ensures Carving(lay, w', u')
  {
    hide IsUnit, PageOf, Ascending;
  }

  // ---- Chains ----

  lemma ChainHead(mem: map<nat, nat>, head: nat, s: seq<nat>)
    requires Chain(mem, head, s, 0)
    ensures head != 0 <==> s != []
    ensures s != [] ==> s[0] == head && head in mem && Chain(mem, mem[head], s[1..], 0)
  {
  }

  lemma ChainPush(mem: map<nat, nat>, head: nat, s: seq<nat>, x: nat, stop: nat)
    requires Chain(mem, head, s, stop) && x !in s && x != 0
    ensures Chain(mem[x := head], x, [x] + s, stop)
  {
    ChainFrame(mem, mem[x := head], head, s, stop);
    assert ([x] + s)[1..] == s;
  }

  lemma NoDupTail(s: seq<nat>)
    requires NoDup(s) && s != []
    ensures NoDup(s[1..]) && s[0] !in s[1..]
  {
  }

  /** Redirecting the last link of one list to another joins them. */
  lemma {:induction false} ChainJoin(mem: map<nat, nat>, h1: nat, s1: seq<nat>, h2: nat, s2: seq<nat>, stop: nat)
    requires Chain(mem, h1, s1, 0) && Chain(mem, h2, s2, stop) && s1 != [] && NoDup(s1)
    requires s1[|s1| - 1] !in s2
    ensures Chain(mem[s1[|s1| - 1] := h2], h1, s1 + s2, stop)
    decreases |s1|
  {
    var x := s1[|s1| - 1];
    assert (s1 + s2)[1..] == s1[1..] + s2;
    if |s1| == 1 {
      ChainFrame(mem, mem[x := h2], h2, s2, stop);
    } else {
      NoDupTail(s1);
      ChainJoin(mem, mem[h1], s1[1..], h2, s2, stop);
    }
  }

  lemma {:induction false} ChainSnoc(mem: map<nat, nat>, head: nat, s: seq<nat>, x: nat, stop: nat)
    requires Chain(mem, head, s, x) && x !in s && x != 0
    ensures Chain(mem[x := stop], head, s + [x], stop)
    decreases |s|
  {
    assert (s + [x])[1..] == if s == [] then [] else s[1..] + [x];
    if s != [] {
      assert s[0] in s;
      ChainSnoc(mem, mem[head], s[1..], x, stop);
    }
  }

  // ---- Every action keeps the invariant ----

  lemma AllocKeeps(lay: Layout, w: World, u: Units, id: nat, a: nat)
    requires Good(lay, w, u) && Enabled(lay, w, u, Alloc(id, a))
    ensures Good(lay, Do(lay, w, Alloc(id, a)), Moved(lay, w, u, Alloc(id, a)))
  {
    hide Linked, Owned, Fits, Pages, Tails, Carving, Complete, NoDup, Chain, Unit;
    var w', u' := Do(lay, w, Alloc(id, a)), Moved(lay, w, u, Alloc(id, a));
    var p := Held(id, a);
    var s := u.List(p);
    PlaceIsChained(lay, w, u, p);
    ChainHead(w.mem, w.Head(p), s);
    assert Linked(w', u') by { LinkedFrame(w, u, w', u', {p}); }
    AllocOwned(u, p, a);
    assert Tails(w', u') by { TailsKept(w, u, w', u'); }
    QuietKeeps(lay, w, u, w', u');
  }

  lemma AllocOwned(u: Units, p: Place, a: nat)
    requires Owned(u) && !p.Live? && u.List(p) != []
    ensures Owned(u.(lists := u.lists[p := u.List(p)[1..]], where := u.where[u.List(p)[0] := Live(a)]))
  {
    OwnedHere(u, p);
    NoDupTail(u.List(p));
    hide NoDup, Owned;
    OwnedFrame(u, u.(lists := u.lists[p := u.List(p)[1..]], where := u.where[u.List(p)[0] := Live(a)]), {p});
  }

  lemma ClaimKeeps(lay: Layout, w: World, u: Units, id: nat, cpu: nat, a: nat)
    requires Good(lay, w, u) && Enabled(lay, w, u, Claim(id, cpu, a))
    ensures Good(lay, Do(lay, w, Claim(id, cpu, a)), Moved(lay, w, u, Claim(id, cpu, a)))
  {
    hide Linked, Owned, Fits, Pages, Tails, Carving, Complete, NoDup, Chain, Unit, IsUnit, PageOf;
    var w', u' := Do(lay, w, Claim(id, cpu, a)), Moved(lay, w, u, Claim(id, cpu, a));
    var p, q := Arena(cpu, a), Held(id, a);
    PlaceIsChained(lay, w, u, p);
    PlaceIsChained(lay, w, u, q);
    ChainHead(w.mem, w.Head(q), u.List(q));
    assert Linked(w', u') by { ChainNone(w'.mem); LinkedFrame(w, u, w', u', {p, q}); }
    assert Owned(u') by { NoDupNone(); OwnedFrame(u, u', {p, q}); }
    assert Tails(w', u') by { TailsKept(w, u, w', u'); }
    QuietKeeps(lay, w, u, w', u');
  }

  lemma DeallocKeeps(lay: Layout, w: World, u: Units, id: nat, a: nat, x: nat)
    requires Good(lay, w, u) && Enabled(lay, w, u, Dealloc(id, a, x))
    ensures Good(lay, Do(lay, w, Dealloc(id, a, x)), Moved(lay, w, u, Dealloc(id, a, x)))
  {
    hide Linked, Owned, Fits, Pages, Tails, Carving, Complete, NoDup, Chain, Unit, IsUnit, PageOf;
    var w', u' := Do(lay, w, Dealloc(id, a, x)), Moved(lay, w, u, Dealloc(id, a, x));
    var p := Held(id, a);
    var s := u.List(p);
    PlaceIsChained(lay, w, u, p);
    Positive(lay, u, x);
    assert Linked(w', u') by {
      ChainPush(w.mem, w.Head(p), s, x, 0);
      LinkedFrame(w, u, w', u', {p});
    }
    DeallocOwned(u, p, x);
    assert Tails(w', u') by { TailsKept(w, u, w', u'); }
    QuietKeeps(lay, w, u, w', u');
  }

  lemma DeallocOwned(u: Units, p: Place, x: nat)
    requires Owned(u) && !p.Live? && x in u.where && u.where[x].Live?
    ensures Owned(u.(lists := u.lists[p := [x] + u.List(p)], where := u.where[x := p]))
  {
    OwnedHere(u, p);
    NoDupPush(u.List(p), x);
    hide NoDup, Owned;
    OwnedFrame(u, u.(lists := u.lists[p := [x] + u.List(p)], where := u.where[x := p]), {p});
  }

  lemma ScribbleKeeps(lay: Layout, w: World, u: Units, x: nat, v: nat)
    requires Good(lay, w, u) && Enabled(lay, w, u, Scribble(x, v))
    ensures Good(lay, Do(lay, w, Scribble(x, v)), Moved(lay, w, u, Scribble(x, v)))
  {
    hide Linked, Owned, Fits, Pages, Tails, Carving, Complete, NoDup, Chain, Unit, IsUnit, PageOf;
    var w', u' := Do(lay, w, Scribble(x, v)), Moved(lay, w, u, Scribble(x, v));
    assert Linked(w', u') by { LinkedFrame(w, u, w', u', {}); }
    assert Tails(w', u') by { TailsKept(w, u, w', u'); }
    QuietKeeps(lay, w, u, w', u');
  }

  lemma SpliceLinked(lay: Layout, w: World, u: Units, id: nat, cpu: nat, a: nat)
    requires Good(lay, w, u) && Enabled(lay, w, u, Splice(id, cpu, a))
    ensures Linked(Do(lay, w, Splice(id, cpu, a)), Moved(lay, w, u, Splice(id, cpu, a)))
  {
    hide Linked, Owned, Fits, Pages, Tails, Carving, Complete, NoDup, Chain, Unit, IsUnit, PageOf;
    var w', u' := Do(lay, w, Splice(id, cpu, a)), Moved(lay, w, u, Splice(id, cpu, a));
    var g, p := Group(id, cpu, a), Arena(cpu, a);
    var s, t := u.List(g), u.List(p);
    PlaceIsChained(lay, w, u, g);
    PlaceIsChained(lay, w, u, p);
    ChainHead(w.mem, w.Head(g), s);
    TailIs(w, u, g);
    assert s[|s| - 1] in s;
    ChainJoin(w.mem, w.Head(g), s, w.Head(p), t, 0);
    ChainNone(w'.mem);
    LinkedFrame(w, u, w', u', {g, p});
  }

  lemma SpliceOwned(lay: Layout, w: World, u: Units, id: nat, cpu: nat, a: nat)
    requires Good(lay, w, u) && Enabled(lay, w, u, Splice(id, cpu, a))
    ensures Owned(Moved(lay, w, u, Splice(id, cpu, a)))
  {
    hide Linked, Owned, Fits, Pages, Tails, Carving, Complete, NoDup, Chain, Unit, IsUnit, PageOf;
    var w', u' := Do(lay, w, Splice(id, cpu, a)), Moved(lay, w, u, Splice(id, cpu, a));
    var g, p := Group(id, cpu, a), Arena(cpu, a);
    var s, t := u.List(g), u.List(p);
    PlaceIsChained(lay, w, u, g);
    PlaceIsChained(lay, w, u, p);
    ChainHead(w.mem, w.Head(g), s);
    NoDupNone();
    NoDupJoin(s, t);
    OwnedFrame(u, u', {g, p});
  }

  lemma SpliceRest(lay: Layout, w: World, u: Units, id: nat, cpu: nat, a: nat)
    requires Good(lay, w, u) && Enabled(lay, w, u, Splice(id, cpu, a))
    ensures Tails(Do(lay, w, Splice(id, cpu, a)), Moved(lay, w, u, Splice(id, cpu, a)))
    ensures Quiet(lay, w, u, Do(lay, w, Splice(id, cpu, a)), Moved(lay, w, u, Splice(id, cpu, a)))
  {
    hide Linked, Owned, Fits, Pages, Tails, Carving, Complete, NoDup, Chain, Unit, IsUnit, PageOf;
    var w', u' := Do(lay, w, Splice(id, cpu, a)), Moved(lay, w, u, Splice(id, cpu, a));
    var g := Group(id, cpu, a);
    GroupCpu(lay, u, g);
    TailsButOne(w, u, w', u', g);
  }

  lemma SpliceKeeps(lay: Layout, w: World, u: Units, id: nat, cpu: nat, a: nat)
    requires Good(lay, w, u) && Enabled(lay, w, u, Splice(id, cpu, a))
    ensures Good(lay, Do(lay, w, Splice(id, cpu, a)), Moved(lay, w, u, Splice(id, cpu, a)))
  {
    hide Linked, Owned, Fits, Pages, Tails, Carving, Complete, Do, Moved;
    SpliceLinked(lay, w, u, id, cpu, a);
    SpliceOwned(lay, w, u, id, cpu, a);
    SpliceRest(lay, w, u, id, cpu, a);
    QuietKeeps(lay, w, u, Do(lay, w, Splice(id, cpu, a)), Moved(lay, w, u, Splice(id, cpu, a)));
  }

  lemma GatherLinked(lay: Layout, w: World, u: Units, id: nat, a: nat)
    requires Good(lay, w, u) && Enabled(lay, w, u, Gather(id, a))
    ensures Linked(Do(lay, w, Gather(id, a)), Moved(lay, w, u, Gather(id, a)))
  {
    hide Linked, Owned, Fits, Pages, Tails, Carving, Complete, NoDup, Chain, Unit, IsUnit, PageOf;
    var w', u' := Do(lay, w, Gather(id, a)), Moved(lay, w, u, Gather(id, a));
    var p := Held(id, a);
    var s := u.List(p);
    PlaceIsChained(lay, w, u, p);
    ChainHead(w.mem, w.Head(p), s);
    var x := s[0];
    assert x in s;
    Positive(lay, u, x);
    var g := Group(id, lay.CpuOf(x), a);
    PlaceIsChained(lay, w, u, g);
    TailIs(w, u, g);
    ChainHead(w.mem, w.Head(g), u.List(g));
    if u.List(g) != [] {
      LastPositive(w.mem, w.Head(g), u.List(g));
    }
    NoDupTail(s);
    ChainPush(w.mem, w.Head(g), u.List(g), x, 0);
    ChainFrame(w.mem, w'.mem, w.mem[x], s[1..], 0);
    LinkedFrame(w, u, w', u', {p, g});
  }

  lemma GatherOwned(lay: Layout, w: World, u: Units, id: nat, a: nat)
    requires Good(lay, w, u) && Enabled(lay, w, u, Gather(id, a))
    ensures Owned(Moved(lay, w, u, Gather(id, a)))
  {
    hide Linked, Owned, Fits, Pages, Tails, Carving, Complete, NoDup, Chain, Unit, IsUnit, PageOf;
    var p := Held(id, a);
    PlaceIsChained(lay, w, u, p);
    ChainHead(w.mem, w.Head(p), u.List(p));
    var x := u.List(p)[0];
    assert x in u.List(p);
    Positive(lay, u, x);
    UnitMoves(u, p, Group(id, lay.CpuOf(x), a));
  }

  /** The first unit of one list moves to the front of another. */
  lemma UnitMoves(u: Units, p: Place, g: Place)
    requires Owned(u) && p != g && !p.Live? && !g.Live? && u.List(p) != []
    ensures var s := u.List(p);
            Owned(u.(lists := u.lists[p := s[1..]][g := [s[0]] + u.List(g)], where := u.where[s[0] := g]))
  {
    var s := u.List(p);
    var u' := u.(lists := u.lists[p := s[1..]][g := [s[0]] + u.List(g)], where := u.where[s[0] := g]);
    OwnedHere(u, p);
    OwnedHere(u, g);
    assert s[0] in s;
    NoDupTail(s);
    NoDupPush(u.List(g), s[0]);
    hide NoDup, Owned;
    assert OwnedAt(u', p);
    assert OwnedAt(u', g);
    hide OwnedAt;
    assert ListsKept(u, u', {p, g});
    hide ListsKept;
    OwnedFrame(u, u', {p, g});
  }

  lemma GatherRest(lay: Layout, w: World, u: Units, id: nat, a: nat)
    requires Good(lay, w, u) && Enabled(lay, w, u, Gather(id, a))
    ensures Tails(Do(lay, w, Gather(id, a)), Moved(lay, w, u, Gather(id, a)))
    ensures Quiet(lay, w, u, Do(lay, w, Gather(id, a)), Moved(lay, w, u, Gather(id, a)))
  {
    hide Linked, Owned, Fits, Pages, Tails, Carving, Complete, NoDup, Chain, Unit, IsUnit, PageOf;
    var w', u' := Do(lay, w, Gather(id, a)), Moved(lay, w, u, Gather(id, a));
    var p := Held(id, a);
    var s := u.List(p);
    PlaceIsChained(lay, w, u, p);
    ChainHead(w.mem, w.Head(p), s);
    var x := s[0];
    assert x in s;
    Positive(lay, u, x);
    var g := Group(id, lay.CpuOf(x), a);
    PlaceIsChained(lay, w, u, g);
    TailIs(w, u, g);
    if u.List(g) != [] {
      LastPositive(w.mem, w.Head(g), u.List(g));
    }
    TailsButOne(w, u, w', u', g);
  }

  lemma GatherKeeps(lay: Layout, w: World, u: Units, id: nat, a: nat)
    requires Good(lay, w, u) && Enabled(lay, w, u, Gather(id, a))
    ensures Good(lay, Do(lay, w, Gather(id, a)), Moved(lay, w, u, Gather(id, a)))
  {
    hide Linked, Owned, Fits, Pages, Tails, Carving, Complete, Do, Moved;
    GatherLinked(lay, w, u, id, a);
    GatherOwned(lay, w, u, id, a);
    GatherRest(lay, w, u, id, a);
    QuietKeeps(lay, w, u, Do(lay, w, Gather(id, a)), Moved(lay, w, u, Gather(id, a)));
  }

  lemma {:induction false} LastPositive(mem: map<nat, nat>, head: nat, s: seq<nat>)
    requires Chain(mem, head, s, 0) && s != []
    ensures s[|s| - 1] != 0
    decreases |s|
  {
    if |s| > 1 {
      LastPositive(mem, mem[head], s[1..]);
    }
  }

  lemma RegionCount(lay: Layout, w: World, u: Units)
    requires lay.page > 0 && lay.maxPerCore > 0 && Pages(lay, w, u)
    ensures |w.begin| == lay.ncpus
  {
  }

  lemma TakeRawKeeps(lay: Layout, w: World, u: Units, cpu: nat, n: nat)
    requires Good(lay, w, u) && Enabled(lay, w, u, TakeRaw(cpu, n))
    ensures Good(lay, Do(lay, w, TakeRaw(cpu, n)), Moved(lay, w, u, TakeRaw(cpu, n)))
  {
    hide Linked, Owned, Fits, Tails, Carving, Complete, IsMultiple, Layout.CpuOf, Layout.Begin;
    RegionCount(lay, w, u);
    CursorMoves(lay, w, u, w.begin[cpu := w.begin[cpu] + n * lay.page]);
    CursorStays(lay, w, u, cpu, w.begin[cpu], n * lay.page, n);
  }

  lemma CursorStays(lay: Layout, w: World, u: Units, cpu: nat, at: nat, more: nat, n: nat)
    requires lay.page > 0 && lay.maxPerCore > 0 && Pages(lay, w, u) && cpu < lay.ncpus
    requires at == w.begin[cpu] && more == n * lay.page && at + more <= lay.Begin(cpu + 1)
    ensures Pages(lay, w.(begin := w.begin[cpu := at + more]), u)
  {
    hide IsMultiple, Layout.CpuOf, Layout.Begin;
    MultiplePages(at, lay.page, n);
  }

  /** Moving the cursors changes no list. */
  lemma CursorMoves(lay: Layout, w: World, u: Units, begin: seq<nat>)
    requires lay.page > 0 && Linked(w, u) && Tails(w, u) && Carving(lay, w, u)
    ensures var w' := w.(begin := begin); Linked(w', u) && Tails(w', u) && Carving(lay, w', u)
  {
    hide Chain, Ascending, IsUnit, PageOf, NoDup;
    var w' := w.(begin := begin);
    assert Linked(w', u) by {
      forall p
        ensures Chain(w'.mem, w'.Head(p), u.List(p), w'.Stop(p))
      {
        assert Chain(w.mem, w.Head(p), u.List(p), w.Stop(p));
      }
    }
    hide Linked;
    assert Tails(w', u) by { hide Carving; TailsKept(w, u, w', u); }
    hide Tails;
  }

  lemma {:induction false} MultiplePages(x: nat, page: nat, n: nat)
    requires IsMultiple(x, page)
    ensures IsMultiple(x + n * page, page)
  {
    if n > 0 {
      MultiplePages(x, page, n - 1);
      MultipleNext(x + (n - 1) * page, page);
      assert x + (n - 1) * page + page == x + n * page;
    }
  }

  /** A region's cursor stands at a page nobody has. */
  lemma PageIsNew(lay: Layout, w: World, u: Units, cpu: nat)
    requires lay.Valid() && Pages(lay, w, u) && Fits(lay, u) && Complete(lay, u)
    requires cpu < lay.ncpus && w.begin[cpu] + lay.page <= lay.Begin(cpu + 1)
    ensures var page := w.begin[cpu];
            page >= lay.start && lay.CpuOf(page) == cpu && IsMultiple(page, lay.page) &&
            page !in u.size && page !in u.done &&
            forall x :: x in u.where ==> PageOf(x, lay.page) in u.size && PageOf(x, lay.page) != page
  {
    hide IsUnit, PageOf, IsMultiple, Unit;
    CpuIs(lay, w.begin[cpu], cpu);
    hide Layout.CpuOf, Layout.Begin;
    forall x | x in u.where
      ensures PageOf(x, lay.page) in u.size && PageOf(x, lay.page) != w.begin[cpu]
    {
      assert UnitFits(lay, u, x, u.where[x]);
    }
  }

  /** Carving starts at the page's first unit. */
  lemma FirstUnit(lay: Layout, page: nat, a: nat)
    requires lay.Valid() && a < MAX_ARENAS
    ensures var first := Iceil(page, Unit(a));
            IsUnit(lay, page, a, first) && Ascending(lay, page, a, [], first)
  {
    var first := Iceil(page, Unit(a));
    IceilLeast(page, Unit(a));
    hide IsMultiple, Iceil;
    forall x: nat | IsUnit(lay, page, a, x) && x < first
      ensures false
    {
      MultipleGap(x, first, Unit(a));
    }
  }

  lemma TakePageKeeps(lay: Layout, w: World, u: Units, id: nat, cpu: nat, a: nat)
    requires Good(lay, w, u) && Enabled(lay, w, u, TakePage(id, cpu, a))
    ensures Good(lay, Do(lay, w, TakePage(id, cpu, a)), Moved(lay, w, u, TakePage(id, cpu, a)))
  {
    hide Linked, Owned, Fits, Pages, Tails, Carving, Complete, NoDup, Chain, Unit, IsUnit, PageOf,
         IsMultiple, Iceil, Ascending;
    RegionCount(lay, w, u);
    var w', u' := Do(lay, w, TakePage(id, cpu, a)), Moved(lay, w, u, TakePage(id, cpu, a));
    var f, page := Fresh(id, a), w.begin[cpu];
    PageIsNew(lay, w, u, cpu);
    FirstUnit(lay, page, a);
    assert Linked(w', u') by { TakePageLinked(lay, w, u, id, cpu, a); }
    assert Owned(u') by { OwnedFrame(u, u', {}); }
    assert Tails(w', u') by { TailsKept(w, u, w', u'); }
    assert Pages(lay, w', u') by { TakePagePages(lay, w, u, id, cpu, a); }
    assert Fits(lay, u') by { SizeGrows(lay, u, page, a); }
    assert Complete(lay, u') by { SizeGrows(lay, u, page, a); }
    TakePageCarving(lay, w, u, id, cpu, a);
  }

  lemma TakePageLinked(lay: Layout, w: World, u: Units, id: nat, cpu: nat, a: nat)
    requires Good(lay, w, u) && Enabled(lay, w, u, TakePage(id, cpu, a))
    ensures Linked(Do(lay, w, TakePage(id, cpu, a)), Moved(lay, w, u, TakePage(id, cpu, a)))
  {
    hide Linked, Owned, Fits, Pages, Tails, Carving, Complete, NoDup, Chain, Unit, IsUnit, PageOf,
         IsMultiple, Iceil, Ascending;
    RegionCount(lay, w, u);
    var w', u' := Do(lay, w, TakePage(id, cpu, a)), Moved(lay, w, u, TakePage(id, cpu, a));
    var f := Fresh(id, a);
    NotCarving(lay, w, u, f);
    ChainEmpty(w.mem, Iceil(w.begin[cpu], Unit(a)));
    LinkedFrame(w, u, w', u', {f});
  }

  lemma TakePagePages(lay: Layout, w: World, u: Units, id: nat, cpu: nat, a: nat)
    requires Good(lay, w, u) && Enabled(lay, w, u, TakePage(id, cpu, a))
    ensures Pages(lay, Do(lay, w, TakePage(id, cpu, a)), Moved(lay, w, u, TakePage(id, cpu, a)))
  {
    hide Linked, Owned, Fits, Tails, Carving, Complete, NoDup, Chain, Unit, IsUnit, PageOf, IsMultiple,
         Iceil, Ascending, Layout.CpuOf, Layout.Begin;
    var w', u' := Do(lay, w, TakePage(id, cpu, a)), Moved(lay, w, u, TakePage(id, cpu, a));
    PageIsNew(lay, w, u, cpu);
    MultipleNext(w.begin[cpu], lay.page);
  }

  lemma SizeGrows(lay: Layout, u: Units, page: nat, a: nat)
    requires lay.Valid() && Fits(lay, u) && Complete(lay, u) && page !in u.size
    ensures Fits(lay, u.(size := u.size[page := a])) && Complete(lay, u.(size := u.size[page := a]))
  {
    hide IsUnit, PageOf, Unit, Layout.CpuOf;
    var u' := u.(size := u.size[page := a]);
    forall x | x in u'.where
      ensures x >= lay.start && UnitFits(lay, u', x, u'.where[x])
    {
      assert UnitFits(lay, u, x, u.where[x]);
    }
  }

  lemma NotCarving(lay: Layout, w: World, u: Units, f: Place)
    requires lay.page > 0 && Carving(lay, w, u) && f.Fresh? && f !in w.carving
    ensures u.List(f) == []
  {
  }

  lemma ChainEmpty(mem: map<nat, nat>, p: nat)
    ensures Chain(mem, p, [], p)
  {
  }

  lemma TakePageCarving(lay: Layout, w: World, u: Units, id: nat, cpu: nat, a: nat)
    requires Good(lay, w, u) && Enabled(lay, w, u, TakePage(id, cpu, a))
    ensures Carving(lay, Do(lay, w, TakePage(id, cpu, a)), Moved(lay, w, u, TakePage(id, cpu, a)))
  {
    hide Linked, Owned, Fits, Pages, Tails, Carving, Complete, NoDup, Chain, Unit, IsUnit, PageOf, IsMultiple,
         Iceil, Ascending, Layout.CpuOf, Layout.Begin;
    RegionCount(lay, w, u);
    var w', u' := Do(lay, w, TakePage(id, cpu, a)), Moved(lay, w, u, TakePage(id, cpu, a));
    var f, page := Fresh(id, a), w.begin[cpu];
    PageIsNew(lay, w, u, cpu);
    NotCarving(lay, w, u, f);
    CarvedPages(lay, w, u);
    FirstUnit(lay, page, a);
    CarveMore(lay, w, u, w', u', f);
  }

  /** One carver's page, as its place must have it. */
  ghost predicate CarveOk(lay: Layout, w: World, u: Units, f: Place)
    requires lay.page > 0 && f in w.carving
  {
    var c := w.carving[f];
    f.Fresh? && c.page in u.size && c.page !in u.done && u.size[c.page] == f.arena &&
    IsUnit(lay, c.page, f.arena, c.p) && c.first == w.Head(f) &&
    Ascending(lay, c.page, f.arena, u.List(f), c.p) &&
    forall x :: x in u.where && PageOf(x, lay.page) == c.page ==> u.where[x] == f
  }

  /** A step of one carver leaves the others as they are. */
  lemma CarveMore(lay: Layout, w: World, u: Units, w': World, u': Units, f: Place)
    requires lay.page > 0 && Carving(lay, w, u) && f in w'.carving && CarveOk(lay, w', u', f)
    requires w'.carving == w.carving[f := w'.carving[f]] && u'.done == u.done
    requires forall page :: page in u.size ==> page in u'.size && u'.size[page] == u.size[page]
    requires forall g: Place :: g.Fresh? && g != f ==> w'.Head(g) == w.Head(g) && u'.List(g) == u.List(g)
    requires forall g :: g in w.carving && g != f ==> w.carving[g].page != w'.carving[f].page
    requires forall x :: x in u'.where ==>
               (x in u.where && u'.where[x] == u.where[x]) || PageOf(x, lay.page) == w'.carving[f].page
    ensures Carving(lay, w', u')
  {
    hide PageOf, IsUnit, Ascending;
    forall g | g in w'.carving
      ensures CarveOk(lay, w', u', g)
    {
      if g != f {
        assert g in w.carving && w'.carving[g] == w.carving[g];
      }
    }
  }

  /** The unit about to be linked is in no list and belongs to its carver's page. */
  lemma NextIsNew(lay: Layout, w: World, u: Units, f: Place)
    requires Good(lay, w, u) && f in w.carving
    ensures f.Fresh? && f.arena < MAX_ARENAS
    ensures var c := w.carving[f];
            c.p !in u.where && c.p != 0 && c.p >= lay.start && PageOf(c.p, lay.page) == c.page && c.p !in u.List(f) &&
            Chain(w.mem, w.Head(f), u.List(f), c.p)
  {
    var c := w.carving[f];
    assert PageOf(c.p, lay.page) == c.page by {
      hide PageOf, Linked, Owned, Fits, Tails, Complete;
      PageIs(c.p, c.page, lay.page);
    }
    hide PageOf, IsMultiple, Unit, Fits, Pages, Tails, Complete;
    assert Chain(w.mem, w.Head(f), u.List(f), w.Stop(f));
    CarvedBelow(lay, w, u, f);
    PageAbove(lay, w, u, c.page);
  }

  lemma CarvedBelow(lay: Layout, w: World, u: Units, f: Place)
    requires lay.page > 0 && Carving(lay, w, u) && Owned(u) && f in w.carving
    ensures forall x :: x in u.where && PageOf(x, lay.page) == w.carving[f].page ==> x < w.carving[f].p
  {
    hide PageOf, IsUnit;
    forall x | x in u.where && PageOf(x, lay.page) == w.carving[f].page
      ensures x < w.carving[f].p
    {
      assert u.where[x] == f;
      assert x in u.List(f);
    }
  }

  lemma PageAbove(lay: Layout, w: World, u: Units, page: nat)
    requires lay.Valid() && Pages(lay, w, u) && page in u.size
    ensures page >= lay.start && u.size[page] < MAX_ARENAS
  {
    hide IsMultiple;
  }

  /** The unit a carver links next is one of its page's. */
  lemma NextFits(lay: Layout, w: World, u: Units, f: Place)
    requires Good(lay, w, u) && f in w.carving
    ensures var c := w.carving[f];
            c.page in u.size && u.size[c.page] == f.arena && IsUnit(lay, c.page, f.arena, c.p) && c.page !in u.done
  {
  }

  /** One more unit done. */
  lemma AscendingSnoc(lay: Layout, page: nat, a: nat, s: seq<nat>, p: nat)
    requires Ascending(lay, page, a, s, p) && IsUnit(lay, page, a, p)
    ensures Ascending(lay, page, a, s + [p], p + Unit(a))
    ensures p + Unit(a) + Unit(a) <= page + lay.page ==> IsUnit(lay, page, a, p + Unit(a))
    ensures p + Unit(a) + Unit(a) > page + lay.page ==> forall x: nat :: IsUnit(lay, page, a, x) ==> x in s + [p]
  {
    MultipleNext(p, Unit(a));
    hide Unit, IsMultiple;
    forall x: nat | IsUnit(lay, page, a, x) && (x < p + Unit(a) || p + Unit(a) + Unit(a) > page + lay.page)
      ensures x in s + [p]
    {
      if x > p {
        MultipleGap(p, x, Unit(a));
      } else if x < p {
        assert x in s;
      }
    }
  }

  lemma LinkKeeps(lay: Layout, w: World, u: Units, id: nat, a: nat)
    requires Good(lay, w, u) && Enabled(lay, w, u, Link(id, a))
    ensures Good(lay, Do(lay, w, Link(id, a)), Moved(lay, w, u, Link(id, a)))
  {
    hide Linked, Owned, Fits, Pages, Tails, Carving, Complete, NoDup, Chain, Unit, IsUnit, PageOf,
         IsMultiple, Iceil, Ascending;
    var w', u' := Do(lay, w, Link(id, a)), Moved(lay, w, u, Link(id, a));
    var f := Fresh(id, a);
    NextIsNew(lay, w, u, f);
    NextFits(lay, w, u, f);
    OwnedHere(u, f);
    assert Linked(w', u') by {
      ChainSnoc(w.mem, w.Head(f), u.List(f), w.carving[f].p, w.carving[f].p + Unit(a));
      LinkedFrame(w, u, w', u', {f});
    }
    assert Owned(u') by { NoDupSnoc(u.List(f), w.carving[f].p); OwnedFrame(u, u', {f}); }
    assert Tails(w', u') by { TailsKept(w, u, w', u'); }
    UnitAdded(lay, w, u, u', f);
    assert Pages(lay, w', u') by { PagesKept(lay, w, u, w', u'); }
    LinkCarving(lay, w, u, id, a);
  }

  lemma LinkCarving(lay: Layout, w: World, u: Units, id: nat, a: nat)
    requires Good(lay, w, u) && Enabled(lay, w, u, Link(id, a))
    ensures Carving(lay, Do(lay, w, Link(id, a)), Moved(lay, w, u, Link(id, a)))
  {
    hide Linked, Owned, Fits, Pages, Tails, Carving, Complete, NoDup, Chain, Unit, IsUnit, PageOf, IsMultiple,
         Iceil, Ascending, Layout.CpuOf, Layout.Begin;
    var w', u' := Do(lay, w, Link(id, a)), Moved(lay, w, u, Link(id, a));
    var f := Fresh(id, a);
    NextIsNew(lay, w, u, f);
    NextFits(lay, w, u, f);
    CarvingAt(lay, w, u, f);
    AscendingSnoc(lay, w.carving[f].page, a, u.List(f), w.carving[f].p);
    CarveMore(lay, w, u, w', u', f);
  }

  lemma CarvedPages(lay: Layout, w: World, u: Units)
    requires lay.page > 0 && Carving(lay, w, u)
    ensures forall g :: g in w.carving ==> w.carving[g].page in u.size
  {
    hide PageOf, IsUnit, Ascending;
  }

  lemma CarvingAt(lay: Layout, w: World, u: Units, f: Place)
    requires lay.page > 0 && Carving(lay, w, u) && f in w.carving
    ensures CarveOk(lay, w, u, f)
    ensures forall g :: g in w.carving && g != f ==> w.carving[g].page != w.carving[f].page
  {
    hide PageOf, IsUnit, Ascending;
  }

  lemma OwnedHere(u: Units, p: Place)
    requires Owned(u)
    ensures NoDup(u.List(p)) && (p.Live? ==> u.List(p) == [])
    ensures forall x :: x in u.List(p) ==> x in u.where && u.where[x] == p
    ensures !p.Live? ==> forall x :: x in u.where && u.where[x] == p ==> x in u.List(p)
  {
  }

  lemma NoDupSnoc(s: seq<nat>, x: nat)
    requires NoDup(s) && x !in s
    ensures NoDup(s + [x])
  {
  }

  lemma PagesKept(lay: Layout, w: World, u: Units, w': World, u': Units)
    requires lay.page > 0 && lay.maxPerCore > 0 && Pages(lay, w, u) && w'.begin == w.begin && u'.size == u.size
    ensures Pages(lay, w', u')
  {
    hide IsMultiple, Layout.CpuOf, Layout.Begin;
  }

  /** Adding a unit of the carver's page keeps every unit inside its page. */
  lemma UnitAdded(lay: Layout, w: World, u: Units, u': Units, f: Place)
    requires Good(lay, w, u) && f in w.carving && u'.size == u.size && u'.done == u.done
    requires u'.where == u.where[w.carving[f].p := f]
    ensures Fits(lay, u') && Complete(lay, u')
  {
    NextIsNew(lay, w, u, f);
    NextFits(lay, w, u, f);
    assert UnitFits(lay, u, w.carving[f].p, f) by {
      hide PageOf, IsUnit, Linked, Owned, Fits, Pages, Tails, Carving, Complete;
    }
    hide *;
    FitsMore(lay, u, u', w.carving[f].p, f);
    CompleteMore(lay, u, u');
  }

  lemma FitsMore(lay: Layout, u: Units, u': Units, p: nat, f: Place)
    requires lay.page > 0 && lay.maxPerCore > 0 && Fits(lay, u) && p >= lay.start && UnitFits(lay, u, p, f)
    requires u'.size == u.size && u'.where == u.where[p := f]
    ensures Fits(lay, u')
  {
    hide PageOf, IsUnit;
    forall x | x in u'.where
      ensures x >= lay.start && UnitFits(lay, u', x, u'.where[x])
    {
      if x != p {
        assert UnitFits(lay, u, x, u.where[x]);
      }
    }
  }

  lemma CompleteMore(lay: Layout, u: Units, u': Units)
    requires Complete(lay, u) && u'.size == u.size && u'.done == u.done
    requires forall x :: x in u.where ==> x in u'.where
    ensures Complete(lay, u')
  {
    hide IsUnit;
  }

  lemma FinishKeeps(lay: Layout, w: World, u: Units, id: nat, a: nat)
    requires Good(lay, w, u) && Enabled(lay, w, u, Finish(id, a))
    ensures Good(lay, Do(lay, w, Finish(id, a)), Moved(lay, w, u, Finish(id, a)))
  {
    hide Linked, Owned, Fits, Pages, Tails, Carving, Complete, NoDup, Chain, Unit, IsUnit, PageOf,
         IsMultiple, Iceil, Ascending, More;
    var w', u' := Do(lay, w, Finish(id, a)), Moved(lay, w, u, Finish(id, a));
    var f := Fresh(id, a);
    NextIsNew(lay, w, u, f);
    FinishLinked(lay, w, u, id, a);
    FinishOwned(lay, w, u, id, a);
    FinishFits(lay, w, u, id, a);
    FinishCarving(lay, w, u, id, a);
    FinishComplete(lay, w, u, id, a);
    assert Tails(w', u') by { TailsKept(w, u, w', u'); }
    assert Pages(lay, w', u') by { PagesKept(lay, w, u, w', u'); }
  }

  lemma FinishLinked(lay: Layout, w: World, u: Units, id: nat, a: nat)
    requires Good(lay, w, u) && Enabled(lay, w, u, Finish(id, a))
    ensures Linked(Do(lay, w, Finish(id, a)), Moved(lay, w, u, Finish(id, a)))
  {
    hide Linked, Owned, Fits, Pages, Tails, Carving, Complete, NoDup, Chain, Unit, IsUnit, PageOf,
         IsMultiple, Iceil, Ascending, More;
    var w', u' := Do(lay, w, Finish(id, a)), Moved(lay, w, u, Finish(id, a));
    var f, q := Fresh(id, a), Held(id, a);
    NextIsNew(lay, w, u, f);
    CarveHead(lay, w, u, f);
    PlaceIsChained(lay, w, u, q);
    ChainSnoc(w.mem, w.Head(f), u.List(f), w.carving[f].p, 0);
    ChainNone(w'.mem);
    LinkedFrame(w, u, w', u', {f, q});
  }

  lemma FinishOwned(lay: Layout, w: World, u: Units, id: nat, a: nat)
    requires Good(lay, w, u) && Enabled(lay, w, u, Finish(id, a))
    ensures Owned(Moved(lay, w, u, Finish(id, a)))
  {
    hide Linked, Owned, Fits, Pages, Tails, Carving, Complete, NoDup, Chain, Unit, IsUnit, PageOf,
         IsMultiple, Iceil, Ascending, More;
    var w', u' := Do(lay, w, Finish(id, a)), Moved(lay, w, u, Finish(id, a));
    var f, q := Fresh(id, a), Held(id, a);
    NextIsNew(lay, w, u, f);
    OwnedHere(u, f);
    PlaceIsChained(lay, w, u, q);
    ChainHead(w.mem, w.Head(q), u.List(q));
    NoDupSnoc(u.List(f), w.carving[f].p);
    NoDupNone();
    OwnedFrame(u, u', {f, q});
  }

  lemma FinishFits(lay: Layout, w: World, u: Units, id: nat, a: nat)
    requires Good(lay, w, u) && Enabled(lay, w, u, Finish(id, a))
    ensures Fits(lay, Moved(lay, w, u, Finish(id, a)))
  {
    hide Linked, Owned, Fits, Pages, Tails, Carving, Complete, NoDup, Chain, Unit, IsUnit, PageOf,
         IsMultiple, Iceil, Ascending, More;
    var w', u' := Do(lay, w, Finish(id, a)), Moved(lay, w, u, Finish(id, a));
    var f, q := Fresh(id, a), Held(id, a);
    NextIsNew(lay, w, u, f);
    NextFits(lay, w, u, f);
    FitsRelabel(lay, u, f, q);
    FitsMore(lay, u.(where := Relabel(u.where, f, q)), u', w.carving[f].p, q);
  }

  lemma FitsRelabel(lay: Layout, u: Units, f: Place, q: Place)
    requires lay.page > 0 && lay.maxPerCore > 0 && Fits(lay, u) && q.Held? && f.arena == q.arena
    ensures Fits(lay, u.(where := Relabel(u.where, f, q)))
  {
    hide PageOf, IsUnit;
    var u' := u.(where := Relabel(u.where, f, q));
    forall x | x in u'.where
      ensures x >= lay.start && UnitFits(lay, u', x, u'.where[x])
    {
      assert UnitFits(lay, u, x, u.where[x]);
    }
  }

  lemma FinishCarving(lay: Layout, w: World, u: Units, id: nat, a: nat)
    requires Good(lay, w, u) && Enabled(lay, w, u, Finish(id, a))
    ensures Carving(lay, Do(lay, w, Finish(id, a)), Moved(lay, w, u, Finish(id, a)))
  {
    hide Linked, Owned, Fits, Pages, Tails, Complete, NoDup, Chain, Unit, IsUnit, PageOf, IsMultiple,
         Iceil, Ascending, Layout.CpuOf, Layout.Begin, More;
    var w', u' := Do(lay, w, Finish(id, a)), Moved(lay, w, u, Finish(id, a));
    var f := Fresh(id, a);
    NextIsNew(lay, w, u, f);
    forall g, x | g in w'.carving && x in u'.where && PageOf(x, lay.page) == w'.carving[g].page
      ensures u'.where[x] == g
    {
      OthersUnit(lay, w, u, f, g, x);
    }
    OtherCarvings(lay, w, u, w', u', f);
  }

  /** A unit of another carver's page is that carver's. */
  lemma OthersUnit(lay: Layout, w: World, u: Units, f: Place, g: Place, x: nat)
    requires lay.page > 0 && Carving(lay, w, u) && f in w.carving && g in w.carving && f != g
    requires PageOf(x, lay.page) == w.carving[g].page && PageOf(w.carving[f].p, lay.page) == w.carving[f].page
    ensures x != w.carving[f].p && (x in u.where ==> u.where[x] == g)
  {
    hide PageOf, IsUnit, Ascending;
  }

  lemma OtherCarvings(lay: Layout, w: World, u: Units, w': World, u': Units, f: Place)
    requires lay.page > 0 && Carving(lay, w, u) && f in w.carving && f.Fresh?
    requires w'.carving == w.carving - {f} && u'.size == u.size && u'.done == u.done + {w.carving[f].page}
    requires forall g: Place :: g.Fresh? && g != f ==> w'.Head(g) == w.Head(g) && u'.List(g) == u.List(g)
    requires u'.List(f) == []
    requires forall g, x :: g in w'.carving && x in u'.where && PageOf(x, lay.page) == w'.carving[g].page ==>
              u'.where[x] == g
    ensures Carving(lay, w', u')
  {
    hide PageOf, IsUnit, Ascending;
  }

  lemma FinishComplete(lay: Layout, w: World, u: Units, id: nat, a: nat)
    requires Good(lay, w, u) && Enabled(lay, w, u, Finish(id, a))
    ensures Complete(lay, Moved(lay, w, u, Finish(id, a)))
  {
    hide Linked, Owned, Fits, Pages, Tails, Carving, Complete, NoDup, Chain, IsUnit, PageOf, IsMultiple,
         Iceil, Ascending;
    var w', u' := Do(lay, w, Finish(id, a)), Moved(lay, w, u, Finish(id, a));
    var f := Fresh(id, a);
    var c := w.carving[f];
    NextFits(lay, w, u, f);
    CarveHead(lay, w, u, f);
    AscendingSnoc(lay, c.page, a, u.List(f), c.p);
    OwnedHere(u, f);
    hide Unit, More;
    CompleteMore(lay, u, u'.(done := u.done));
    CompleteDone(lay, u'.(done := u.done), c.page);
    assert u' == u'.(done := u.done).(done := u.done + {c.page});
  }

  lemma CompleteDone(lay: Layout, u: Units, page: nat)
    requires Complete(lay, u) && page in u.size && AllThere(lay, u, page, u.size[page])
    ensures Complete(lay, u.(done := u.done + {page}))
  {
    hide IsUnit;
  }

  lemma CarveHead(lay: Layout, w: World, u: Units, f: Place)
    requires Good(lay, w, u) && f in w.carving
    ensures w.carving[f].first == w.Head(f)
    ensures Ascending(lay, w.carving[f].page, f.arena, u.List(f), w.carving[f].p)
  {
  }

  lemma ChainNone(mem: map<nat, nat>)
    ensures Chain(mem, 0, [], 0)
  {
  }

  lemma NoDupNone()
    ensures NoDup([])
  {
  }

  lemma NoDupPush(s: seq<nat>, x: nat)
    requires NoDup(s) && x !in s
    ensures NoDup([x] + s)
  {
  }

  lemma NoDupJoin(s: seq<nat>, t: seq<nat>)
    requires NoDup(s) && NoDup(t) && forall x :: x in s ==> x !in t
    ensures NoDup(s + t)
  {
    var r := s + t;
    forall i, j | 0 <= i < j < |r|
      ensures r[i] != r[j]
    {
      if i < |s| <= j {
        assert r[i] in s && r[j] in t;
      }
    }
  }

  lemma Positive(lay: Layout, u: Units, x: nat)
    requires lay.Valid() && Fits(lay, u) && x in u.where
    ensures x >= lay.start && x != 0
  {
  }

  lemma GroupCpu(lay: Layout, u: Units, g: Place)
    requires lay.Valid() && Fits(lay, u) && Owned(u) && g.Group?
    ensures forall x :: x in u.where && u.where[x] == g ==> x >= lay.start && g.cpu == lay.CpuOf(x)
  {
    hide PageOf, IsUnit;
    forall x | x in u.where && u.where[x] == g
      ensures x >= lay.start && g.cpu == lay.CpuOf(x)
    {
      assert UnitFits(lay, u, x, g);
    }
  }

  lemma TailIs(w: World, u: Units, g: Place)
    requires Tails(w, u) && g.Group?
    ensures w.Tail(g) == if u.List(g) == [] then 0 else u.List(g)[|u.List(g)| - 1]
  {
  }

  lemma TailsButOne(w: World, u: Units, w': World, u': Units, g: Place)
    requires Tails(w, u)
    requires forall p: Place :: p.Group? && p != g ==> w'.Tail(p) == w.Tail(p) && u'.List(p) == u.List(p)
    requires w'.Tail(g) == if u'.List(g) == [] then 0 else u'.List(g)[|u'.List(g)| - 1]
    ensures Tails(w', u')
  {
  }

  /** A list not being carved is null-terminated, without repetition, and its own. */
  lemma PlaceIsChained(lay: Layout, w: World, u: Units, p: Place)
    requires Good(lay, w, u) && !p.Fresh?
    ensures Chain(w.mem, w.Head(p), u.List(p), 0) && w.Stop(p) == 0
    ensures NoDup(u.List(p)) && (p.Live? ==> u.List(p) == [])
    ensures forall x :: x in u.List(p) ==> x in u.where && u.where[x] == p
    ensures !p.Live? ==> forall x :: x in u.where && u.where[x] == p ==> x in u.List(p)
  {
    assert Chain(w.mem, w.Head(p), u.List(p), w.Stop(p));
  }

  // ---- Runs ----

  datatype State = State(w: World, u: Units)

  ghost function After(lay: Layout, s: State, act: Action): State
    requires lay.page > 0 && lay.maxPerCore > 0
  {
    State(Do(lay, s.w, act), Moved(lay, s.w, s.u, act))
  }

  /** The state after actions of any callers in any order. */
  ghost function Run(lay: Layout, s: State, acts: seq<Action>): State
    requires lay.page > 0 && lay.maxPerCore > 0
  {
    if acts == [] then s else After(lay, Run(lay, s, acts[..|acts| - 1]), acts[|acts| - 1])
  }

  /** Every action could be taken when it was. */
  ghost predicate Legal(lay: Layout, s: State, acts: seq<Action>)
    requires lay.page > 0 && lay.maxPerCore > 0
  {
    acts == [] ||
    var before := Run(lay, s, acts[..|acts| - 1]);
    Legal(lay, s, acts[..|acts| - 1]) && lay.Valid() && |before.w.begin| == lay.ncpus &&
    Enabled(lay, before.w, before.u, acts[|acts| - 1])
  }

  lemma StepKeeps(lay: Layout, w: World, u: Units, act: Action)
    requires Good(lay, w, u) && Enabled(lay, w, u, act)
    ensures Good(lay, Do(lay, w, act), Moved(lay, w, u, act))
  {
    hide Good, Enabled, Do, Moved;
    match act
    case Claim(id, cpu, a) => ClaimKeeps(lay, w, u, id, cpu, a);
    case TakePage(id, cpu, a) => TakePageKeeps(lay, w, u, id, cpu, a);
    case TakeRaw(cpu, n) => TakeRawKeeps(lay, w, u, cpu, n);
    case Link(id, a) => LinkKeeps(lay, w, u, id, a);
    case Finish(id, a) => FinishKeeps(lay, w, u, id, a);
    case Alloc(id, a) => AllocKeeps(lay, w, u, id, a);
    case Dealloc(id, a, x) => DeallocKeeps(lay, w, u, id, a, x);
    case Scribble(x, v) => ScribbleKeeps(lay, w, u, x, v);
    case Gather(id, a) => GatherKeeps(lay, w, u, id, a);
    case Splice(id, cpu, a) => SpliceKeeps(lay, w, u, id, cpu, a);
  }

  lemma NoneLost(lay: Layout, w: World, u: Units, act: Action)
    requires lay.page > 0 && lay.maxPerCore > 0
    ensures forall x :: x in u.where ==> x in Moved(lay, w, u, act).where
  {
  }

  /** Whatever the interleaving, the lists stay sound and no carved unit is lost. */
  lemma {:induction false} RunKeeps(lay: Layout, s: State, acts: seq<Action>)
    requires Good(lay, s.w, s.u) && Legal(lay, s, acts)
    ensures Good(lay, Run(lay, s, acts).w, Run(lay, s, acts).u)
    ensures forall x :: x in s.u.where ==> x in Run(lay, s, acts).u.where
  {
    hide Good, Enabled, Do, Moved;
    if acts != [] {
      var before := Run(lay, s, acts[..|acts| - 1]);
      RunKeeps(lay, s, acts[..|acts| - 1]);
      StepKeeps(lay, before.w, before.u, acts[|acts| - 1]);
      NoneLost(lay, before.w, before.u, acts[|acts| - 1]);
    }
  }

  ghost function Initial(lay: Layout): State {
    State(World(map[], map[], map[], map[], seq(lay.ncpus, cpu requires 0 <= cpu => lay.Begin(cpu))),
          Units(map[], map[], map[], {}))
  }

  lemma InitialIsGood(lay: Layout)
    requires lay.Valid()
    ensures Good(lay, Initial(lay).w, Initial(lay).u)
  {
    hide IsMultiple, Ascending, IsUnit, PageOf, Layout.CpuOf;
    forall cpu | 0 <= cpu < lay.ncpus
      ensures IsMultiple(Initial(lay).w.begin[cpu], lay.page) && lay.Begin(cpu) <= lay.Begin(cpu + 1)
    {
      BeginIsPage(lay, cpu);
      MulMono(cpu, cpu + 1, lay.maxPerCore);
    }
  }

  /** Where a unit is: in use by the program and in no list, or in exactly one list, at
      exactly one position, of its own size class and, in a region's list, its own region. */
  lemma ExactlyOnce(lay: Layout, w: World, u: Units, page: nat, x: nat)
    requires Good(lay, w, u) && page in u.done && IsUnit(lay, page, u.size[page], x)
    ensures x in u.where
    ensures u.where[x].Live? ==> forall p :: x !in u.List(p)
    ensures !u.where[x].Live? ==>
              (forall p :: x in u.List(p) <==> p == u.where[x]) &&
              (forall i, j :: 0 <= i < j < |u.List(u.where[x])| && u.List(u.where[x])[i] == x ==>
                  u.List(u.where[x])[j] != x)
    ensures u.where[x].arena == u.size[page]
    ensures x >= lay.start && (u.where[x].Arena? || u.where[x].Group? ==> u.where[x].cpu == lay.CpuOf(x))
  {
    assert PageOf(x, lay.page) == page by {
      PageIs(x, page, lay.page);
    }
    hide PageOf, Linked, Pages, Tails, Carving;
    assert AllThere(lay, u, page, u.size[page]);
    assert UnitFits(lay, u, x, u.where[x]);
    hide IsUnit, AllThere, Fits;
    if u.where[x].Live? {
      forall p
        ensures x !in u.List(p)
      {
        OwnedHere(u, p);
      }
    }
  }

  /** After any run from start-up, every unit of every carved page is either in use by the
      program or in exactly one list. */
  lemma UnitIsInOnePlace(lay: Layout, acts: seq<Action>, page: nat, x: nat)
    requires lay.Valid() && Legal(lay, Initial(lay), acts)
    requires var u := Run(lay, Initial(lay), acts).u;
             page in u.done && page in u.size && IsUnit(lay, page, u.size[page], x)
    ensures var u := Run(lay, Initial(lay), acts).u;
            x in u.where && u.where[x].arena == u.size[page] &&
            if u.where[x].Live? then forall p :: x !in u.List(p) else forall p :: x in u.List(p) <==> p == u.where[x]
  {
    hide Good, Initial, Run, Legal, IsUnit;
    InitialIsGood(lay);
    RunKeeps(lay, Initial(lay), acts);
    var s := Run(lay, Initial(lay), acts);
    ExactlyOnce(lay, s.w, s.u, page, x);
  }

  function Follow(mem: map<nat, nat>, head: nat, n: nat): nat
    decreases n
  {
    if n == 0 then head else if head in mem then Follow(mem, mem[head], n - 1) else 0
  }

  /** A list's walk visits its units and then meets the null pointer: no cycle. */
  lemma {:induction false} WalkEnds(mem: map<nat, nat>, head: nat, s: seq<nat>)
    requires Chain(mem, head, s, 0)
    ensures Follow(mem, head, |s|) == 0
    ensures forall i :: 0 <= i < |s| ==> Follow(mem, head, i) == s[i] != 0
    decreases |s|
  {
    if s != [] {
      WalkEnds(mem, mem[head], s[1..]);
      forall i | 0 <= i < |s|
        ensures Follow(mem, head, i) == s[i] != 0
      {
        if i > 0 {
          assert Follow(mem, head, i) == Follow(mem, mem[head], i - 1);
        }
      }
    }
  }

  /** After any run from start-up, each list of a region, caller or release walks through
      its units to the null pointer. */
  lemma EveryListEnds(lay: Layout, acts: seq<Action>, p: Place)
    requires lay.Valid() && Legal(lay, Initial(lay), acts) && !p.Fresh?
    ensures var s := Run(lay, Initial(lay), acts);
            Follow(s.w.mem, s.w.Head(p), |s.u.List(p)|) == 0 &&
            forall i :: 0 <= i < |s.u.List(p)| ==> Follow(s.w.mem, s.w.Head(p), i) == s.u.List(p)[i] != 0
  {
    InitialIsGood(lay);
    RunKeeps(lay, Initial(lay), acts);
    var s := Run(lay, Initial(lay), acts);
    PlaceIsChained(lay, s.w, s.u, p);
    WalkEnds(s.w.mem, s.w.Head(p), s.u.List(p));
  }

  lemma UnitCpu(lay: Layout, w: World, u: Units, x: nat)
    requires Good(lay, w, u) && x in u.where
    ensures x >= lay.start && lay.CpuOf(x) < lay.ncpus
  {
    hide Linked, Owned, Tails, Carving, Complete, PageOf, IsMultiple;
    assert UnitFits(lay, u, x, u.where[x]);
    var page := PageOf(x, lay.page);
    var cpu := lay.CpuOf(page);
    Quotient(page - lay.start, lay.maxPerCore);
    CpuIs(lay, x, cpu);
  }

  // ---- The allocator ----

  /** What one release sends to a region: its units of a list, last first. */
  ghost function Sent(lay: Layout, s: seq<nat>, cpu: nat): seq<nat>
    requires lay.maxPerCore > 0
  {
    if s == [] then []
    else Sent(lay, s[1..], cpu) + if s[0] >= lay.start && lay.CpuOf(s[0]) == cpu then [s[0]] else []
  }

  class Allocator {
    const lay: Layout
    var mem: map<nat, nat>
    var heads: map<Place, nat>
    var tails: map<Place, nat>
    var carving: map<Place, Carve>
    var begin: seq<nat>
    ghost var u: Units

    ghost function W(): World
      reads this
    {
      World(mem, heads, tails, carving, begin)
    }

    ghost function S(): State
      reads this
    {
      State(W(), u)
    }

    ghost predicate Valid()
      reads this
    {
      lay.Valid() && |begin| == lay.ncpus && Good(lay, W(), u)
    }

    /** `Initialize`: every region starts whole. */
    constructor (lay: Layout)
      requires lay.Valid()
      ensures Valid() && this.lay == lay && S() == Initial(lay)
    {
      this.lay := lay;
      mem, heads, tails, carving := map[], map[], map[], map[];
      begin := seq(lay.ncpus, cpu requires 0 <= cpu => lay.Begin(cpu));
      u := Initial(lay).u;
      new;
      InitialIsGood(lay);
    }

    function Head(p: Place): (h: nat)
      reads this
      ensures h == W().Head(p)
    {
      if p in heads then heads[p] else 0
    }

    function Tail(p: Place): (t: nat)
      reads this
      ensures t == W().Tail(p)
    {
      if p in tails then tails[p] else 0
    }

    /** One iteration of the loop of `initialize_page`. */
    method LinkUnit(id: nat, a: nat)
      requires Valid() && Enabled(lay, W(), u, Link(id, a))
      modifies this
      ensures Valid() && S() == After(lay, old(S()), Link(id, a))
    {
      hide Good;
      LinkKeeps(lay, W(), u, id, a);
      u := Moved(lay, W(), u, Link(id, a));
      var c := carving[Fresh(id, a)];
      var next := c.p + Unit(a);
      mem := mem[c.p := next];
      carving := carving[Fresh(id, a) := c.(p := next)];
    }

    /** The last unit of `initialize_page`, whose list becomes the caller's. */
    method LinkLast(id: nat, a: nat)
      requires Valid() && Enabled(lay, W(), u, Finish(id, a))
      modifies this
      ensures Valid() && S() == After(lay, old(S()), Finish(id, a))
    {
      hide Good;
      FinishKeeps(lay, W(), u, id, a);
      u := Moved(lay, W(), u, Finish(id, a));
      var c := carving[Fresh(id, a)];
      mem := mem[c.p := 0];
      carving := carving - {Fresh(id, a)};
      heads := heads[Held(id, a) := c.first][Fresh(id, a) := 0];
    }

    method ClaimList(id: nat, cpu: nat, a: nat)
      requires Valid() && Enabled(lay, W(), u, Claim(id, cpu, a))
      modifies this
      ensures Valid() && S() == After(lay, old(S()), Claim(id, cpu, a))
    {
      hide Good;
      ClaimKeeps(lay, W(), u, id, cpu, a);
      u := Moved(lay, W(), u, Claim(id, cpu, a));
      var ret := Head(Arena(cpu, a));
      heads := heads[Held(id, a) := ret][Arena(cpu, a) := 0];
    }

    /** `AllocateUnmanagedWithLock` for one page, and the start of `initialize_page`. */
    method TakeHugePage(id: nat, cpu: nat, a: nat)
      requires Valid() && Enabled(lay, W(), u, TakePage(id, cpu, a))
      modifies this
      ensures Valid() && S() == After(lay, old(S()), TakePage(id, cpu, a))
    {
      hide Good;
      TakePageKeeps(lay, W(), u, id, cpu, a);
      u := Moved(lay, W(), u, TakePage(id, cpu, a));
      var mypx := begin[cpu];
      begin := begin[cpu := mypx + lay.page];
      var first := Iceil(mypx, Unit(a));
      heads := heads[Fresh(id, a) := first];
      carving := carving[Fresh(id, a) := Carve(mypx, first, first)];
    }

    /** `AllocateUnmanaged`: false is the source's abort. */
    method AllocateUnmanaged(cpu: nat, pages: nat) returns (page: nat, ok: bool)
      requires Valid() && cpu < lay.ncpus
      modifies this
      ensures Valid() && page == old(begin[cpu])
      ensures ok == (old(begin[cpu]) + pages * lay.page <= lay.Begin(cpu + 1))
      ensures S() == if ok then After(lay, old(S()), TakeRaw(cpu, pages)) else old(S())
    {
      hide Good;
      page := begin[cpu];
      var newpx := page + pages * lay.page;
      ok := newpx <= lay.Begin(cpu + 1);
      if ok {
        TakeRawKeeps(lay, W(), u, cpu, pages);
        begin := begin[cpu := newpx];
      }
    }

    /** Takes one unit for the program from the caller's list. */
    method Pop(id: nat, a: nat) returns (p: nat)
      requires Valid() && Enabled(lay, W(), u, Action.Alloc(id, a))
      modifies this
      ensures Valid() && S() == After(lay, old(S()), Action.Alloc(id, a))
      ensures old(u.List(Held(id, a))) != [] && p == old(u.List(Held(id, a))[0])
    {
      hide Good, Moved;
      HeadInRegion(lay, W(), u, Held(id, a));
      AllocKeeps(lay, W(), u, id, a);
      u := Moved(lay, W(), u, Action.Alloc(id, a));
      p := Head(Held(id, a));
      heads := heads[Held(id, a) := Next(World(mem, heads, tails, carving, begin), p)];
    }

    /** Gives a unit in use back to any caller's list. */
    method Push(id: nat, a: nat, p: nat)
      requires Valid() && Enabled(lay, W(), u, Dealloc(id, a, p))
      modifies this
      ensures Valid() && S() == After(lay, old(S()), Dealloc(id, a, p))
    {
      hide Good;
      DeallocKeeps(lay, W(), u, id, a, p);
      u := Moved(lay, W(), u, Dealloc(id, a, p));
      mem := mem[p := Head(Held(id, a))];
      heads := heads[Held(id, a) := p];
    }

    /** One unit of the first loop of `ReleaseArenas`. */
    method GatherUnit(id: nat, a: nat)
      requires Valid() && Enabled(lay, W(), u, Gather(id, a))
      modifies this
      ensures Valid() && S() == After(lay, old(S()), Gather(id, a))
    {
      hide Good, Moved, Layout.CpuOf;
      HeadInRegion(lay, W(), u, Held(id, a));
      GatherKeeps(lay, W(), u, id, a);
      u := Moved(lay, W(), u, Gather(id, a));
      var p := Head(Held(id, a));
      var pnext := Next(World(mem, heads, tails, carving, begin), p);
      var g := Group(id, lay.CpuOf(p), a);
      if Tail(g) == 0 {
        mem := mem[p := 0];
        tails := tails[g := p];
      } else {
        mem := mem[p := Head(g)];
      }
      heads := heads[Held(id, a) := pnext][g := p];
    }

    /** One size class of the second loop of `ReleaseArenas`, under the region's lock. */
    method SpliceGroup(id: nat, cpu: nat, a: nat)
      requires Valid() && Enabled(lay, W(), u, Splice(id, cpu, a))
      modifies this
      ensures Valid() && S() == After(lay, old(S()), Splice(id, cpu, a))
    {
      hide Good;
      SpliceKeeps(lay, W(), u, id, cpu, a);
      u := Moved(lay, W(), u, Splice(id, cpu, a));
      var g := Group(id, cpu, a);
      mem := mem[Tail(g) := Head(Arena(cpu, a))];
      heads := heads[Arena(cpu, a) := Head(g)][g := 0];
      tails := tails[g := 0];
    }

    /** `initialize_page`: the page's units, all of them, in order, become one list; one
        link is written for each, and nothing else is done. */
    method InitializePage(id: nat, a: nat, ghost before: seq<Action>, ghost start: State)
      returns (ghost trace: seq<Action>)
      requires Valid() && Fresh(id, a) in carving && u.List(Fresh(id, a)) == [] && W().Head(Held(id, a)) == 0
      requires Ran(lay, start, before, S())
      modifies this
      ensures Valid() && Ran(lay, start, trace, S())
      ensures AllUnits(lay, old(carving[Fresh(id, a)].page), a, u.List(Held(id, a)))
      ensures trace == before + Links(id, a, u.List(Held(id, a)))
      ensures u.List(Fresh(id, a)) == [] && begin == old(begin) && carving == old(carving) - {Fresh(id, a)}
      ensures forall p :: p != Held(id, a) && p != Fresh(id, a) ==> u.List(p) == old(u.List(p))
    {
      hide Good, Do, Ran, AllUnits, Ascending;
      trace := before;
      ghost var page := carving[Fresh(id, a)].page;
      ghost var n := 0;
      assert before + Repeat(Link(id, a), 0) == before;
      while More(lay, carving[Fresh(id, a)], a)
        invariant Valid() && Fresh(id, a) in carving && W().Head(Held(id, a)) == 0
        invariant Ran(lay, start, trace, S())
        invariant carving[Fresh(id, a)].page == page
        invariant n == |u.List(Fresh(id, a))| && trace == before + Repeat(Link(id, a), n)
        invariant begin == old(begin) && carving - {Fresh(id, a)} == old(carving) - {Fresh(id, a)}
        invariant forall p :: p != Fresh(id, a) ==> u.List(p) == old(u.List(p))
        decreases page + lay.page - carving[Fresh(id, a)].p
      {
        RanMore(lay, start, trace, S(), Link(id, a));
        LinkFacts(lay, W(), id, a);
        LinkUnit(id, a);
        assert before + Repeat(Link(id, a), n) + [Link(id, a)] == before + Repeat(Link(id, a), n + 1);
        trace := trace + [Link(id, a)];
        n := n + 1;
      }
      LastUnit(lay, W(), u, id, a);
      RanMore(lay, start, trace, S(), Finish(id, a));
      FinishFacts(lay, W(), id, a);
      LinkLast(id, a);
      SeqAssoc(before, Repeat(Link(id, a), n), [Finish(id, a)]);
      trace := trace + [Finish(id, a)];
    }

    /** `AllocateArenas`: the region's list when it has one, else all units of its next
        page; false is the source's abort when the region is used up. The trace fixes
        what is done: a claim alone, or one page taken and carved. */
    method AllocateArenas(id: nat, cpu: nat, a: nat) returns (ok: bool, ghost trace: seq<Action>)
      requires Valid() && cpu < lay.ncpus && a < MAX_ARENAS
      requires Fresh(id, a) !in carving && W().Head(Held(id, a)) == 0
      modifies this
      ensures Valid() && Ran(lay, old(S()), trace, S())
      ensures ok == (old(u.List(Arena(cpu, a))) != [] || old(begin[cpu]) + lay.page <= lay.Begin(cpu + 1))
      ensures !ok ==> S() == old(S()) && trace == []
      ensures ok ==> u.List(Held(id, a)) != [] && u.List(Arena(cpu, a)) == [] && carving == old(carving)
      ensures ok && old(u.List(Arena(cpu, a))) != [] ==>
                u.List(Held(id, a)) == old(u.List(Arena(cpu, a))) && begin == old(begin) && trace == [Claim(id, cpu, a)]
      ensures ok && old(u.List(Arena(cpu, a))) == [] ==>
                AllUnits(lay, old(begin[cpu]), a, u.List(Held(id, a))) &&
                begin == old(begin)[cpu := old(begin[cpu]) + lay.page] &&
                trace == [TakePage(id, cpu, a)] + Links(id, a, u.List(Held(id, a)))
      ensures forall p :: p != Held(id, a) && p != Arena(cpu, a) ==> u.List(p) == old(u.List(p))
    {
      hide Good, Do, Ran, AllUnits, Links;
      HeadIsNull(lay, W(), u, Arena(cpu, a));
      trace := [];
      RanNone(lay, S());
      ok := true;
      if Head(Arena(cpu, a)) != 0 {
        RanMore(lay, S(), trace, S(), Claim(id, cpu, a));
        KeepsCursors(lay, W(), Claim(id, cpu, a));
        ClaimList(id, cpu, a);
        trace := trace + [Claim(id, cpu, a)];
      } else if begin[cpu] + lay.page > lay.Begin(cpu + 1) {
        ok := false;
      } else {
        ghost var start := S();
        FreshIsEmpty(lay, W(), u, Fresh(id, a));
        RanMore(lay, S(), trace, S(), TakePage(id, cpu, a));
        TakePageFacts(lay, W(), id, cpu, a);
        TakeHugePage(id, cpu, a);
        assert u.List(Fresh(id, a)) == [];
        trace := trace + [TakePage(id, cpu, a)];
        trace := InitializePage(id, a, trace, start);
        AllUnitsSome(lay, old(begin[cpu]), a, u.List(Held(id, a)));
      }
    }

    /** The first loop of `ReleaseArenas` for one size class: the caller's list is sorted
        by the region owning each address. */
    method GatherClass(id: nat, a: nat, ghost before: seq<Action>, ghost start: State)
      returns (ghost trace: seq<Action>)
      requires Valid() && Ran(lay, start, before, S())
      requires Releasing(before, id) && forall cpu :: u.List(Group(id, cpu, a)) == []
      modifies this
      ensures Valid() && Ran(lay, start, trace, S())
      ensures Releasing(trace, id) && begin == old(begin) && carving == old(carving)
      ensures u.List(Held(id, a)) == []
      ensures forall cpu :: u.List(Group(id, cpu, a)) == Sent(lay, old(u.List(Held(id, a))), cpu)
      ensures forall p :: p != Held(id, a) && !(p.Group? && p.id == id && p.arena == a) ==> u.List(p) == old(u.List(p))
    {
      hide Good, Do, Ran, Moved, Sent;
      trace := before;
      HeadIsNull(lay, W(), u, Held(id, a));
      while Head(Held(id, a)) != 0
        invariant Valid() && Ran(lay, start, trace, S())
        invariant Releasing(trace, id) && begin == old(begin) && carving == old(carving)
        invariant Head(Held(id, a)) != 0 <==> u.List(Held(id, a)) != []
        invariant forall cpu ::
            Sent(lay, u.List(Held(id, a)), cpu) + u.List(Group(id, cpu, a)) == Sent(lay, old(u.List(Held(id, a))), cpu)
        invariant forall p :: p != Held(id, a) && !(p.Group? && p.id == id && p.arena == a) ==>
                  u.List(p) == old(u.List(p))
        decreases |u.List(Held(id, a))|
      {
        HeadInRegion(lay, W(), u, Held(id, a));
        RanMore(lay, start, trace, S(), Gather(id, a));
        GatherMoves(lay, W(), u, id, a);
        KeepsCursors(lay, W(), Gather(id, a));
        GatherUnit(id, a);
        HeadIsNull(lay, W(), u, Held(id, a));
        trace := trace + [Gather(id, a)];
      }
      SentNone(lay);
    }

    /** The second loop of `ReleaseArenas` for one region. */
    method SpliceRegion(id: nat, cpu: nat, ghost before: seq<Action>, ghost start: State)
      returns (ghost trace: seq<Action>)
      requires Valid() && Ran(lay, start, before, S()) && Releasing(before, id)
      modifies this
      ensures Valid() && Ran(lay, start, trace, S())
      ensures Releasing(trace, id) && begin == old(begin) && carving == old(carving)
      ensures forall a :: 0 <= a < MAX_ARENAS ==>
                u.List(Group(id, cpu, a)) == [] &&
                u.List(Arena(cpu, a)) == old(u.List(Group(id, cpu, a))) + old(u.List(Arena(cpu, a)))
      ensures forall p :: !Spliced(p, id, cpu, MAX_ARENAS) ==> u.List(p) == old(u.List(p))
    {
      hide Good, Do, Ran, Moved;
      trace := before;
      for a := 0 to MAX_ARENAS
        invariant Valid() && Ran(lay, start, trace, S())
        invariant Releasing(trace, id) && begin == old(begin) && carving == old(carving)
        invariant forall b :: 0 <= b < a ==>
                    u.List(Group(id, cpu, b)) == [] &&
                    u.List(Arena(cpu, b)) == old(u.List(Group(id, cpu, b))) + old(u.List(Arena(cpu, b)))
        invariant forall p :: !Spliced(p, id, cpu, a) ==> u.List(p) == old(u.List(p))
      {
        HeadIsNull(lay, W(), u, Group(id, cpu, a));
        if Head(Group(id, cpu, a)) != 0 {
          RanMore(lay, start, trace, S(), Splice(id, cpu, a));
          SpliceMoves(lay, W(), u, id, cpu, a);
          KeepsCursors(lay, W(), Splice(id, cpu, a));
          SpliceGroup(id, cpu, a);
          trace := trace + [Splice(id, cpu, a)];
        }
      }
    }

    /** `ReleaseArenas`: every unit of the caller's lists goes to the region owning its
        address and to its own size class; nothing else moves. */
    method ReleaseArenas(id: nat) returns (ghost trace: seq<Action>)
      requires Valid() && forall p: Place :: p.Group? && p.id == id ==> u.List(p) == []
      modifies this
      ensures Valid() && Ran(lay, old(S()), trace, S())
      ensures Releasing(trace, id) && begin == old(begin) && carving == old(carving)
      ensures forall a :: 0 <= a < MAX_ARENAS ==> u.List(Held(id, a)) == []
      ensures forall p: Place :: p.Group? && p.id == id ==> u.List(p) == []
      ensures forall cpu, a :: 0 <= cpu < lay.ncpus && 0 <= a < MAX_ARENAS ==>
                u.List(Arena(cpu, a)) == Sent(lay, old(u.List(Held(id, a))), cpu) + old(u.List(Arena(cpu, a)))
      ensures forall p: Place :: !p.Arena? && !((p.Held? || p.Group?) && p.id == id) ==> u.List(p) == old(u.List(p))
    {
      hide Good, Do, Ran, Moved, Sent;
      ghost var start := S();
      trace := [];
      RanNone(lay, S());
      trace := GatherAll(id, trace, start);
      trace := SpliceAll(id, trace, start);
      NoOtherRegion(lay, W(), u);
    }

    /** The first loop of `ReleaseArenas`. */
    method GatherAll(id: nat, ghost before: seq<Action>, ghost start: State) returns (ghost trace: seq<Action>)
      requires Valid() && Ran(lay, start, before, S()) && Releasing(before, id)
      requires forall p: Place :: p.Group? && p.id == id ==> u.List(p) == []
      modifies this
      ensures Valid() && Ran(lay, start, trace, S())
      ensures Releasing(trace, id) && begin == old(begin) && carving == old(carving)
      ensures forall a :: 0 <= a < MAX_ARENAS ==> u.List(Held(id, a)) == []
      ensures forall cpu, a :: 0 <= a < MAX_ARENAS ==>
                u.List(Group(id, cpu, a)) == Sent(lay, old(u.List(Held(id, a))), cpu)
      ensures forall p: Place :: !((p.Held? || p.Group?) && p.id == id) ==> u.List(p) == old(u.List(p))
    {
      hide Good, Do, Ran, Moved, Sent;
      trace := before;
      for a := 0 to MAX_ARENAS
        invariant Valid() && Ran(lay, start, trace, S())
        invariant Releasing(trace, id) && begin == old(begin) && carving == old(carving)
        invariant Gathered(lay, old(u), u, id, a)
      {
        ghost var v := u;
        trace := GatherClass(id, a, trace, start);
        GatheredMore(lay, old(u), v, u, id, a);
      }
    }

    /** The second loop of `ReleaseArenas`. */
    method SpliceAll(id: nat, ghost before: seq<Action>, ghost start: State) returns (ghost trace: seq<Action>)
      requires Valid() && Ran(lay, start, before, S()) && Releasing(before, id)
      modifies this
      ensures Valid() && Ran(lay, start, trace, S())
      ensures Releasing(trace, id) && begin == old(begin) && carving == old(carving)
      ensures forall cpu, a :: 0 <= cpu < lay.ncpus && 0 <= a < MAX_ARENAS ==>
                u.List(Group(id, cpu, a)) == [] &&
                u.List(Arena(cpu, a)) == old(u.List(Group(id, cpu, a))) + old(u.List(Arena(cpu, a)))
      ensures forall p: Place :: !p.Arena? && !(p.Group? && p.id == id && p.cpu < lay.ncpus && p.arena < MAX_ARENAS) ==>
                u.List(p) == old(u.List(p))
    {
      hide Good, Do, Ran, Moved;
      trace := before;
      for cpu := 0 to lay.ncpus
        invariant Valid() && Ran(lay, start, trace, S())
        invariant Releasing(trace, id) && begin == old(begin) && carving == old(carving)
        invariant SplicedBelow(old(u), u, id, cpu)
      {
        ghost var v := u;
        trace := SpliceRegion(id, cpu, trace, start);
        SplicedMore(old(u), v, u, id, cpu);
      }
    }
  }

  /** Classes below a have been sorted by region, the others not. */
  ghost predicate Gathered(lay: Layout, u0: Units, u: Units, id: nat, a: nat)
    requires lay.maxPerCore > 0
  {
    (forall b: nat :: u.List(Held(id, b)) == if b < a then [] else u0.List(Held(id, b))) &&
    (forall cpu: nat, b: nat :: u.List(Group(id, cpu, b)) ==
        if b < a then Sent(lay, u0.List(Held(id, b)), cpu) else []) &&
    (forall p: Place :: !((p.Held? || p.Group?) && p.id == id) ==> u.List(p) == u0.List(p))
  }

  lemma GatheredMore(lay: Layout, u0: Units, v: Units, u: Units, id: nat, a: nat)
    requires lay.maxPerCore > 0 && Gathered(lay, u0, v, id, a) && u.List(Held(id, a)) == []
    requires forall cpu :: u.List(Group(id, cpu, a)) == Sent(lay, v.List(Held(id, a)), cpu)
    requires forall p :: p != Held(id, a) && !(p.Group? && p.id == id && p.arena == a) ==> u.List(p) == v.List(p)
    ensures Gathered(lay, u0, u, id, a + 1)
  {
    hide Sent;
  }

  /** The places a release touches in one region, below a size class. */
  predicate Spliced(p: Place, id: nat, cpu: nat, a: nat) {
    p.arena < a && (p == Group(id, cpu, p.arena) || p == Arena(cpu, p.arena))
  }

  /** The groups of regions below cpu have been spliced, nothing else has moved. */
  ghost predicate SplicedBelow(u0: Units, u: Units, id: nat, cpu: nat) {
    (forall c: nat, a: nat :: c < cpu && a < MAX_ARENAS ==>
      u.List(Group(id, c, a)) == [] && u.List(Arena(c, a)) == u0.List(Group(id, c, a)) + u0.List(Arena(c, a))) &&
    (forall p: Place :: !((p.Group? || p.Arena?) && Spliced(p, id, p.cpu, MAX_ARENAS) && p.cpu < cpu) ==>
      u.List(p) == u0.List(p))
  }

  lemma SplicedMore(u0: Units, v: Units, u: Units, id: nat, cpu: nat)
    requires SplicedBelow(u0, v, id, cpu)
    requires forall a :: 0 <= a < MAX_ARENAS ==>
               u.List(Group(id, cpu, a)) == [] &&
               u.List(Arena(cpu, a)) == v.List(Group(id, cpu, a)) + v.List(Arena(cpu, a))
    requires forall p :: !Spliced(p, id, cpu, MAX_ARENAS) ==> u.List(p) == v.List(p)
    ensures SplicedBelow(u0, u, id, cpu + 1)
  {
  }

  lemma SentNone(lay: Layout)
    requires lay.maxPerCore > 0
    ensures forall cpu :: Sent(lay, [], cpu) == []
  {
  }

  /** What gathering one unit does to the lists. */
  lemma GatherMoves(lay: Layout, w: World, u: Units, id: nat, a: nat)
    requires lay.page > 0 && lay.maxPerCore > 0 && u.List(Held(id, a)) != [] && u.List(Held(id, a))[0] >= lay.start
    ensures var s, v := u.List(Held(id, a)), Moved(lay, w, u, Gather(id, a));
            v.List(Held(id, a)) == s[1..] &&
            (forall cpu :: Sent(lay, s[1..], cpu) + v.List(Group(id, cpu, a)) ==
                Sent(lay, s, cpu) + u.List(Group(id, cpu, a))) &&
            (forall p :: p != Held(id, a) && !(p.Group? && p.id == id && p.arena == a) ==> v.List(p) == u.List(p))
  {
    hide Layout.CpuOf, Sent;
    var s, v := u.List(Held(id, a)), Moved(lay, w, u, Gather(id, a));
    forall cpu: nat
      ensures Sent(lay, s[1..], cpu) + v.List(Group(id, cpu, a)) == Sent(lay, s, cpu) + u.List(Group(id, cpu, a))
    {
      SentStep(lay, s, cpu);
      var x := if lay.CpuOf(s[0]) == cpu then [s[0]] else [];
      assert v.List(Group(id, cpu, a)) == x + u.List(Group(id, cpu, a));
      SeqAssoc(Sent(lay, s[1..], cpu), x, u.List(Group(id, cpu, a)));
    }
  }

  lemma SentStep(lay: Layout, s: seq<nat>, cpu: nat)
    requires lay.maxPerCore > 0 && s != [] && s[0] >= lay.start
    ensures Sent(lay, s, cpu) == Sent(lay, s[1..], cpu) + if lay.CpuOf(s[0]) == cpu then [s[0]] else []
  {
  }

  lemma SpliceMoves(lay: Layout, w: World, u: Units, id: nat, cpu: nat, a: nat)
    requires lay.page > 0 && lay.maxPerCore > 0
    ensures var v := Moved(lay, w, u, Splice(id, cpu, a));
            v.List(Group(id, cpu, a)) == [] &&
            v.List(Arena(cpu, a)) == u.List(Group(id, cpu, a)) + u.List(Arena(cpu, a)) &&
            forall p :: p != Group(id, cpu, a) && p != Arena(cpu, a) ==> v.List(p) == u.List(p)
  {
  }

  /** Units are only in the groups and classes that exist. */
  lemma NoOtherRegion(lay: Layout, w: World, u: Units)
    requires Good(lay, w, u)
    ensures forall p: Place :: p.Group? && (p.cpu >= lay.ncpus || p.arena >= MAX_ARENAS) ==> u.List(p) == []
  {
    forall p: Place | p.Group? && (p.cpu >= lay.ncpus || p.arena >= MAX_ARENAS)
      ensures u.List(p) == []
    {
      if u.List(p) != [] {
        NoUnitThere(lay, w, u, p, u.List(p)[0]);
      }
    }
  }

  lemma NoUnitThere(lay: Layout, w: World, u: Units, p: Place, x: nat)
    requires Good(lay, w, u) && p.Group? && x in u.List(p)
    ensures p.cpu < lay.ncpus && p.arena < MAX_ARENAS
  {
    UnitCpu(lay, w, u, x);
    hide Linked, Tails, Carving, Complete, PageOf, IsMultiple;
    assert u.where[x] == p;
    assert UnitFits(lay, u, x, p);
  }

  /** All units of a page, in order. */
  ghost predicate AllUnits(lay: Layout, page: nat, a: nat, s: seq<nat>) {
    s != [] && (forall i, j :: 0 <= i < j < |s| ==> s[i] < s[j]) &&
    forall x: nat :: x in s <==> IsUnit(lay, page, a, x)
  }

  lemma AllUnitsSome(lay: Layout, page: nat, a: nat, s: seq<nat>)
    requires AllUnits(lay, page, a, s)
    ensures s != []
  {
  }

  lemma LastUnit(lay: Layout, w: World, u: Units, id: nat, a: nat)
    requires Good(lay, w, u) && Enabled(lay, w, u, Finish(id, a))
    ensures AllUnits(lay, w.carving[Fresh(id, a)].page, a, u.List(Fresh(id, a)) + [w.carving[Fresh(id, a)].p])
  {
    hide Good, IsUnit, Ascending, AllUnits, Unit;
    var f := Fresh(id, a);
    var s, c := u.List(f), w.carving[f];
    NextFits(lay, w, u, f);
    CarveHead(lay, w, u, f);
    AscendingSnoc(lay, c.page, a, s, c.p);
    AllFrom(lay, c.page, a, s + [c.p], c.p + Unit(a));
  }

  lemma AllFrom(lay: Layout, page: nat, a: nat, s: seq<nat>, p: nat)
    requires Ascending(lay, page, a, s, p) && s != [] && forall x: nat :: IsUnit(lay, page, a, x) ==> x in s
    ensures AllUnits(lay, page, a, s)
  {
    hide IsUnit;
  }

  /** S is reached from start by the actions, each of which could be taken. */
  ghost predicate Ran(lay: Layout, start: State, acts: seq<Action>, s: State)
    requires lay.Valid()
  {
    Legal(lay, start, acts) && s == Run(lay, start, acts)
  }

  lemma RanNone(lay: Layout, s: State)
    requires lay.Valid()
    ensures Ran(lay, s, [], s)
  {
  }

  lemma RanMore(lay: Layout, start: State, acts: seq<Action>, s: State, act: Action)
    requires lay.Valid() && Ran(lay, start, acts, s)
    requires |s.w.begin| == lay.ncpus && Enabled(lay, s.w, s.u, act)
    ensures Ran(lay, start, acts + [act], After(lay, s, act))
  {
    hide Enabled, Do, Moved;
    assert (acts + [act])[..|acts + [act]| - 1] == acts;
  }

  /** What carving a page does once it is taken. */
  function Links(id: nat, a: nat, s: seq<nat>): seq<Action>
    requires s != []
  {
    Repeat(Link(id, a), |s| - 1) + [Finish(id, a)]
  }

  /** Actions of one caller's release and of nobody else. */
  ghost predicate Releasing(acts: seq<Action>, id: nat) {
    forall k :: 0 <= k < |acts| ==> (acts[k].Gather? || acts[k].Splice?) && acts[k].id == id
  }

  /** Only taking pages moves a region's cursor; only carving moves a page's. */
  lemma KeepsCursors(lay: Layout, w: World, act: Action)
    requires lay.page > 0 && lay.maxPerCore > 0 && (act.Claim? || act.Gather? || act.Splice?)
    ensures Do(lay, w, act).begin == w.begin && Do(lay, w, act).carving == w.carving
  {
  }

  lemma FinishFacts(lay: Layout, w: World, id: nat, a: nat)
    requires lay.page > 0 && lay.maxPerCore > 0 && Fresh(id, a) in w.carving
    ensures var w' := Do(lay, w, Finish(id, a)); w'.begin == w.begin && w'.carving == w.carving - {Fresh(id, a)}
  {
  }

  lemma LinkFacts(lay: Layout, w: World, id: nat, a: nat)
    requires lay.page > 0 && lay.maxPerCore > 0 && Fresh(id, a) in w.carving
    ensures var f, c, w' := Fresh(id, a), w.carving[Fresh(id, a)], Do(lay, w, Link(id, a));
            f in w'.carving && w'.carving[f] == c.(p := c.p + Unit(a)) && w'.carving - {f} == w.carving - {f} &&
            w'.heads == w.heads && w'.begin == w.begin
  {
  }

  lemma TakePageFacts(lay: Layout, w: World, id: nat, cpu: nat, a: nat)
    requires lay.page > 0 && lay.maxPerCore > 0 && cpu < |w.begin| && Fresh(id, a) !in w.carving
    ensures var f, w' := Fresh(id, a), Do(lay, w, TakePage(id, cpu, a));
            f in w'.carving && w'.carving[f].page == w.begin[cpu] && w'.carving - {f} == w.carving &&
            w'.Head(Held(id, a)) == w.Head(Held(id, a)) && w'.begin == w.begin[cpu := w.begin[cpu] + lay.page]
  {
  }

  lemma HeadIsNull(lay: Layout, w: World, u: Units, p: Place)
    requires Good(lay, w, u) && !p.Fresh?
    ensures w.Head(p) == 0 <==> u.List(p) == []
  {
    PlaceIsChained(lay, w, u, p);
    ChainHead(w.mem, w.Head(p), u.List(p));
  }

  lemma FreshIsEmpty(lay: Layout, w: World, u: Units, f: Place)
    requires Good(lay, w, u) && f.Fresh? && f !in w.carving
    ensures u.List(f) == []
  {
  }

  /** A non-null list head is the first unit, in some region. */
  lemma HeadInRegion(lay: Layout, w: World, u: Units, p: Place)
    requires Good(lay, w, u) && !p.Fresh? && w.Head(p) != 0
    ensures u.List(p) != [] && u.List(p)[0] == w.Head(p)
    ensures w.Head(p) >= lay.start && lay.CpuOf(w.Head(p)) < lay.ncpus
  {
    PlaceIsChained(lay, w, u, p);
    ChainHead(w.mem, w.Head(p), u.List(p));
    assert u.List(p)[0] in u.List(p);
    UnitCpu(lay, w, u, w.Head(p));
  }
}
