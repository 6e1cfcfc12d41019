/** Allocation in the generational collector, src/lisp/gencgc.c: regions, large objects, counters and
    lazily zeroed pages (MODE_LAZY). */
module PageHeap {
  import opened PageTable
  import opened PageObjects
  import opened PageBlocks
  import NewAreas
  import opened PageGrowth

  const THRESHOLD := 8
  const CONSECUTIVE_LARGE_LIMIT := 10
  const MARKER := 0xdead0000

  /** The counters of struct generation that allocation uses. */
  datatype Generation = Generation(bytes: int, start: int, unboxedStart: int, largeStart: int, largeUnboxedStart: int)
  {
    function Start(kind: bool, large: bool): int {
      if large then if kind then largeUnboxedStart else largeStart
      else if kind then unboxedStart else start
    }

    function WithStart(kind: bool, large: bool, page: int): Generation {
      if large then if kind then this.(largeUnboxedStart := page) else this.(largeStart := page)
      else if kind then this.(unboxedStart := page) else this.(start := page)
    }
  }

  datatype Stats = Stats(consecutive: int, abandoned: int, saved: Region)

  /** What an allocation returns: an address, (void *) -1, or nothing because the heap is full. */
  datatype Allocation = At(addr: int) | NoRoom | Overflow

  // ---------- Searching for pages ----------

  predicate Suits(p: Page, kind: bool, gen: nat, large: bool) {
    if large then !p.alloc else Candidate(p, kind, gen)
  }

  /** How many free pages there are right after page i. */
  function Run(ps: seq<Page>, i: int): nat
    requires 0 <= i < |ps|
    decreases |ps| - i
  {
    if i + 1 < |ps| - 1 && !ps[i + 1].alloc then 1 + Run(ps, i + 1) else 0
  }

  /** How many words can be had from page i on. */
  function Room(ps: seq<Page>, i: int): int
    requires 0 <= i < |ps|
  {
    PAGE - ps[i].used + PAGE * Run(ps, i)
  }

  lemma {:induction false} RunUpTo(ps: seq<Page>, i: int, last: int)
    requires 0 <= i <= last < |ps| - 1
    requires forall j {:trigger ps[j]} :: i < j <= last ==> !ps[j].alloc
    requires last + 1 < |ps| - 1 ==> ps[last + 1].alloc
    ensures Run(ps, i) == last - i
    decreases last - i
  {
    if i < last {
      RunUpTo(ps, i + 1, last);
    }
  }

  lemma {:induction false} RunAtLeast(ps: seq<Page>, i: int, last: int)
    requires 0 <= i <= last < |ps| - 1
    requires forall j {:trigger ps[j]} :: i < j <= last ==> !ps[j].alloc
    ensures Run(ps, i) >= last - i
    decreases last - i
  {
    if i < last {
      RunAtLeast(ps, i + 1, last);
    }
  }

  // ---------- Counters and zeroed words ----------

  ghost predicate CountersOk(ps: seq<Page>, gens: seq<Generation>, total: int) {
    && |gens| == NUM_GENERATIONS + 1
    && (forall g {:trigger gens[g]} :: 0 <= g < |gens| ==> gens[g].bytes == Bytes(ps, g))
    && total == Bytes(ps, ALL)
  }

  /** Where the searches start. */
  predicate StartsOk(g: Generation, n: int) {
    0 <= g.start <= n && 0 <= g.unboxedStart <= n && 0 <= g.largeStart <= n && 0 <= g.largeUnboxedStart <= n
  }

  /** A word not in use is zero, unless its page is free and marked in its first word. */
  ghost predicate ZeroAt(t: Table, m: seq<int>, x: int) {
    0 <= x < |m| && x / PAGE < |t.ps| && !t.InUse(x) && (t.ps[x / PAGE].alloc || m[x / PAGE * PAGE] == 0) ==> m[x] == 0
  }

  ghost predicate Zeroed(t: Table, m: seq<int>) {
    forall x {:trigger ZeroAt(t, m, x)} {:trigger m[x]} :: 0 <= x < |m| ==> ZeroAt(t, m, x)
  }

  /** The invariants of the heap as a whole. */
  ghost predicate HeapOk(t: Table, objs: map<int, int>, gens: seq<Generation>, total: int, m: seq<int>) {
    && t.Valid() && ObjectsOk(t, objs) && CountersOk(t.ps, gens, total)
    && |m| == (|t.ps| - 1) * PAGE && Zeroed(t, m)
  }

  /** The free pages among first to last that are marked have been set to zero. */
  ghost predicate Clears(ps: seq<Page>, m: seq<int>, m2: seq<int>, first: int, last: int) {
    && |m2| == |m| == (|ps| - 1) * PAGE
    && (forall x {:trigger m2[x]} :: 0 <= x < |m| ==>
          m2[x] == (if first <= x / PAGE <= last && !ps[x / PAGE].alloc && m[x / PAGE * PAGE] != 0 then 0 else m[x]))
  }

  lemma ClearedAt(t: Table, m: seq<int>, m2: seq<int>, first: int, last: int, x: int)
    requires t.Valid() && Zeroed(t, m) && Clears(t.ps, m, m2, first, last) && 0 <= x < |m|
    ensures first <= x / PAGE <= last && !t.InUse(x) ==> m2[x] == 0
    ensures t.InUse(x) ==> m2[x] == m[x]
    ensures ZeroAt(t, m2, x)
  {
    assert ZeroAt(t, m, x) && m2[x] == m2[x];
    var y := x / PAGE * PAGE;
    assert y / PAGE == x / PAGE;
    assert m2[y] == 0 || m2[y] == m[y];
  }

  lemma OpenZeroed(t: Table, t2: Table, kind: bool, first: int, last: int, m: seq<int>, m2: seq<int>)
    requires t.Valid() && Opens(t, t2, kind, first, last) && Zeroed(t, m) && Clears(t.ps, m, m2, first, last)
    ensures Zeroed(t2, m2)
    ensures forall x {:trigger m2[x]} :: 0 <= x < |m| && t.InUse(x) ==> m2[x] == m[x]
  {
    hide PageOk, RegionOk, Candidate;
    forall x {:trigger ZeroAt(t2, m2, x)} {:trigger m2[x]} | 0 <= x < |m|
      ensures ZeroAt(t2, m2, x) && (t.InUse(x) ==> m2[x] == m[x])
    {
      ClearedAt(t, m, m2, first, last, x);
      OpenInUse(t, t2, kind, first, last, x);
      assert t2.ps[x / PAGE] == OpenedPage(t.ps[x / PAGE], x / PAGE, t2.Of(kind), kind, t.gen);
    }
  }

  lemma OpenHeapOk(t: Table, t2: Table, kind: bool, first: int, last: int, objs: map<int, int>, gens: seq<Generation>,
        total: int,
                   m: seq<int>, m2: seq<int>)
    requires HeapOk(t, objs, gens, total, m) && Opens(t, t2, kind, first, last) && Clears(t.ps, m, m2, first, last)
    ensures HeapOk(t2, objs, gens, total, m2)
  {
    hide ObjectsOk, PageOk, RegionOk, Candidate, Zeroed;
    OpenOk(t, t2, kind, first, last);
    OpenObjects(t, t2, kind, first, last, objs);
    OpenZeroed(t, t2, kind, first, last, m, m2);
    forall g: int ensures Bytes(t2.ps, g) == Bytes(t.ps, g) {
      OpenSum(t, t2, kind, first, last, g);
    }
  }

  lemma CloseZeroed(t: Table, t2: Table, kind: bool, m: seq<int>)
    requires t.Valid() && Closes(t, t2, kind) && |m| == (|t.ps| - 1) * PAGE && Zeroed(t, m)
    ensures Zeroed(t2, m)
  {
    hide PageOk, RegionOk;
    forall x {:trigger ZeroAt(t2, m, x)} {:trigger m[x]} | 0 <= x < |m| ensures ZeroAt(t2, m, x) {
      CloseInUse(t, t2, kind, x);
      assert ZeroAt(t, m, x);
      assert t2.ps[x / PAGE] == ClosedPage(t.ps[x / PAGE], x / PAGE, t.Of(kind));
      if t.Of(kind).Covers(x / PAGE) {
        OtherRegion(t, kind, x / PAGE);
        CoveredAlloc(t, kind, x / PAGE);
      }
    }
  }

  lemma CoveredAlloc(t: Table, kind: bool, i: int)
    requires t.Valid() && t.Of(kind).Covers(i)
    ensures 0 <= i < |t.ps| && t.ps[i].alloc
  {
    var r := t.Of(kind);
    assert RegionOk(t.ps, r, kind, t.gen);
    assert r.first <= i <= r.last ==> RegionPage(t.ps[i], kind, t.gen);
  }

  /** The counters after n words more have been counted for generation gen. */
  predicate Grown(gens: seq<Generation>, gens2: seq<Generation>, gen: nat, n: int) {
    && |gens2| == |gens|
    && (forall g {:trigger gens2[g]} :: 0 <= g < |gens| ==>
          gens2[g].bytes == gens[g].bytes + (if g == gen then n else 0))
  }

  lemma CloseHeapOk(t: Table, t2: Table, kind: bool, objs: map<int, int>, gens: seq<Generation>, gens2: seq<Generation>,
                    total: int, m: seq<int>)
    requires HeapOk(t, objs, gens, total, m) && Closes(t, t2, kind)
    requires Grown(gens, gens2, t.gen, t.Of(kind).free - t.Of(kind).start)
    ensures HeapOk(t2, objs, gens2, total + t.Of(kind).free - t.Of(kind).start, m)
  {
    hide ObjectsOk, PageOk, RegionOk, Zeroed, ClosedPage;
    CloseOk(t, t2, kind);
    CloseObjects(t, t2, kind, objs);
    CloseZeroed(t, t2, kind, m);
    forall g: int
      ensures Bytes(t2.ps, g) == Bytes(t.ps, g) + (if Counted(t.gen, g) then t.Of(kind).free - t.Of(kind).start else 0)
    {
      CloseSum(t, t2, kind, g);
    }
  }

  lemma TakeZeroed(t: Table, t2: Table, kind: bool, first: int, last: int, n: int, large: bool, used: int, m: seq<int>,
        m2: seq<int>)
    requires t.Valid() && Takes(t, t2, kind, first, last, n, large) && Zeroed(t, m) && Clears(t.ps, m, m2, first, used)
    requires used * PAGE < first * PAGE + t.ps[first].used + n <= (used + 1) * PAGE
    ensures Zeroed(t2, m2)
    ensures forall x {:trigger m2[x]} :: 0 <= x < |m| && t.InUse(x) ==> m2[x] == m[x]
    ensures forall x {:trigger m2[x]} ::
      0 <= x < |m| && first * PAGE + t.ps[first].used <= x < first * PAGE + t.ps[first].used + n ==> m2[x] == 0
  {
    hide RegionOk, Candidate;
    assert PageOk(t.ps, first);
    TakeGains(t, t2, kind, first, last, n, large);
    forall x {:trigger ZeroAt(t2, m2, x)} {:trigger m2[x]} | 0 <= x < |m|
      ensures ZeroAt(t2, m2, x) && (t.InUse(x) ==> m2[x] == m[x])
      ensures first * PAGE + t.ps[first].used <= x < first * PAGE + t.ps[first].used + n ==> m2[x] == 0
    {
      ClearedAt(t, m, m2, first, used, x);
      assert t2.InUse(x) || !t.InUse(x);
      assert t2.ps[x / PAGE] == TakenPage(t.ps[x / PAGE], x / PAGE, first, first * PAGE + t.ps[first].used, n, kind,
          t.gen, large);
    }
  }

  lemma TakeHeapOk(t: Table, t2: Table, kind: bool, first: int, last: int, n: int, large: bool, used: int,
        objs: map<int, int>,
                   gens: seq<Generation>, gens2: seq<Generation>, total: int, m: seq<int>, m2: seq<int>)
    requires HeapOk(t, objs, gens, total, m) && Takes(t, t2, kind, first, last, n, large)
    requires Clears(t.ps, m, m2, first, used)
    requires used * PAGE < first * PAGE + t.ps[first].used + n <= (used + 1) * PAGE && Grown(gens, gens2, t.gen, n)
    ensures first * PAGE + t.ps[first].used !in objs
    ensures HeapOk(t2, objs[first * PAGE + t.ps[first].used := first * PAGE + t.ps[first].used + n], gens2, total + n,
        m2)
  {
    hide ObjectsOk, PageOk, RegionOk, Zeroed, TakenPage, Candidate;
    TakeOk(t, t2, kind, first, last, n, large);
    TakeObjects(t, t2, kind, first, last, n, large, objs);
    TakeZeroed(t, t2, kind, first, last, n, large, used, m, m2);
    forall g: int ensures Bytes(t2.ps, g) == Bytes(t.ps, g) + (if Counted(t.gen, g) then n else 0) {
      TakeSum(t, t2, kind, first, last, n, large, g);
    }
  }

  lemma BumpHeapOk(t: Table, t2: Table, kind: bool, n: int, objs: map<int, int>, gens: seq<Generation>, total: int,
        m: seq<int>)
    requires HeapOk(t, objs, gens, total, m) && Bumps(t, t2, kind, n) && n > 0
    ensures t.Of(kind).free !in objs && HeapOk(t2, objs[t.Of(kind).free := t.Of(kind).free + n], gens, total, m)
    ensures 0 <= t.Of(kind).free && t.Of(kind).free + n <= |m|
    ensures forall x {:trigger m[x]} :: t.Of(kind).free <= x < t.Of(kind).free + n ==> m[x] == 0
  {
    hide ObjectsOk, PageOk, RegionOk, CountersOk;
    RegionBounds(t, kind);
    BumpOk(t, t2, kind, n);
    BumpObjects(t, t2, kind, n, objs);
    BumpGains(t, t2, kind, n);
    forall x {:trigger ZeroAt(t2, m, x)} {:trigger m[x]} | 0 <= x < |m| ensures ZeroAt(t2, m, x) {
      assert ZeroAt(t, m, x);
      assert t2.InUse(x) || !t.InUse(x);
    }
    forall x {:trigger m[x]} | t.Of(kind).free <= x < t.Of(kind).free + n ensures m[x] == 0 {
      assert !t.InUse(x);
      BumpedZero(t, kind, n, m, x);
    }
  }

  lemma BumpedZero(t: Table, kind: bool, n: int, m: seq<int>, x: int)
    requires t.Valid() && |m| == (|t.ps| - 1) * PAGE && Zeroed(t, m)
    requires t.Of(kind).free <= x < t.Of(kind).free + n <= t.Of(kind).end
    requires !t.InUse(x)
    ensures 0 <= x < |m| && m[x] == 0
  {
    hide PageOk;
    RegionFacts(t, kind);
    assert ZeroAt(t, m, x);
    CoveredAlloc(t, kind, x / PAGE);
  }

  lemma HeapValid(t: Table, objs: map<int, int>, gens: seq<Generation>, total: int, m: seq<int>)
    requires HeapOk(t, objs, gens, total, m)
    ensures t.Valid()
  {
  }

  lemma CloseReset(t: Table, t2: Table, kind: bool)
    requires t.Valid() && Closes(t, t2, kind)
    ensures t2.Of(kind) == RESET && t2.Of(!kind) == t.Of(!kind) && SameWords(t, t2)
  {
    hide PageOk, RegionOk;
    forall x ensures t2.InUse(x) <==> t.InUse(x) {
      CloseInUse(t, t2, kind, x);
    }
  }

  lemma OpenedRegion(t: Table, t2: Table, kind: bool, first: int, last: int)
    requires Opens(t, t2, kind, first, last)
    ensures t2.Of(kind).free == t2.Of(kind).start && t2.Of(!kind) == t.Of(!kind)
  {
  }

  lemma GainedInUse(t: Table, t2: Table, a: int, b: int)
    requires Gains(t, t2, a, b)
    ensures forall x {:trigger t2.InUse(x)} :: a <= x < b ==> t2.InUse(x)
  {
  }

  /** Zero words that have become in use stay zero, and the others in use are not touched either. */
  lemma KeptWords(t: Table, t1: Table, m: seq<int>, m2: seq<int>, a: int, b: int)
    requires Gains(t, t1, a, b) && |m2| == |m|
    requires forall x {:trigger m2[x]} :: 0 <= x < |m| && t1.InUse(x) ==> m2[x] == m[x]
    ensures forall x {:trigger m2[x]} :: 0 <= x < |m| && (t.InUse(x) || a <= x < b) ==> m2[x] == m[x]
  {
    forall x {:trigger m2[x]} | 0 <= x < |m| && (t.InUse(x) || a <= x < b) ensures m2[x] == m[x] {
      assert t1.InUse(x);
    }
  }

  lemma AllTakeable(ps: seq<Page>, first: int, last: int, kind: bool, gen: nat, large: bool)
    requires 0 <= first <= last < |ps| - 1 && Suits(ps[first], kind, gen, large)
    requires forall i {:trigger ps[i]} :: first < i <= last ==> !ps[i].alloc
    ensures Takeable(ps, first, last, kind, gen)
  {
  }

  /** All objects are still there. */
  ghost predicate Grew(objs: map<int, int>, objs2: map<int, int>) {
    forall a {:trigger a in objs} :: a in objs ==> a in objs2 && objs2[a] == objs[a]
  }

  predicate AreasOk(areas: seq<NewAreas.Area>) {
    |areas| <= NewAreas.NUM_NEW_AREAS && forall k :: 0 <= k < |areas| ==> areas[k].size > 0
  }

  lemma TooSmall(ps: seq<Page>, first: int, last: int, n: int)
    requires forall i :: 0 <= i < |ps| ==> PageOk(ps, i)
    requires 0 <= first <= last < |ps| - 1 && PAGE - ps[first].used + PAGE * (last - first) < n
    requires forall i {:trigger ps[i]} :: first < i <= last ==> !ps[i].alloc
    requires last + 1 < |ps| - 1 ==> ps[last + 1].alloc
    ensures forall i :: first <= i <= last ==> Room(ps, i) < n
  {
    forall i | first <= i <= last ensures Room(ps, i) < n {
      RunUpTo(ps, i, last);
      assert PageOk(ps, i) && PageOk(ps, first);
    }
  }

  const FREE_PAGE := Page(false, false, false, false, false, 0, 0, 0)

  /** The table of a heap of n free pages. */
  ghost function FreeTable(n: nat): Table {
    Table(seq(n + 1, _ => FREE_PAGE), RESET, RESET, 0, 0)
  }

  lemma {:induction false} NothingUsed(ps: seq<Page>, g: int, n: nat)
    requires n <= |ps| && forall i {:trigger ps[i]} :: 0 <= i < n ==> ps[i] == FREE_PAGE
    ensures Sum(ps, g, n) == 0
  {
    if n > 0 {
      NothingUsed(ps, g, n - 1);
    }
  }

  /** A heap of free zero pages is a heap. */
  lemma EmptyHeapOk(n: nat, gens: seq<Generation>, m: seq<int>)
    requires |gens| == NUM_GENERATIONS + 1 && forall g {:trigger gens[g]} :: 0 <= g < |gens| ==> gens[g].bytes == 0
    requires |m| == n * PAGE && forall x {:trigger m[x]} :: 0 <= x < |m| ==> m[x] == 0
    ensures HeapOk(FreeTable(n), map[], gens, 0, m) && forall x :: !FreeTable(n).InUse(x)
  {
    var t := FreeTable(n);
    NothingUsed(t.ps, ALL, |t.ps|);
    forall g {:trigger gens[g]} | 0 <= g < |gens| ensures Bytes(t.ps, g) == 0 {
      NothingUsed(t.ps, g, |t.ps|);
    }
    forall i | 0 <= i < |t.ps| ensures PageOk(t.ps, i) && t.ps[i] == FREE_PAGE {
    }
  }

  class Heap {
    const pages: array<Page>
    const mem: array<int>
    const gens: array<Generation>
    const reserved: nat
    var boxed: Region
    var unboxed: Region
    var allocGen: nat
    var lastFree: int
    var bytesAllocated: int
    var recording: NewAreas.Recording
    var areas: seq<NewAreas.Area>
    var boxedStats: Stats
    var unboxedStats: Stats
    /** What the headers say: where the objects end, and the words on boxed pages that belong to unboxed objects. */
    var objs: map<int, int>
    var raw: set<int>

    /** gc_init: all n pages are free, and the generations are empty. */
    constructor (n: nat, reserved: nat)
      ensures Valid() && T() == FreeTable(n) && objs == map[] && raw == {} && areas == [] && recording.Off?
      ensures fresh(pages) && fresh(mem) && fresh(gens) && pages.Length == n + 1
      ensures forall x {:trigger mem[x]} :: 0 <= x < mem.Length ==> mem[x] == 0
    {
      pages := new Page[n + 1](_ => FREE_PAGE);
      mem := new int[n * PAGE](_ => 0);
      gens := new Generation[NUM_GENERATIONS + 1](_ => Generation(0, 0, 0, 0, 0));
      this.reserved := reserved;
      boxed, unboxed, allocGen, lastFree, bytesAllocated := RESET, RESET, 0, 0, 0;
      recording, areas := NewAreas.Off, [];
      boxedStats, unboxedStats := Stats(0, 0, RESET), Stats(0, 0, RESET);
      objs, raw := map[], {};
      new;
      EmptyHeapOk(n, gens[..], mem[..]);
      assert pages[..] == seq(n + 1, _ => FREE_PAGE);
    }

    function T(): Table
      reads this, pages
    {
      Table(pages[..], boxed, unboxed, allocGen, lastFree)
    }

    ghost predicate Shaped()
      reads this, gens
    {
      && pages.Length > 0 && mem.Length == (pages.Length - 1) * PAGE && gens.Length == NUM_GENERATIONS + 1
      && (forall g {:trigger gens[g]} :: 0 <= g < gens.Length ==> StartsOk(gens[g], pages.Length - 1))
    }

    ghost predicate Valid()
      reads this, pages, mem, gens
    {
      Shaped() && HeapOk(T(), objs, gens[..], bytesAllocated, mem[..]) && AreasOk(areas)
    }

    /** The first page from start on where n words fit, and how far they reach. */
    method Search(n: int, minPages: int, start: int, kind: bool, gen: nat, large: bool)
          returns (ok: bool, first: int, last: int)
      requires pages.Length > 0 && 0 <= start <= pages.Length - 1 && n > 0
      requires forall i :: 0 <= i < pages.Length ==> PageOk(pages[..], i)
      ensures ok ==> start <= first <= last < pages.Length - 1 && first < pages.Length - 1 - reserved
      ensures ok ==> Suits(pages[first], kind, gen, large)
      ensures ok ==> forall i :: first < i <= last ==> !pages[i].alloc
      ensures ok ==> PAGE - pages[first].used + PAGE * (last - first) >= n
      ensures ok && first < last ==> PAGE - pages[first].used + PAGE * (last - first - 1) < n || last - first < minPages
      ensures forall i ::
        start <= i < pages.Length - 1 - reserved && (ok ==> i < first) && Suits(pages[i], kind, gen, large) ==>
                Room(pages[..], i) < n
    {
      ghost var ps := pages[..];
      var restart, found := start, 0;
      first, last := 0, 0;
      while true
        invariant start <= restart <= pages.Length - 1 && found < n
        invariant forall i :: start <= i < restart && Suits(ps[i], kind, gen, large) ==> Room(ps, i) < n
        decreases pages.Length - restart
      {
        first := restart;
        while first < pages.Length - 1 && !Suits(pages[first], kind, gen, large)
          invariant restart <= first <= pages.Length - 1
          invariant forall i :: restart <= i < first ==> !Suits(ps[i], kind, gen, large)
        {
          first := first + 1;
        }
        if first >= pages.Length - 1 - reserved {
          return false, first, last;
        }
        assert !pages[first].wp by {
          assert PageOk(ps, first);
        }
        last := first;
        found := PAGE - pages[first].used;
        var numPages := 1;
        while (found < n || numPages < minPages) && last < pages.Length - 2 && !pages[last + 1].alloc
          invariant first <= last < pages.Length - 1
          invariant numPages == last - first + 1 && found == PAGE - pages[first].used + PAGE * (last - first)
          invariant forall i {:trigger ps[i]} :: first < i <= last ==> !ps[i].alloc
          invariant first < last ==> found - PAGE < n || last - first < minPages
        {
          last, numPages, found := last + 1, numPages + 1, found + PAGE;
          assert !pages[last].wp by {
            assert PageOk(ps, last);
          }
        }
        var regionSize := (PAGE - pages[first].used) + PAGE * (last - first);
        assert found == regionSize;
        restart := last + 1;
        if found < n {
          TooSmall(ps, first, last, n);
        }
        if !(restart < pages.Length - 1 && found < n) {
          break;
        }
      }
      ok := found >= n;
    }

    /** Sets a free page to zero if its first word says that it may not be. */
    method ClearPage(i: int)
      requires Shaped() && 0 <= i < pages.Length - 1
      modifies mem
      ensures forall x {:trigger mem[x]} :: 0 <= x < mem.Length ==>
                mem[x] == (if x / PAGE == i && !pages[i].alloc && old(mem[i * PAGE]) != 0 then 0 else old(mem[x]))
    {
      if !pages[i].alloc {
        if mem[i * PAGE] != 0 {
          forall x | i * PAGE <= x < (i + 1) * PAGE {
            mem[x] := 0;
          }
        }
      }
    }

    method ClearPages(first: int, last: int)
      requires Shaped() && 0 <= first <= last < pages.Length - 1
      modifies mem
      ensures Clears(pages[..], old(mem[..]), mem[..], first, last)
    {
      var i := first;
      while i <= last
        invariant first <= i <= last + 1
        invariant forall x {:trigger mem[x]} :: 0 <= x < mem.Length ==>
                    mem[x] == (if first <= x / PAGE < i && !pages[x / PAGE].alloc &&
                        old(mem[x / PAGE * PAGE]) != 0 then 0 else old(mem[x]))
      {
        ClearPage(i);
        i := i + 1;
      }
    }

    /** Marks pages first to last as belonging to the region. */
    method OpenPages(kind: bool, first: int, last: int)
      requires pages.Length > 0 && T().Valid() && (if kind then unboxed else boxed) == RESET
      requires Takeable(pages[..], first, last, kind, allocGen)
      modifies this`boxed, this`unboxed, this`lastFree, pages
      ensures Opens(old(T()), T(), kind, first, last)
    {
      hide RegionOk;
      ghost var t := T();
      assert PageOk(t.ps, first);
      var region := NewRegion(pages[..], first, last);
      if kind {
        unboxed := region;
      } else {
        boxed := region;
      }
      if pages[first].used == 0 {
        pages[first] := pages[first].(alloc := true, wp := false, large := false, dontMove := false, unboxed := kind,
            gen := allocGen);
        pages[first] := pages[first].(offset := 0);
      }
      assert pages[first].alloc && pages[first].unboxed == kind && pages[first].gen == allocGen &&
          !pages[first].large by {
        TakenIsApart(t, kind, first, last, first);
      }
      var i := first + 1;
      while i <= last
        modifies pages
        invariant first < i <= last + 1
        invariant forall j {:trigger pages[j]} :: 0 <= j < pages.Length ==>
                    pages[j] == (if j < i then OpenedPage(t.ps[j], j, region, kind, allocGen) else t.ps[j])
      {
        pages[i] := pages[i].(alloc := true, large := false, unboxed := kind, gen := allocGen);
        pages[i] := pages[i].(offset := region.start - i * PAGE);
        i := i + 1;
      }
      if last + 1 > lastFree {
        lastFree := last + 1;
      }
    }

    function Of(kind: bool): Region
      reads this
    {
      if kind then unboxed else boxed
    }

    /** What was in use still is, with the same contents. */
    twostate predicate SameUse()
      reads this, pages, mem
    {
      && SameWords(old(T()), T())
      && (forall x {:trigger mem[x]} :: 0 <= x < mem.Length && old(T()).InUse(x) ==> mem[x] == old(mem[x]))
    }

    /** From the page where searches for regions start there is nowhere room for one of n words. */
    ghost predicate NoRegion(n: int, kind: bool)
      reads this, pages, gens
    {
      allocGen < gens.Length && forall i {:trigger pages[i]} :: 0 <= i < pages.Length - 1 - reserved ==>
        (gens[allocGen].Start(kind, false) <= i && Candidate(pages[i], kind, allocGen) ==> Room(pages[..], i) < n)
    }

    /** From the page where searches for large areas start there is nowhere room for one of n words behind the
        region. */
    ghost predicate NoLarge(n: int, kind: bool)
      reads this, pages, gens
    {
      allocGen < gens.Length && forall i {:trigger pages[i]} :: 0 <= i < pages.Length - 1 - reserved ==>
        (gens[allocGen].Start(kind, true) <= i && Of(kind).last < i &&
            Suits(pages[i], kind, allocGen, n >= LARGE_OBJECT) ==>
          Room(pages[..], i) < n)
    }

    /** Memory has run out for an object of n words. */
    ghost predicate Exhausted(n: int, kind: bool)
      reads this, pages, gens
    {
      NoRegion(n, kind) || NoRegion(THRESHOLD, kind) || NoLarge(n, kind)
    }

    /** The search of gc_alloc_new_region. */
    method FindRegion(n: int, kind: bool) returns (ok: bool, first: int, last: int)
      requires Valid() && n > 0
      ensures ok ==> 0 <= first <= last < pages.Length - 1 && Candidate(pages[first], kind, allocGen)
      ensures ok ==> forall i :: first < i <= last ==> !pages[i].alloc
      ensures ok ==> PAGE - pages[first].used + PAGE * (last - first) >= n
      ensures !ok ==> NoRegion(n, kind)
    {
      hide RegionOk, Zeroed, ObjectsOk, CountersOk, Candidate, PageOk;
      ok, first, last := Search(n, 2, gens[allocGen].Start(kind, false), kind, allocGen, false);
    }

    /** gc_alloc_new_region: finds pages for at least n words, and opens a region there. */
    method AllocNewRegion(n: int, kind: bool) returns (ok: bool)
      requires Valid() && Of(kind) == RESET && n > 0
      modifies this`boxed, this`unboxed, this`lastFree, pages, mem
      ensures Valid() && SameUse()
      ensures ok ==> Opens(old(T()), T(), kind, Of(kind).first, Of(kind).last) && Of(kind).end - Of(kind).start >= n
      ensures !ok ==> T() == old(T()) && mem[..] == old(mem[..])
      ensures !ok ==> NoRegion(n, kind)
    {
      ghost var t, m := T(), mem[..];
      assert Shaped() && t.Valid();
      hide NoRegion;
      var first, last;
      ok, first, last := FindRegion(n, kind);
      if !ok {
        return;
      }
      ClearPages(first, last);
      OpenPages(kind, first, last);
      assert T() == T();
      OpenHeapOk(t, T(), kind, first, last, objs, gens[..], bytesAllocated, m, mem[..]);
      OpenZeroed(t, T(), kind, first, last, m, mem[..]);
      forall x ensures T().InUse(x) <==> t.InUse(x) {
        OpenInUse(t, T(), kind, first, last, x);
      }
    }

    method AddNewArea(page: int, offset: int, size: int)
      requires AreasOk(areas) && size > 0
      modifies this`areas
      ensures AreasOk(areas)
      ensures NewAreas.Records(old(areas), areas, recording, NewAreas.Area(page, offset, size))
    {
      areas := NewAreas.Add(areas, recording, page, offset, size);
    }

    /** Counts the words of region r on its pages; next is the page after the last one that is used. */
    method CountRegion(kind: bool) returns (next: int)
      requires pages.Length > 0 && T().Valid() && !Of(kind).IsReset() && Of(kind).start < Of(kind).free
      modifies pages
      ensures Of(kind).first < next <= Of(kind).last + 1 && (next - 1) * PAGE < Of(kind).free <= next * PAGE
      ensures forall i {:trigger pages[i]} :: 0 <= i < pages.Length ==>
                pages[i] == (if i < next then ClosedPage(old(pages[i]), i, Of(kind)) else old(pages[i]))
    {
      ghost var t := T();
      assert t == old(T());
      var r := Of(kind);
      assert t.Of(kind) == r && PageOk(t.ps, r.first);
      var orig := pages[r.first].used;
      assert r.start == r.first * PAGE + pages[r.first].used;
      assert RegionPage(t.ps[r.first], kind, allocGen);
      var more := false;
      var used := r.free - r.first * PAGE;
      if used > PAGE {
        used, more := PAGE, true;
      }
      pages[r.first] := pages[r.first].(used := used);
      var count := used;
      next := r.first + 1;
      while more
        invariant r.first < next <= r.last + 1 && more == (r.free > next * PAGE)
        invariant count == Min(r.free, next * PAGE) - r.first * PAGE && (next - 1) * PAGE < r.free
        invariant forall i {:trigger pages[i]} :: 0 <= i < pages.Length ==>
                    pages[i] == (if i < next then ClosedPage(t.ps[i], i, r) else t.ps[i])
        decreases r.last - next
      {
        assert pages[next] == t.ps[next] && RegionPage(t.ps[next], kind, allocGen);
        assert pages[next].used == 0 && pages[next].offset == r.start - next * PAGE;
        more := false;
        used := r.free - next * PAGE;
        if used > PAGE {
          used, more := PAGE, true;
        }
        pages[next] := pages[next].(used := used);
        count := count + used;
        next := next + 1;
      }
      assert count - orig == r.free - r.start;
    }

    /** Gives back the pages from next to last, on which nothing is in use. */
    method ReleasePages(next: int, last: int)
      requires 0 <= next <= last + 1 <= pages.Length
      modifies pages
      ensures forall i {:trigger pages[i]} :: 0 <= i < pages.Length ==>
                pages[i] == (if next <= i <= last then old(pages[i]).(alloc := false) else old(pages[i]))
    {
      var i := next;
      while i <= last
        invariant next <= i <= last + 1
        invariant forall j {:trigger pages[j]} :: 0 <= j < pages.Length ==>
                    pages[j] == (if next <= j < i then old(pages[j]).(alloc := false) else old(pages[j]))
      {
        pages[i] := pages[i].(alloc := false);
        i := i + 1;
      }
    }

    method CountBytes(g: nat, n: int)
      requires Shaped() && g < gens.Length
      modifies this`bytesAllocated, gens
      ensures Shaped() && bytesAllocated == old(bytesAllocated) + n && Grown(old(gens[..]), gens[..], g, n)
      ensures forall h {:trigger gens[h]} :: 0 <= h < gens.Length ==> gens[h] == old(gens[h]).(bytes := gens[h].bytes)
    {
      bytesAllocated := bytesAllocated + n;
      gens[g] := gens[g].(bytes := gens[g].bytes + n);
    }

    method SetStart(g: nat, kind: bool, large: bool, page: int)
      requires Shaped() && g < gens.Length && 0 <= page < pages.Length
      modifies gens
      ensures Shaped() && Grown(old(gens[..]), gens[..], g, 0)
    {
      gens[g] := gens[g].WithStart(kind, large, page);
    }

    /** Counts and records the words of a region in which something was allocated. */
    method CountUsed(kind: bool) returns (next: int)
      requires Shaped() && T().Valid() && AreasOk(areas) && !Of(kind).IsReset() && Of(kind).start < Of(kind).free
      modifies this`bytesAllocated, this`areas, pages, gens
      ensures Shaped() && AreasOk(areas)
      ensures Of(kind).first < next <= Of(kind).last + 1 && Of(kind).free <= next * PAGE
      ensures forall i {:trigger pages[i]} :: 0 <= i < pages.Length ==>
                pages[i] == (if i < next then ClosedPage(old(pages[i]), i, Of(kind)) else old(pages[i]))
      ensures bytesAllocated == old(bytesAllocated) + Of(kind).free - Of(kind).start
      ensures Grown(old(gens[..]), gens[..], allocGen, Of(kind).free - Of(kind).start)
      ensures if kind then areas == old(areas) else NewAreas.Records(old(areas), areas, recording,
                NewAreas.Area(boxed.first, boxed.start - boxed.first * PAGE, boxed.free - boxed.start))
    {
      hide PageOk, RegionOk, ClosedPage;
      ghost var t := T();
      var r := Of(kind);
      assert t.Of(kind) == r;
      RegionFacts(t, kind);
      var orig := pages[r.first].used;
      next := CountRegion(kind);
      var regionSize := r.free - r.start;
      CountBytes(allocGen, regionSize);
      SetStart(allocGen, kind, false, next - 1);
      if !kind {
        AddNewArea(r.first, orig, regionSize);
      }
    }

    /** Gives back the unused pages of a region, of which the pages before next are counted, and resets it. */
    method ResetRegion(kind: bool, next: int, ghost t: Table)
      requires pages.Length == |t.ps| && t.Valid() && T() == t.(ps := pages[..])
      requires !Of(kind).IsReset() && Of(kind).first < next <= Of(kind).last + 1 && Of(kind).free <= next * PAGE
      requires forall i {:trigger pages[i]} ::
        0 <= i < |t.ps| ==> pages[i] == (if i < next then ClosedPage(t.ps[i], i, Of(kind)) else t.ps[i])
      modifies this`boxed, this`unboxed, pages
      ensures Closes(t, T(), kind)
    {
      hide PageOk;
      var r := Of(kind);
      assert t.Of(kind) == r;
      ReleasePages(next, r.last);
      if kind {
        unboxed := RESET;
      } else {
        boxed := RESET;
      }
    }

    /** gc_alloc_update_page_tables: closes the region of a kind, and counts and records what was allocated in it. */
    method UpdatePageTables(kind: bool)
      requires Valid()
      modifies this`boxed, this`unboxed, this`bytesAllocated, this`areas, pages, gens
      ensures Valid() && Closes(old(T()), T(), kind)
      ensures bytesAllocated == old(bytesAllocated) + old(Of(kind)).free - old(Of(kind)).start
      ensures Grown(old(gens[..]), gens[..], allocGen, old(Of(kind)).free - old(Of(kind)).start)
      ensures if kind || old(boxed).start == old(boxed).free then areas == old(areas)
              else NewAreas.Records(old(areas), areas, recording,
                     NewAreas.Area(old(boxed).first, old(boxed).start - old(boxed).first * PAGE,
                         old(boxed).free - old(boxed).start))
    {
      hide RegionOk, PageOk, Zeroed, ObjectsOk, CountersOk;
      ghost var t, gs := T(), gens[..];
      var r := Of(kind);
      assert t.Of(kind) == r;
      RegionFacts(t, kind);
      if r.first == 0 && r.last == -1 {
        return;
      }
      var next := r.first + 1;
      if r.free != r.start {
        next := CountUsed(kind);
      } else if pages[r.first].used == 0 {
        pages[r.first] := pages[r.first].(alloc := false);
      }
      ResetRegion(kind, next, t);
      hide Closes;
      CloseHeapOk(t, T(), kind, objs, gs, gens[..], old(bytesAllocated), mem[..]);
    }

    /** Takes free page i for an object that begins on an earlier page. */
    method TakePage(i: int, first: int, start: int, n: int, kind: bool, large: bool)
      requires Shaped() && 0 <= first < i < pages.Length - 1 && !pages[i].alloc && i * PAGE < start + n
      modifies pages, mem
      ensures forall j {:trigger pages[j]} :: 0 <= j < pages.Length ==>
                pages[j] == (if j == i then TakenPage(old(pages[i]), i, first, start, n, kind, allocGen,
                    large) else old(pages[j]))
      ensures forall x {:trigger mem[x]} :: 0 <= x < mem.Length ==>
                mem[x] == (if x / PAGE == i && old(mem[i * PAGE]) != 0 then 0 else old(mem[x]))
    {
      ClearPage(i);
      pages[i] := pages[i].(alloc := true, wp := false, large := large, dontMove := false, unboxed := kind,
          gen := allocGen);
      pages[i] := pages[i].(offset := start - PAGE * i);
      pages[i] := pages[i].(used := Min(PAGE, start + n - i * PAGE));
    }

    /** Takes the first page for an object, which may have objects on it already. */
    method TakeFirst(first: int, ghost last: int, n: int, kind: bool, large: bool)
      requires Shaped() && T().Valid() && Takeable(pages[..], first, last, kind, allocGen) && Of(kind).last < first
      requires (large ==> !pages[first].alloc) && n > 0
      modifies pages, mem
      ensures forall j {:trigger pages[j]} :: 0 <= j < pages.Length ==>
                pages[j] == (if j == first then TakenPage(old(pages[first]), first, first,
                    first * PAGE + old(pages[first].used), n, kind, allocGen, large)
                             else old(pages[j]))
      ensures forall x {:trigger mem[x]} :: 0 <= x < mem.Length ==>
                mem[x] == (if x / PAGE == first && !old(pages[first].alloc) &&
                    old(mem[first * PAGE]) != 0 then 0 else old(mem[x]))
    {
      ghost var t := T();
      assert PageOk(t.ps, first);
      TakenIsApart(t, kind, first, last, first);
      var orig := pages[first].used;
      ClearPage(first);
      if pages[first].used == 0 {
        pages[first] := pages[first].(alloc := true, wp := false, large := large, dontMove := false, unboxed := kind,
            gen := allocGen);
        pages[first] := pages[first].(offset := 0);
      }
      assert pages[first].alloc && pages[first].unboxed == kind && pages[first].gen == allocGen &&
          pages[first].large == large;
      pages[first] := pages[first].(used := Min(PAGE, n + orig));
    }

    /** Takes the pages for n words, beginning on page first, and clears those that were free. */
    method TakePages(kind: bool, first: int, ghost last: int, n: int, large: bool) returns (ghost used: int)
      requires Shaped() && T().Valid() && Takeable(pages[..], first, last, kind, allocGen) && Of(kind).last < first
      requires (large ==> !pages[first].alloc) && n > 0 && first * PAGE + pages[first].used + n <= (last + 1) * PAGE
      modifies pages, mem
      ensures forall i {:trigger pages[i]} :: 0 <= i < pages.Length ==>
                pages[i] == TakenPage(old(pages[i]), i, first, first * PAGE + old(pages[first].used), n, kind, allocGen,
                    large)
      ensures used * PAGE < first * PAGE + old(pages[first].used) + n <= (used + 1) * PAGE
      ensures Clears(old(pages[..]), old(mem[..]), mem[..], first, used)
    {
      hide RegionOk, Candidate;
      ghost var t, m := T(), mem[..];
      assert PageOk(t.ps, first);
      var orig := pages[first].used;
      var start := first * PAGE + orig;
      TakeFirst(first, last, n, kind, large);
      var count, next := Min(PAGE, n + orig), first + 1;
      while n + orig > count
        invariant first < next <= last + 1
        invariant count == Min(n + orig, (next - first) * PAGE) && (next - 1 - first) * PAGE < n + orig
        invariant forall i {:trigger pages[i]} :: 0 <= i < pages.Length ==>
                    pages[i] == (if i < next then TakenPage(t.ps[i], i, first, start, n, kind, allocGen,
                        large) else t.ps[i])
        invariant forall x {:trigger mem[x]} :: 0 <= x < mem.Length ==>
                    mem[x] == (if first <= x / PAGE < next && !t.ps[x / PAGE].alloc &&
                        m[x / PAGE * PAGE] != 0 then 0 else m[x])
        decreases last - next
      {
        assert pages[next] == t.ps[next] && PageOk(t.ps, next);
        assert !pages[next].alloc && pages[next].used == 0;
        TakePage(next, first, start, n, kind, large);
        count := count + pages[next].used;
        next := next + 1;
      }
      assert count - orig == n;
      used := next - 1;
    }

    /** What is in use stays as it is, and words lo to hi of the kind are new and recorded. */
    twostate predicate Grows(lo: int, hi: int, kind: bool)
      reads this, pages
    {
      && recording == old(recording) && raw == old(raw) && Evolves(old(T()), T()) && Fresh(T(), kind, lo, hi)
      && Recorded(old(T()), old(areas), T(), areas, recording, kind, lo, hi)
    }

    /** Words a to a + n were not in use, are zero, and are an object now; nothing else has changed that was in use. */
    twostate predicate Gives(a: int, n: int, kind: bool)
      reads this, pages, mem
    {
      && Grows(a, a + n, kind)
      && 0 <= a && a + n <= mem.Length && a !in old(objs) && objs == old(objs)[a := a + n]
      && Gains(old(T()), T(), a, a + n)
      && (forall x {:trigger mem[x]} :: a <= x < a + n ==> mem[x] == 0)
      && (forall x {:trigger mem[x]} :: 0 <= x < mem.Length && old(T()).InUse(x) ==> mem[x] == old(mem[x]))
    }

    /** The search of gc_alloc_large, which starts behind the region. */
    method FindLarge(n: int, kind: bool) returns (ok: bool, first: int, last: int)
      requires Valid() && n > 0
      ensures ok ==> Takeable(pages[..], first, last, kind, allocGen) && Of(kind).last < first
      ensures ok ==> (n >= LARGE_OBJECT ==> !pages[first].alloc)
      ensures ok ==> first * PAGE + n + pages[first].used <= (last + 1) * PAGE
      ensures !ok ==> NoLarge(n, kind)
    {
      hide RegionOk, Zeroed, ObjectsOk, CountersOk, Candidate;
      ghost var t := T();
      assert t.Of(kind) == Of(kind);
      RegionFacts(t, kind);
      var large := n >= LARGE_OBJECT;
      var restart := gens[allocGen].Start(kind, true);
      if restart <= Of(kind).last {
        restart := Of(kind).last + 1;
      }
      ok, first, last := Search(n, 1, restart, kind, allocGen, large);
      if ok {
        AllTakeable(t.ps, first, last, kind, allocGen, large);
      }
    }

    /** Sets up the pages that were found for a large object, and counts them. */
    method SetUpLarge(n: int, kind: bool, first: int, last: int) returns (ghost used: int)
      requires Shaped() && T().Valid() && Takeable(pages[..], first, last, kind, allocGen) && Of(kind).last < first
      requires n > 0 && (n >= LARGE_OBJECT ==> !pages[first].alloc)
      requires first * PAGE + pages[first].used + n <= (last + 1) * PAGE
      modifies this`lastFree, this`bytesAllocated, pages, mem, gens
      ensures Shaped() && Takes(old(T()), T(), kind, first, last, n, n >= LARGE_OBJECT)
      ensures used * PAGE < first * PAGE + old(pages[first].used) + n <= (used + 1) * PAGE
      ensures Clears(old(pages[..]), old(mem[..]), mem[..], first, used)
      ensures bytesAllocated == old(bytesAllocated) + n && Grown(old(gens[..]), gens[..], allocGen, n)
    {
      hide RegionOk, Candidate, TakenPage, Clears, PageOk;
      SetStart(allocGen, kind, true, last);
      used := TakePages(kind, first, last, n, n >= LARGE_OBJECT);
      CountBytes(allocGen, n);
      if last + 1 > lastFree {
        lastFree := last + 1;
      }
    }

    /** The rest of gc_alloc_large: sets up the pages that were found. */
    method TakeLarge(n: int, kind: bool, first: int, last: int) returns (addr: int)
      requires Valid() && n > 0 && Takeable(pages[..], first, last, kind, allocGen) && Of(kind).last < first
      requires (n >= LARGE_OBJECT ==> !pages[first].alloc) && first * PAGE + n + pages[first].used <= (last + 1) * PAGE
      modifies this`lastFree, this`bytesAllocated, this`areas, this`objs, pages, mem, gens
      ensures Valid() && addr == first * PAGE + old(pages[first].used) && 0 <= addr && addr + n <= mem.Length
      ensures Takes(old(T()), T(), kind, first, last, n, n >= LARGE_OBJECT)
      ensures addr !in old(objs) && objs == old(objs)[addr := addr + n] && bytesAllocated == old(bytesAllocated) + n
      ensures forall x {:trigger mem[x]} :: 0 <= x < mem.Length && old(T()).InUse(x) ==> mem[x] == old(mem[x])
      ensures forall x {:trigger mem[x]} :: addr <= x < addr + n ==> mem[x] == 0
      ensures if kind then areas == old(areas)
              else NewAreas.Records(old(areas), areas, recording, NewAreas.Area(first, addr - first * PAGE, n))
    {
      hide RegionOk, Zeroed, ObjectsOk, CountersOk, Candidate, TakenPage;
      ghost var t, m, gs := T(), mem[..], gens[..];
      assert PageOk(t.ps, first);
      assert t.Of(kind) == Of(kind);
      var orig := pages[first].used;
      ghost var used := SetUpLarge(n, kind, first, last);
      hide Takes, PageOk, Clears;
      if !kind {
        AddNewArea(first, orig, n);
      }
      addr := first * PAGE + orig;
      objs := objs[addr := addr + n];
      TakeHeapOk(t, T(), kind, first, last, n, n >= LARGE_OBJECT, used, old(objs), gs, gens[..], old(bytesAllocated), m,
          mem[..]);
      TakeZeroed(t, T(), kind, first, last, n, n >= LARGE_OBJECT, used, m, mem[..]);
    }

    /** Allocates outside the regions: the part of gc_alloc_large for large objects and where the region has no room. */
    method AllocOutside(n: int, kind: bool) returns (r: Allocation)
      requires Valid() && n > 0 && (n >= LARGE_OBJECT || Of(kind).end - Of(kind).free < n)
      modifies this`lastFree, this`bytesAllocated, this`areas, this`objs, pages, mem, gens
      ensures Valid() && !r.NoRoom?
      ensures r.At? ==> Gives(r.addr, n, kind) && bytesAllocated == old(bytesAllocated) + n
      ensures r.At? && n >= LARGE_OBJECT ==> r.addr % PAGE == 0 && pages[r.addr / PAGE].large
      ensures r.Overflow? ==> T() == old(T()) && mem[..] == old(mem[..]) && objs == old(objs) && NoLarge(n, kind)
    {
      hide RegionOk, HeapOk, Candidate, NewAreas.Records;
      ghost var t := T();
      assert t.Valid() by {
        HeapValid(t, objs, gens[..], bytesAllocated, mem[..]);
      }
      var ok, first, last := FindLarge(n, kind);
      if !ok {
        return Overflow;
      }
      assert first > Of(kind).last;
      assert n >= LARGE_OBJECT ==> pages[first].used == 0 by {
        assert PageOk(t.ps, first);
      }
      var addr := TakeLarge(n, kind, first, last);
      r := At(addr);
      TakeGains(t, T(), kind, first, last, n, n >= LARGE_OBJECT);
      TakeEvolves(t, T(), kind, first, last, n, n >= LARGE_OBJECT);
      TakeRecorded(t, T(), kind, first, last, n, n >= LARGE_OBJECT, old(areas), areas, recording);
      assert n >= LARGE_OBJECT ==> addr / PAGE == first;
      assert T().ps[first] == TakenPage(t.ps[first], first, first, addr, n, kind, t.gen, n >= LARGE_OBJECT);
    }

    /** Moves the free pointer of a region that has room for n words. */
    method Bump(n: int, kind: bool) returns (addr: int)
      requires Valid() && n > 0 && Of(kind).free + n <= Of(kind).end
      modifies this`boxed, this`unboxed, this`objs
      ensures Valid() && addr == old(Of(kind)).free && Gives(addr, n, kind)
      ensures Bumps(old(T()), T(), kind, n)
    {
      hide RegionOk, HeapOk;
      ghost var t := T();
      HeapValid(t, objs, gens[..], bytesAllocated, mem[..]);
      assert t.Of(kind) == Of(kind);
      RegionFacts(t, kind);
      addr := Of(kind).free;
      if kind {
        unboxed := unboxed.(free := unboxed.free + n);
      } else {
        boxed := boxed.(free := boxed.free + n);
      }
      objs := objs[addr := addr + n];
      assert Bumps(t, T(), kind, n);
      BumpHeapOk(t, T(), kind, n, old(objs), gens[..], bytesAllocated, mem[..]);
      BumpGains(t, T(), kind, n);
      BumpEvolves(t, T(), kind, n);
      BumpRecorded(t, T(), kind, n, areas, recording);
    }

    /** Closes a region and opens another one for n words. */
    method Reopen(n: int, kind: bool) returns (ok: bool)
      requires Valid() && n > 0
      modifies this`boxed, this`unboxed, this`lastFree, this`bytesAllocated, this`areas, pages, mem, gens
      ensures Valid() && SameUse() && Of(!kind) == old(Of(!kind)) && Grows(0, 0, kind)
      ensures if ok then Of(kind).end - Of(kind).free >= n else NoRegion(n, kind)
    {
      hide RegionOk, HeapOk, NewAreas.Records, Closes, Opens, PageOk, Evolves, Recorded;
      ghost var t := T();
      HeapValid(t, objs, gens[..], bytesAllocated, mem[..]);
      UpdatePageTables(kind);
      ghost var t2 := T();
      CloseReset(t, t2, kind);
      CloseEvolves(t, t2, kind);
      CloseRecorded(t, t2, kind, old(areas), areas, recording);
      HeapValid(t2, objs, gens[..], bytesAllocated, mem[..]);
      ok := AllocNewRegion(n, kind);
      if ok {
        var first, last := Of(kind).first, Of(kind).last;
        OpenedRegion(t2, T(), kind, first, last);
        OpenEvolves(t2, T(), kind, first, last);
        OpenRecorded(t2, T(), kind, first, last, areas, recording);
        EvolvesTwice(t, t2, T());
        RecordedTwice(t, old(areas), t2, areas, T(), areas, recording, kind, 0, 0, 0, 0, 0, 0);
      }
    }

    /** gc_alloc_try_current_region: allocates in the region of the kind if there is room. */
    method TryCurrentRegion(n: int, kind: bool) returns (r: Allocation)
      requires Valid() && n > 0
      modifies this, pages, mem, gens
      ensures Valid() && allocGen == old(allocGen) && recording == old(recording)
      ensures r.NoRoom? <==> old(Of(kind).free) + n > old(Of(kind).end)
      ensures r.NoRoom? ==> T() == old(T()) && mem[..] == old(mem[..]) && objs == old(objs) && areas == old(areas)
      ensures r.NoRoom? ==> raw == old(raw)
      ensures r.At? ==> Gives(r.addr, n, kind) && r.addr == old(Of(kind).free)
      ensures r.Overflow? ==> Exhausted(n, kind) && Grew(old(objs), objs)
    {
      hide RegionOk, HeapOk, PageOk, Evolves, Recorded, Fresh, NoRegion, NoLarge;
      var newFree := Of(kind).free + n;
      if newFree > Of(kind).end {
        return NoRoom;
      }
      ghost var t := T();
      var addr := Bump(n, kind);
      ghost var t1, m1, areas1 := T(), mem[..], areas;
      if Of(kind).end - Of(kind).free <= THRESHOLD {
        var ok := Reopen(THRESHOLD, kind);
        if !ok {
          return Overflow;
        }
        GainsThenSame(t, t1, T(), addr, addr + n);
        EvolvesTwice(t, t1, T());
        GainedInUse(t, t1, addr, addr + n);
        FreshStays(t1, T(), kind, addr, addr + n);
        RecordedTwice(t, old(areas), t1, areas1, T(), areas, recording, kind, addr, addr + n, 0, 0, addr, addr + n);
        KeptWords(t, t1, m1, mem[..], addr, addr + n);
      }
      ghost var t2 := T();
      if kind {
        unboxedStats := Stats(0, 0, unboxed);
      } else {
        boxedStats := Stats(0, 0, boxed);
      }
      assert T() == t2;
      r := At(addr);
    }

    function StatsOf(kind: bool): Stats
      reads this
    {
      if kind then unboxedStats else boxedStats
    }

    method SetStats(kind: bool, stats: Stats)
      modifies this`boxedStats, this`unboxedStats
      ensures StatsOf(kind) == stats && StatsOf(!kind) == old(StatsOf(!kind))
    {
      if kind {
        unboxedStats := stats;
      } else {
        boxedStats := stats;
      }
    }

    /** The object is small, and there is room for it in the region of its kind. */
    predicate Fits(n: int, kind: bool)
      reads this
    {
      n < LARGE_OBJECT && Of(kind).free + n <= Of(kind).end
    }

    /** gc_alloc_large: allocates outside of the regions unless the object is small and there is room in the region of
        its kind; then it is allocated as a boxed object, whatever its kind. */
    method AllocLarge(n: int, kind: bool) returns (r: Allocation)
      requires Valid() && n > 0
      modifies this, pages, mem, gens
      ensures Valid() && !r.NoRoom? && allocGen == old(allocGen) && recording == old(recording)
      ensures r.At? ==> Gives(r.addr, n, kind && !old(Fits(n, kind)))
      ensures r.At? && n >= LARGE_OBJECT ==> r.addr % PAGE == 0 && pages[r.addr / PAGE].large
      ensures r.At? && !old(Fits(n, kind)) ==> bytesAllocated == old(bytesAllocated) + n
      ensures r.Overflow? ==> Exhausted(n, kind && !old(Fits(n, kind))) && Grew(old(objs), objs)
      decreases kind, 0
    {
      hide RegionOk, HeapOk, PageOk, Evolves, Recorded, Fresh, NoRegion, NoLarge, Gains;
      if n < LARGE_OBJECT && Of(kind).end - Of(kind).free >= n {
        if !kind {
          var addr := Bump(n, false);
          return At(addr);
        }
        r := QuickAlloc(n, false, false);
        return;
      }
      r := AllocOutside(n, kind);
    }

    /** gc_alloc_region: allocates in the region, in a new one, or outside of it. */
    method AllocRegion(n: int, kind: bool) returns (r: Allocation)
      requires Valid() && n > 0
      modifies this, pages, mem, gens
      ensures Valid() && !r.NoRoom? && allocGen == old(allocGen) && recording == old(recording)
      ensures r.At? ==> Gives(r.addr, n, kind)
      ensures r.Overflow? ==> Exhausted(n, kind) && Grew(old(objs), objs)
      decreases kind, 1
    {
      hide RegionOk, HeapOk, PageOk, Evolves, Recorded, Fresh, NoRegion, NoLarge;
      r := TryCurrentRegion(n, kind);
      if !r.NoRoom? {
        return;
      }
      if n >= LARGE_OBJECT {
        r := AllocLarge(n, kind);
        return;
      }
      if Of(kind).end - Of(kind).free > THRESHOLD && StatsOf(kind).consecutive < CONSECUTIVE_LARGE_LIMIT {
        if StatsOf(kind).saved == Of(kind) {
          SetStats(kind, StatsOf(kind).(consecutive := StatsOf(kind).consecutive + 1));
        } else {
          SetStats(kind, Stats(0, 0, Of(kind)));
        }
        r := AllocLarge(n, kind);
        return;
      }
      SetStats(kind, StatsOf(kind).(consecutive := 0, abandoned := StatsOf(kind).abandoned + 1));
      r := RetryInNewRegion(n, kind);
    }

    /** The end of gc_alloc_region: the second attempt cannot fail for want of room. */
    method RetryInNewRegion(n: int, kind: bool) returns (r: Allocation)
      requires Valid() && n > 0
      modifies this, pages, mem, gens
      ensures Valid() && !r.NoRoom? && allocGen == old(allocGen) && recording == old(recording)
      ensures r.At? ==> Gives(r.addr, n, kind)
      ensures r.Overflow? ==> Exhausted(n, kind) && Grew(old(objs), objs)
    {
      hide RegionOk, HeapOk, PageOk, Evolves, Recorded, Fresh, NoRegion, NoLarge;
      ghost var t, m := T(), mem[..];
      var ok := Reopen(n, kind);
      if !ok {
        return Overflow;
      }
      ghost var t1, m1, areas1 := T(), mem[..], areas;
      r := TryCurrentRegion(n, kind);
      assert !r.NoRoom?;
      if r.At? {
        EvolvesTwice(t, t1, T());
        RecordedTwice(t, old(areas), t1, areas1, T(), areas, recording, kind, 0, 0, r.addr, r.addr + n, r.addr,
            r.addr + n);
        SameThenGains(t, t1, T(), r.addr, r.addr + n);
        forall x {:trigger mem[x]} | 0 <= x < mem.Length && t.InUse(x) ensures mem[x] == m[x] {
          assert t1.InUse(x) && m1[x] == m[x];
        }
      }
    }

    /** gc_quick_alloc and gc_quick_alloc_unboxed, and with large set gc_quick_alloc_large and its unboxed version:
        the words are new, zero, and belong to no other object. */
    method QuickAlloc(n: int, kind: bool, large: bool) returns (r: Allocation)
      requires Valid() && n > 0
      modifies this, pages, mem, gens
      ensures Valid() && !r.NoRoom? && allocGen == old(allocGen) && recording == old(recording)
      ensures r.At? ==> Gives(r.addr, n, kind)
      ensures r.Overflow? ==> Exhausted(n, kind) && Grew(old(objs), objs)
      decreases kind, 2
    {
      hide RegionOk, HeapOk, PageOk, Evolves, Recorded, Fresh, NoRegion, NoLarge;
      if large && n >= LARGE_OBJECT {
        r := AllocLarge(n, kind);
        return;
      }
      var newFree := Of(kind).free + n;
      if newFree <= Of(kind).end {
        var addr := Bump(n, kind);
        return At(addr);
      }
      r := AllocRegion(n, kind);
    }
  }
}
