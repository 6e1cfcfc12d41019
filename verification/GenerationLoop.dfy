/** Garbage collections of the heap, collect_garbage in src/lisp/gencgc.c: which generations are collected and raised,
    and what that keeps of the heap, with page protection enabled. */
module GenerationLoop {
  import opened PageTable
  import opened PageObjects
  import opened PageBlocks
  import opened PageGrowth
  import opened PageHeap
  import Gc = PageGc
  import opened PageRuns
  import opened NewAreas
  import opened Newspace
  import opened ConservativeRoots
  import opened WordAccount
  import opened NewspaceMirror
  import opened NewspaceScan
  import opened WriteBarrier
  import opened Resting
  import opened KeptObjects
  import opened LiveObjects
  import opened CollectionStart
  import opened GenerationalCollection

  const MEM_AGE_SCALE := 65536

  /** What struct generation says about when to collect. */
  datatype Policy = Policy(trigger: int, bytesConsed: nat, numGc: nat, triggerAge: int, cumSum: int, minAge: int)

  /** Counts are in words of 32 bits. */
  const FIRST_POLICY := Policy(500000, 500000, 0, 1, 0, 24508)

  /** gen_av_mem_age */
  function AverageAge(bytes: int, p: Policy): int {
    if bytes == 0 then 0 else p.cumSum * MEM_AGE_SCALE / bytes
  }

  /** Whether a generation is raised when it is collected. */
  predicate Raises(p: Policy, gen: int, lastGen: int, oldest: int) {
    gen < oldest && (gen < lastGen || p.numGc >= p.triggerAge)
  }

  /** Whether a generation is collected after the one before it has been. */
  predicate Due(bytes: int, p: Policy, gen: int, lastGen: int, oldest: int, raised: bool) {
    gen <= oldest && (gen < lastGen || (raised && bytes > p.trigger && AverageAge(bytes, p) > p.minAge))
  }

  /** The test of the age, without a division. */
  lemma DueWhen(bytes: int, p: Policy, gen: int, lastGen: int, oldest: int, raised: bool)
    requires bytes > 0
    ensures Due(bytes, p, gen, lastGen, oldest, raised) <==>
              gen <= oldest && (gen < lastGen || (raised && bytes > p.trigger
                                                  && 65536 * p.cumSum >= (p.minAge + 1) * bytes))
  {
    var n, age := 65536 * p.cumSum, AverageAge(bytes, p);
    assert age == n / bytes && n == age * bytes + n % bytes;
    assert (age + 1) * bytes == age * bytes + bytes && 0 <= n % bytes < bytes;
    if age > p.minAge {
      MulAtMost(p.minAge + 1, age, bytes);
      assert n >= (p.minAge + 1) * bytes;
    } else {
      MulAtMost(age + 1, p.minAge + 1, bytes);
      assert n < (p.minAge + 1) * bytes;
    }
  }

  lemma MulAtMost(a: int, b: int, c: int)
    requires a <= b && 0 <= c
    ensures a * c <= b * c
  {
  }

  /** Generation g was collected after the one before it, which was raised, because it was due when it had so many
      bytes; gens and policies are those before the garbage collection. */
  ghost predicate WasDue(gens: seq<Generation>, policies: seq<Policy>, sizes: seq<int>, g: int, lastGen: nat,
        oldest: int)
  {
    && 0 < g < |sizes| && g < |gens| && g < |policies|
    && Due(sizes[g], policies[g].(cumSum := policies[g].cumSum + gens[g].bytes), g, lastGen, oldest, true)
    && g <= oldest && (g <= lastGen || policies[g - 1].numGc >= policies[g - 1].triggerAge)
  }

  ghost predicate AllDue(gens: seq<Generation>, policies: seq<Policy>, sizes: seq<int>, n: int, lastGen: nat,
        oldest: int)
  {
    forall g :: 0 < g < n ==> WasDue(gens, policies, sizes, g, lastGen, oldest)
  }

  lemma DueNext(gens: seq<Generation>, policies: seq<Policy>, sizes: seq<int>, n: int, lastGen: nat, oldest: int,
        size: int)
    requires AllDue(gens, policies, sizes, n, lastGen, oldest) && n <= |sizes|
    ensures AllDue(gens, policies, sizes + [size], n, lastGen, oldest)
  {
    var sizes2 := sizes + [size];
    forall g | 0 < g < n ensures WasDue(gens, policies, sizes2, g, lastGen, oldest) {
      assert WasDue(gens, policies, sizes, g, lastGen, oldest);
      assert sizes2[g] == sizes[g];
    }
  }

  // ---------- Closing the regions ----------

  lemma FlushedRestWord(s: State, s2: State, x: int)
    requires RestOk(s) && s2 == s.(t := s2.t, areas := s2.areas) && Evolves(s.t, s2.t) && SameWords(s.t, s2.t)
    ensures RestWordOk(s2, x)
  {
    hide ObjectsOk, SlackZero, SizesOk, RawOk, PageOk, RegionOk;
    assert RestWordOk(s, x);
    if 0 <= x < |s.m| && s2.t.InUse(x) {
      assert SamePage(s.t, s2.t, x);
      if s.t.ps[x / PAGE].wp && !s.t.ps[x / PAGE].unboxed && x !in s.raw {
        EvolvedOlder(s.t, s2.t, s.objs, s2.objs, s.t.ps[x / PAGE].gen, s.m[x]);
      }
    }
  }

  lemma FlushedOlder(t: Table, t2: Table)
    requires t.Valid() && Evolves(t, t2) && t.gen == 0
    ensures SameOlder(t.ps, t2.ps, 1)
  {
    hide PageOk, RegionOk;
    forall i {:trigger t2.ps[i]} | 0 <= i < |t.ps| && (OfOlder(t.ps[i], 1) || OfOlder(t2.ps[i], 1))
      ensures t2.ps[i] == t.ps[i]
    {
      if OfOlder(t.ps[i], 1) {
        EvolvedUsed(t, t2, i);
      }
    }
  }

  /** Closing the regions keeps what the mutator relies on, and every object is where it was. */
  lemma FlushedRest(s: State, s2: State)
    requires RestOk(s) && s2 == s.(t := s2.t, areas := s2.areas) && Evolves(s.t, s2.t) && SameWords(s.t, s2.t)
    requires s.t.gen == 0
    requires s2.t.Valid() && ObjectsOk(s2.t, s2.objs)
    ensures RestOk(s2) && Kept(s, s2, Still(s.objs)) && SameOlder(s.t.ps, s2.t.ps, 1)
  {
    FlushedOlder(s.t, s2.t);
    hide Evolves, RestWordOk, PageOk, RegionOk, ObjectsOk, RawOk, Kept, SameOlder;
    forall x ensures RestWordOk(s2, x) {
      FlushedRestWord(s, s2, x);
    }
    FlushedSlack(s, s2);
    AllocatedPages(s.t, s2.t);
    EvolvedLength(s.t, s2.t);
    forall a {:trigger a in s2.objs} | a in s2.objs ensures UnboxedAt(s2, a) <==> UnboxedAt(s, a) {
      FirstInUse(s.t, s.objs, a);
      EvolvedBoxed(s.t, s2.t, 0, a);
    }
    KeptStill(s, s2);
  }

  /** Closes the regions before a collection. */
  method FlushIdle(h: Heap)
    requires Idle(h)
    modifies h`boxed, h`unboxed, h`bytesAllocated, h`areas, h.pages, h.gens
    ensures AtRest(h) && Flushed(h.T()) && Kept(old(S(h)), S(h), Still(old(h.objs))) && h.objs == old(h.objs)
    ensures WordsInUse(h.T()) == old(WordsInUse(h.T())) && SameOlder(old(h.pages[..]), h.pages[..], 1)
  {
    hide HeapOk, RestOk, Evolves, Recorded, Kept, SameOlder;
    ghost var s := S(h);
    Gc.Flush(h);
    HeapFacts(h.T(), h.objs, h.gens[..], h.bytesAllocated, h.mem[..]);
    FlushedRest(s, S(h));
  }

  // ---------- Back to the mutator ----------

  /** The table after the last collection, with generation 0 to allocate to and another page after the last one in
      use. */
  ghost predicate Settles(t: Table, t2: Table) {
    && t2 == t.(gen := 0, lastFree := t2.lastFree) && 0 <= t2.lastFree < |t.ps|
    && (forall i {:trigger t.ps[i]} :: t2.lastFree <= i < |t.ps| ==> !t.ps[i].alloc)
  }

  lemma SettledValid(t: Table, t2: Table)
    requires t.Valid() && Flushed(t) && Settles(t, t2)
    ensures t2.Valid() && SameWords(t, t2) && Keeps(t, t2)
  {
    hide PageOk;
  }

  lemma SettledZeroed(t: Table, t2: Table, m: seq<int>)
    requires Settles(t, t2) && SameWords(t, t2) && |m| == (|t.ps| - 1) * PAGE && Zeroed(t, m)
    ensures Zeroed(t2, m)
  {
    forall x {:trigger ZeroAt(t2, m, x)} {:trigger m[x]} | 0 <= x < |m| ensures ZeroAt(t2, m, x) {
      assert ZeroAt(t, m, x);
      assert t2.InUse(x) <==> t.InUse(x);
    }
  }

  lemma SettledObjects(t: Table, t2: Table, objs: map<int, int>)
    requires t.Valid() && Settles(t, t2) && Keeps(t, t2) && ObjectsOk(t, objs)
    ensures ObjectsOk(t2, objs)
  {
    hide PageOk, RegionOk, Placed;
    KeepsPlaced(t, t2, objs);
  }

  lemma SettledTable(t: Table, t2: Table, objs: map<int, int>, gens: seq<Generation>, total: int, m: seq<int>)
    requires HeapOk(t, objs, gens, total, m) && Flushed(t) && Settles(t, t2)
    ensures HeapOk(t2, objs, gens, total, m) && SameWords(t, t2)
  {
    hide PageOk, RegionOk, ObjectsOk, Zeroed, Keeps;
    SettledValid(t, t2);
    SettledObjects(t, t2, objs);
    SettledZeroed(t, t2, m);
  }

  lemma SettledRest(s: State, s2: State)
    requires RestOk(s) && Flushed(s.t) && Settles(s.t, s2.t) && s2 == s.(t := s2.t)
    requires s2.t.Valid() && ObjectsOk(s2.t, s2.objs) && SameWords(s.t, s2.t)
    ensures RestOk(s2) && Kept(s, s2, Still(s.objs))
  {
    hide ObjectsOk, PageOk, RegionOk, Kept;
    forall x ensures RestWordOk(s2, x) {
      assert RestWordOk(s, x);
    }
    KeptStill(s, s2);
  }

  /** update_dynamic_space_free_pointer: the page after the last one in use. */
  method LastFree(h: Heap) returns (next: int)
    requires h.pages.Length > 0 && h.T().Valid() && Flushed(h.T())
    ensures 0 <= next < h.pages.Length
    ensures forall i {:trigger h.pages[i]} :: next <= i < h.pages.Length ==> !h.pages[i].alloc
  {
    hide RegionOk;
    var last := -1;
    var i := 0;
    while i < h.pages.Length - 1
      invariant 0 <= i <= h.pages.Length - 1 && -1 <= last < i
      invariant forall j {:trigger h.pages[j]} :: last < j < i ==> !h.pages[j].alloc
    {
      if h.pages[i].alloc && h.pages[i].used != 0 {
        last := i;
      }
      i := i + 1;
    }
    next := last + 1;
  }

  /** The end of collect_garbage: what the mutator allocates goes to generation 0 again. */
  method Settle(h: Heap)
    requires AtRest(h) && Flushed(h.T()) && h.recording.Off?
    modifies h`allocGen, h`lastFree
    ensures Idle(h) && h.boxed.free == h.boxed.start && Kept(old(S(h)), S(h), Still(old(h.objs)))
    ensures S(h) == old(S(h)).(t := old(h.T()).(gen := 0, lastFree := h.lastFree))
  {
    hide HeapOk, RestOk, Kept;
    ghost var s := S(h);
    HeapFacts(s.t, s.objs, h.gens[..], h.bytesAllocated, s.m);
    var next := LastFree(h);
    h.allocGen := 0;
    h.lastFree := next;
    SettledTable(s.t, h.T(), h.objs, h.gens[..], h.bytesAllocated, h.mem[..]);
    HeapFacts(h.T(), h.objs, h.gens[..], h.bytesAllocated, h.mem[..]);
    SettledRest(s, S(h));
  }

  // ---------- Older generations ----------

  /** No generation after the n-th one has pages in use. */
  ghost predicate NoneOlder(ps: seq<Page>, n: int) {
    forall i {:trigger ps[i]} :: 0 <= i < |ps| ==> !(n >= 0 && OfOlder(ps[i], n + 1))
  }

  lemma NoneOlderStays(ps: seq<Page>, ps2: seq<Page>, n: nat, top: int)
    requires SameOlder(ps, ps2, n) && n <= top + 1 && NoneOlder(ps, top)
    ensures NoneOlder(ps2, top)
  {
    forall i {:trigger ps2[i]} | 0 <= i < |ps2| ensures !(top >= 0 && OfOlder(ps2[i], top + 1)) {
      assert ps[i] == ps[i];
    }
  }

  lemma FlagsOlder(ps: seq<Page>, ps2: seq<Page>, n: nat)
    requires |ps2| == |ps|
    requires forall i {:trigger ps2[i]} :: 0 <= i < |ps| ==> ps2[i] == ps[i].(wp := ps2[i].wp)
    ensures SameOlder(ps, ps2, n)
  {
  }

  // ---------- The collections ----------

  /** Roots follow objects that stay where they are by staying the same. */
  lemma RootsStill(s: State, s2: State, roots: seq<int>)
    requires RootsOk(s, roots) && s2.objs == s.objs && |s2.t.ps| == |s.t.ps|
    ensures RootsKept(s, s2, Still(s.objs), roots, roots) && RootsOk(s2, roots)
  {
  }

  /** How it is after some generations have been collected: nothing of s0 has been lost and nothing has come into being,
      all generations below n are empty, and generation m and older ones have not been touched. */
  ghost predicate Underway(h: Heap, n: nat, m: nat, s0: State, loc: map<int, int>, stack: seq<StackWord>,
        roots0: seq<int>, roots: seq<int>)
    reads h, h.pages, h.mem, h.gens
  {
    && AtRest(h) && Flushed(h.T()) && h.recording.Off? && NoneYounger(h.pages[..], n)
    && Kept(s0, S(h), loc) && OlderStays(s0, S(h), loc, m) && RootsKept(s0, S(h), loc, roots0, roots)
    && RootsOk(S(h), roots) && StackKept(s0, stack, loc) && AllLocated(S(h), loc)
    && |WordsInUse(h.T())| <= |WordsInUse(s0.t)| && RestOk(s0) && s0.t.gen == 0
  }

  /** at is the heap when generation last was collected, the last one, and locAt says where the objects were then: of
      the generations up to that one only what could be reached is left. */
  ghost predicate LastCollected(s0: State, at: State, locAt: map<int, int>, s: State, loc: map<int, int>, last: nat,
        stack: seq<StackWord>, roots0: seq<int>)
  {
    && Kept(s0, at, locAt) && OlderStays(s0, at, locAt, last + 1) && AllLocated(at, locAt)
    && OnlyReached(s0, s, loc, last, Before(locAt, PinnedObjects(at, last, stack)), roots0)
  }

  /** Without valid words on the stack nothing is pinned. */
  lemma NothingPinned(s: State, loc: map<int, int>, n: nat, stack: seq<StackWord>)
    requires forall k {:trigger stack[k]} :: 0 <= k < |stack| ==> !stack[k].valid
    ensures Before(loc, PinnedObjects(s, n, stack)) == {}
  {
  }

  /** What was so before the last collection, and is so after it. */
  lemma ReachedTogether(s0: State, s1: State, s2: State, loc1: map<int, int>, loc2: map<int, int>, gen: nat,
        stack: seq<StackWord>, r0: seq<int>, r1: seq<int>)
    requires RestOk(s0) && RestOk(s1) && s0.t.gen == 0 && Flushed(s1.t)
    requires Kept(s0, s1, loc1) && OlderStays(s0, s1, loc1, gen + 1) && RootsKept(s0, s1, loc1, r0, r1)
    requires AllLocated(s1, loc1) && Kept(s1, s2, loc2)
    requires OnlyReached(s1, s2, loc2, gen, PinnedObjects(s1, gen, stack), r1)
    ensures LastCollected(s0, s1, loc1, s2, Then(loc1, loc2), gen, stack, r0)
  {
    hide RestOk, Kept, OlderStays, RootsKept, AllLocated, OnlyReached, PinnedObjects;
    OnlyReachedThen(s0, s1, s2, loc1, loc2, gen, PinnedObjects(s1, gen, stack), r0, r1);
  }

  lemma OnlyReachedLocated(s0: State, s: State, loc: map<int, int>, n: nat, pinned: set<int>, roots: seq<int>)
    requires OnlyReached(s0, s, loc, n, pinned, roots)
    ensures AllLocated(s, loc)
  {
  }

  lemma LocatedStill(s: State)
    ensures AllLocated(s, Still(s.objs))
  {
    forall b {:trigger b in s.objs} | b in s.objs
      ensures exists a {:trigger a in Still(s.objs)} :: a in Still(s.objs) && Still(s.objs)[a] == b
    {
      assert b in Still(s.objs);
    }
  }

  /** What is left is left still if nothing moves. */
  lemma LastStill(s0: State, s1: State, s2: State, loc: map<int, int>)
    requires Kept(s0, s1, loc) && s2.objs == s1.objs
    ensures forall at, locAt, last, stack, roots0 :: LastCollected(s0, at, locAt, s1, loc, last, stack, roots0) ==>
              LastCollected(s0, at, locAt, s2, Then(loc, Still(s1.objs)), last, stack, roots0)
  {
    hide Kept, OlderStays, AllLocated, OnlyReached, PinnedObjects;
    forall at, locAt, last, stack, roots0 | LastCollected(s0, at, locAt, s1, loc, last, stack, roots0)
      ensures LastCollected(s0, at, locAt, s2, Then(loc, Still(s1.objs)), last, stack, roots0)
    {
      OnlyReachedStill(s0, s1, s2, loc, last, Before(locAt, PinnedObjects(at, last, stack)), roots0);
    }
  }

  lemma RoundDone(s0: State, s1: State, s2: State, loc1: map<int, int>, loc2: map<int, int>, m: nat, m1: nat, m2: nat,
        stack: seq<StackWord>, r0: seq<int>, r1: seq<int>, r2: seq<int>)
    requires Kept(s0, s1, loc1) && OlderStays(s0, s1, loc1, m1) && RootsKept(s0, s1, loc1, r0, r1)
    requires Kept(s1, s2, loc2) && OlderStays(s1, s2, loc2, m2) && RootsKept(s1, s2, loc2, r1, r2) && m1 <= m && m2 <= m
    requires StackKept(s0, stack, loc1) && StackKept(s1, stack, loc2)
    ensures StackKept(s0, stack, Then(loc1, loc2))
    ensures Kept(s0, s2, Then(loc1, loc2)) && OlderStays(s0, s2, Then(loc1, loc2), m)
    ensures RootsKept(s0, s2, Then(loc1, loc2), r0, r2)
  {
    hide Kept, OlderStays, RootsKept, StackKept;
    StackThen(s0, s1, stack, loc1, loc2);
    KeptThen(s0, s1, s2, loc1, loc2);
    OlderMore(s0, s1, loc1, m1, m);
    OlderMore(s1, s2, loc2, m2, m);
    OlderThen(s0, s1, s2, loc1, loc2, m);
    RootsThen(s0, s1, s2, loc1, loc2, r0, r1, r2);
  }

  /** The write-protected pages of the generation are all its boxed pages. */
  ghost predicate AllProtectedIn(ps: seq<Page>, gen: int) {
    forall i {:trigger ps[i]} :: 0 <= i < |ps| && 0 <= gen && NewPage(ps[i], gen) ==> ps[i].wp
  }

  /** The generations below n have no bytes. */
  ghost predicate EmptyBelow(gens: seq<Generation>, n: int) {
    forall i {:trigger gens[i]} :: 0 <= i < n && i < |gens| ==> gens[i].bytes == 0
  }

  lemma NoneYoungerEmpty(t: Table, objs: map<int, int>, gens: seq<Generation>, total: int, m: seq<int>, n: nat)
    requires HeapOk(t, objs, gens, total, m) && NoneYounger(t.ps, n)
    ensures EmptyBelow(gens, n)
  {
    hide PageOk, RegionOk, ObjectsOk, Zeroed;
    forall i {:trigger gens[i]} | 0 <= i < n && i < |gens| ensures gens[i].bytes == 0 {
      NoPagesNoBytes(t.ps, i, |t.ps|);
    }
  }

  /** The beginning of collect_garbage: the regions are closed. */
  method Begin(h: Heap, ghost stack: seq<StackWord>, ghost roots: seq<int>)
    requires Idle(h) && RootsOk(S(h), roots)
    modifies h`boxed, h`unboxed, h`bytesAllocated, h`areas, h.pages, h.gens
    ensures Underway(h, 0, 1, old(S(h)), Still(old(h.objs)), stack, roots, roots)
  {
    hide OutOfMemory, HeapOk, RestOk, Kept, SameOlder, WordsInUse, RootsKept, RootsOk;
    ghost var s := S(h);
    FlushIdle(h);
    OlderStill(s, S(h), 1);
    StackStill(s, stack);
    KeptLength(s, S(h), Still(s.objs));
    RootsStill(s, S(h), roots);
    LocatedStill(S(h));
  }

  lemma KeptLength(s: State, s2: State, loc: map<int, int>)
    requires Kept(s, s2, loc)
    ensures |s2.t.ps| == |s.t.ps|
  {
  }

  /** Write protecting pages moves nothing. */
  lemma ProtectedKept(s: State, s2: State, m: nat)
    requires RestOk(s) && |s2.t.ps| == |s.t.ps| && s2 == s.(t := s.t.(ps := s2.t.ps))
    requires forall i {:trigger s2.t.ps[i]} :: 0 <= i < |s.t.ps| ==> s2.t.ps[i] == s.t.ps[i].(wp := s2.t.ps[i].wp)
    ensures Kept(s, s2, Still(s.objs)) && OlderStays(s, s2, Still(s.objs), m) && WordsInUse(s2.t) == WordsInUse(s.t)
  {
    hide RestOk, Kept;
    KeptStill(s, s2);
    OlderStill(s, s2, m);
  }

  lemma SettledKept(s: State, s2: State, m: nat)
    requires s2 == s.(t := s.t.(gen := 0, lastFree := s2.t.lastFree))
    ensures OlderStays(s, s2, Still(s.objs), m) && WordsInUse(s2.t) == WordsInUse(s.t)
  {
    OlderStill(s, s2, m);
  }

  /** The end of collect_garbage: the pages of a generation that has no younger ones left are write protected. */
  method End(h: Heap, toProtect: nat, ghost m: nat, ghost s0: State, ghost loc: map<int, int>,
        ghost stack: seq<StackWord>, ghost roots0: seq<int>, ghost roots: seq<int>) returns (ghost loc2: map<int, int>)
    requires Underway(h, toProtect, m, s0, loc, stack, roots0, roots) && toProtect < NUM_GENERATIONS && m > 0
    modifies h`allocGen, h`lastFree, h.pages
    ensures Idle(h) && Flushed(h.T()) && h.boxed.free == h.boxed.start && NoneYounger(h.pages[..], toProtect)
    ensures Kept(s0, S(h), loc2) && OlderStays(s0, S(h), loc2, m) && RootsKept(s0, S(h), loc2, roots0, roots)
    ensures RootsOk(S(h), roots) && StackKept(s0, stack, loc2)
    ensures |WordsInUse(h.T())| <= |WordsInUse(s0.t)|
    ensures toProtect > 0 ==> AllProtectedIn(h.pages[..], toProtect)
    ensures forall at, locAt, last, words :: LastCollected(s0, at, locAt, old(S(h)), loc, last, words, roots0) ==>
              LastCollected(s0, at, locAt, S(h), loc2, last, words, roots0)
    ensures SameOlder(old(h.pages[..]), h.pages[..], 0)
  {
    hide SameOlder, OutOfMemory, HeapOk, RestOk, Kept, OlderStays, WordsInUse, RootsKept, RootsOk, StackKept,
      AllLocated, LastCollected;
    ghost var s := S(h);
    if toProtect > 0 {
      WriteProtectGeneration(h, toProtect);
    }
    ghost var s1 := S(h);
    ProtectedKept(s, s1, m);
    FlagsOlder(s.t.ps, s1.t.ps, 0);
    StackStill(s, stack);
    RootsStill(s, s1, roots);
    RoundDone(s0, s, s1, loc, Still(s.objs), m, m, m, stack, roots0, roots, roots);
    LastStill(s0, s, s1, loc);
    Settle(h);
    SettledKept(s1, S(h), m);
    StackStill(s1, stack);
    RootsStill(s1, S(h), roots);
    RoundDone(s0, s1, S(h), Then(loc, Still(s.objs)), Still(s.objs), m, m, m, stack, roots0, roots, roots);
    LastStill(s0, s1, S(h), Then(loc, Still(s.objs)));
    loc2 := Then(Then(loc, Still(s.objs)), Still(s.objs));
  }

  /** What else the header of an object says: whether it is promoted if it is large, and whether it is a vector or
      bignum, which is cut to its size when it is pinned. */
  datatype HeaderType = HeaderType(vector: bool, adjusted: bool)

  /** What the headers of the objects say. */
  method Headers(h: Heap, types: int -> HeaderType) returns (shapes: map<int, Shape>)
    ensures ShapesOk(S(h), shapes)
  {
    shapes := map a | a in h.objs ::
      Shape(h.objs[a] - a, IsUnboxed(h.pages[..], h.raw, a), types(a).vector, types(a).adjusted);
  }

  class Generations {
    const policies: array<Policy>
    var oldest: int

    /** gc_init: a generation is collected when 2000000 bytes have been allocated since. */
    constructor ()
      ensures Valid() && fresh(policies) && oldest == 3
      ensures forall g {:trigger policies[g]} :: 0 <= g < policies.Length ==> policies[g] == FIRST_POLICY
    {
      policies := new Policy[NUM_GENERATIONS + 1](_ => FIRST_POLICY);
      oldest := 3;
    }

    /** The oldest generation to be collected is one. */
    ghost predicate Valid()
      reads this
    {
      policies.Length == NUM_GENERATIONS + 1 && 0 <= oldest < NUM_GENERATIONS
    }

    /** set_max_gen_to_gc */
    method SetMaxGenToGc(gen: int) returns (previous: int)
      requires Valid()
      modifies `oldest
      ensures Valid() && previous == old(oldest)
      ensures (0 <= gen < NUM_GENERATIONS ==> oldest == gen) && (gen < 0 ==> oldest == 0)
      ensures gen >= NUM_GENERATIONS ==> oldest == NUM_GENERATIONS - 1
    {
      previous := oldest;
      if gen < 0 {
        oldest := 0;
      } else if gen >= NUM_GENERATIONS - 1 {
        oldest := NUM_GENERATIONS - 1;
      } else {
        oldest := gen;
      }
    }

    /** Collects one generation and counts that. */
    method CollectOne(h: Heap, gen: nat, raise: bool, types: int -> HeaderType, stack: seq<StackWord>,
          roots: array<int>)
        returns (ok: bool, ghost loc: map<int, int>)
      requires Valid() && AtRest(h) && Flushed(h.T()) && h.recording.Off? && NoneYounger(h.pages[..], gen)
      requires gen < NUM_GENERATIONS && (gen == NUM_GENERATIONS - 1 ==> !raise) && roots != h.mem
      requires RootsOk(S(h), roots[..])
      modifies h, h.pages, h.mem, h.gens, roots, policies
      ensures h.Valid() && (ok ==> AtRest(h) && Flushed(h.T()) && h.recording.Off?)
      ensures ok ==> NoneYounger(h.pages[..], if raise then gen + 1 else gen)
      ensures !ok ==> OutOfMemory(h)
      ensures ok ==> Kept(old(S(h)), S(h), loc) && RootsKept(old(S(h)), S(h), loc, old(roots[..]), roots[..])
      ensures ok ==> RootsOk(S(h), roots[..]) && StackKept(old(S(h)), stack, loc)
      ensures ok ==> OlderStays(old(S(h)), S(h), loc, if raise then gen + 2 else gen + 1)
      ensures ok ==> |WordsInUse(h.T())| <= |old(WordsInUse(h.T()))|
      ensures ok ==>
        OnlyReached(old(S(h)), S(h), loc, gen, PinnedObjects(old(S(h)), gen, stack), old(roots[..]))
      ensures ok ==> policies[gen].trigger == h.gens[gen].bytes + policies[gen].bytesConsed
      ensures ok ==>
        policies[gen] == old(policies[gen]).(trigger := policies[gen].trigger,
            numGc := if raise then 0 else old(policies[gen].numGc) + 1)
      ensures forall i {:trigger policies[i]} ::
        0 <= i < policies.Length && i != gen ==> policies[i] == old(policies[i])
    {
      hide OutOfMemory, HeapOk, RestOk, Kept, OlderStays, RootsKept, RootsOk, StackKept, ShapesOk, WordsInUse,
        OnlyReached, PinnedObjects;
      var shapes := Headers(h, types);
      ok, loc := CollectGeneration(h, gen, raise, shapes, stack, roots);
      if ok {
        policies[gen] := policies[gen].(trigger := h.gens[gen].bytes + policies[gen].bytesConsed);
        policies[gen] := policies[gen].(numGc := if raise then 0 else policies[gen].numGc + 1);
      }
    }

    /** One turn of the loop: generation gen, which has no younger ones, is collected, and the next one is collected too
        unless it is not due. */
    method Turn(h: Heap, gen: nat, lastGen: nat, types: int -> HeaderType, stack: seq<StackWord>,
          roots: array<int>, ghost firm: seq<StackWord>, ghost s0: State, ghost loc: map<int, int>,
          ghost roots0: seq<int>)
        returns (ok: bool, raise: bool, ghost loc2: map<int, int>)
      requires Valid() && gen <= oldest && roots != h.mem && Covers(stack, firm)
      requires Underway(h, gen, gen + 1, s0, loc, firm, roots0, roots[..])
      modifies h, h.pages, h.mem, h.gens, roots, policies
      ensures h.Valid()
      ensures raise <==> gen < oldest && (gen < lastGen || old(policies[gen].numGc >= policies[gen].triggerAge))
      ensures ok ==>
        policies[gen] == old(policies[gen]).(trigger := h.gens[gen].bytes + old(policies[gen].bytesConsed),
            numGc := if raise then 0 else old(policies[gen].numGc) + 1, cumSum := 0)
      ensures raise ==>
        policies[gen + 1] == old(policies[gen + 1]).(
            cumSum := old(policies[gen + 1].cumSum + h.gens[gen + 1].bytes))
      ensures !ok ==> OutOfMemory(h)
      ensures ok ==> Underway(h, if raise then gen + 1 else gen, gen + 2, s0, loc2, firm, roots0, roots[..])
      ensures ok ==> LastCollected(s0, old(S(h)), loc, S(h), loc2, gen, stack, roots0)
      ensures ok && NoneOlder(old(h.pages[..]), oldest) ==> NoneOlder(h.pages[..], oldest)
      ensures forall i {:trigger policies[i]} ::
        0 <= i < policies.Length && i != gen && (i != gen + 1 || !raise) ==> policies[i] == old(policies[i])
    {
      hide OutOfMemory, HeapOk, RestOk, Kept, OlderStays, RootsKept, RootsOk, StackKept, WordsInUse, AllLocated,
        OnlyReached, PinnedObjects, NoneOlder, SameOlder;
      loc2 := loc;
      ghost var s1, r1 := S(h), roots[..];
      AtRestValid(h);
      raise := Raises(policies[gen], gen, lastGen, oldest);
      if raise {
        policies[gen + 1] := policies[gen + 1].(cumSum := policies[gen + 1].cumSum + h.gens[gen + 1].bytes);
      }
      ghost var loc1;
      ok, loc1 := CollectOne(h, gen, raise, types, stack, roots);
      if !ok {
        return;
      }
      policies[gen] := policies[gen].(cumSum := 0);
      OlderPages(s1, S(h), loc1, if raise then gen + 2 else gen + 1);
      if NoneOlder(s1.t.ps, oldest) {
        NoneOlderStays(s1.t.ps, h.pages[..], if raise then gen + 2 else gen + 1, oldest);
      }
      StackLess(s1, stack, firm, loc1);
      RoundDone(s0, s1, S(h), loc, loc1, gen + 2, gen + 1, if raise then gen + 2 else gen + 1, firm, roots0, r1,
          roots[..]);
      loc2 := Then(loc, loc1);
      ReachedTogether(s0, s1, S(h), loc, loc1, gen, stack, roots0, r1);
      OnlyReachedLocated(s0, S(h), loc2, gen, Before(loc, PinnedObjects(s1, gen, stack)), roots0);
    }

    /** The loop of collect_garbage: the generations from 0 on are collected, until one is not raised or the next one
        need not be collected. */
    method Turns(h: Heap, lastGen: nat, types: (int, int) -> HeaderType, stack: int -> seq<StackWord>,
          roots: array<int>, ghost firm: seq<StackWord>, ghost s0: State, ghost loc0: map<int, int>,
          ghost roots0: seq<int>, ghost gens0: seq<Generation>, ghost total0: int)
        returns (ok: bool, last: nat, raised: bool, ghost loc: map<int, int>, ghost at: State,
          ghost locAt: map<int, int>, ghost sizes: seq<int>)
      requires HeapOk(s0.t, s0.objs, gens0, total0, s0.m)
      requires forall g {:trigger stack(g)} :: Covers(stack(g), firm)
      requires Valid() && roots != h.mem && Underway(h, 0, 1, s0, loc0, firm, roots0, roots[..])
      modifies h, h.pages, h.mem, h.gens, roots, policies
      ensures h.Valid() && last <= oldest && (raised ==> last < oldest)
      ensures !ok ==> OutOfMemory(h)
      ensures ok ==> Underway(h, if raised then last + 1 else last, last + 2, s0, loc, firm, roots0, roots[..])
      ensures ok ==> LastCollected(s0, at, locAt, S(h), loc, last, stack(last), roots0)
      ensures ok && NoneOlder(old(h.pages[..]), oldest) ==> NoneOlder(h.pages[..], oldest)
      ensures ok ==> AllDue(gens0, old(policies[..]), sizes, last + 1, lastGen, oldest)
      ensures ok ==> Stops(h.gens[..], policies[..], oldest, lastGen, last, raised)
      ensures |policies[..]| == |old(policies[..])|
      ensures forall i {:trigger policies[i]} :: last + 2 <= i < policies.Length ==> policies[i] == old(policies[i])
    {
      hide OutOfMemory, HeapOk, RestOk, Kept, OlderStays, RootsKept, RootsOk, StackKept, WordsInUse, NoneYounger,
        AllLocated, LastCollected, NoneOlder, SameCounts, AllDue, AverageAge;
      var gen, more := 0, true;
      at, locAt, sizes := S(h), loc0, [0];
      NoneDue(gens0, policies[..], lastGen, oldest);
      ok, last, raised, loc := true, 0, true, loc0;
      UnderwayValid(h, 0, 1, s0, loc, firm, roots0, roots[..]);
      while more
        invariant Valid() && 0 <= gen <= oldest + 1 && (raised ==> gen <= oldest) && (more ==> raised)
        invariant !raised ==> gen > 0
        invariant Underway(h, if raised then gen else gen - 1, gen + 1, s0, loc, firm, roots0, roots[..]) && h.Valid()
        invariant NoneOlder(old(h.pages[..]), oldest) ==> NoneOlder(h.pages[..], oldest)
        invariant |sizes| == gen + 1 && (more ==> policies[gen] == old(policies[gen]).(cumSum := policies[gen].cumSum))
        invariant AllDue(gens0, old(policies[..]), sizes, if more then gen + 1 else gen, lastGen, oldest)
        invariant !more ==> LastCollected(s0, at, locAt, S(h), loc, last, stack(last), roots0)
        invariant !more ==> gen == last + 1 && Stops(h.gens[..], policies[..], oldest, lastGen, last, raised)
        invariant forall i {:trigger policies[i]} :: gen + 1 <= i < policies.Length ==> policies[i] == old(policies[i])
        decreases oldest + 1 - gen, more
      {
        var g := gen;
        at, locAt := S(h), loc;
        OlderCounts(s0, S(h), loc, gens0, total0, h.gens[..], h.bytesAllocated, gen + 1);
        CountsAt(gens0, h.gens[..], gen + 1);
        ok, raised, loc := Turn(h, gen, lastGen, a => types(g, a), stack(g), roots, firm, s0, loc, roots0);
        last := gen;
        if !ok {
          return;
        }
        gen := gen + 1;
        UnderwayValid(h, if raised then gen else gen - 1, gen + 1, s0, loc, firm, roots0, roots[..]);
        more := gen <= oldest && Due(h.gens[gen].bytes, policies[gen], gen, lastGen, oldest, raised);
        DueNext(gens0, old(policies[..]), sizes, gen, lastGen, oldest, h.gens[gen].bytes);
        sizes := sizes + [h.gens[gen].bytes];
        if more {
          DueNow(gens0, old(policies[..]), sizes, gen, lastGen, oldest);
        }
      }
    }

    /** collect_garbage: nothing that is left has lost its contents, generations that are older than those collected are
        not touched, of the others only what can be reached is left, and no more words are in use than before. stack(g)
        is the control stack when generation g is collected; what the words of firm point into, which are valid each
        time, stays where it is. The results are the generation whose pages are write protected, as all before it are
        empty, and the last one collected, with the heap as it was then; every one but generation 0 was due when it was
        collected, with the size that it had then. */
    method CollectGarbage(h: Heap, lastGen0: nat, types: (int, int) -> HeaderType,
          stack: int -> seq<StackWord>, roots: array<int>, ghost firm: seq<StackWord>)
        returns (ok: bool, toProtect: nat, last: nat, ghost loc: map<int, int>, ghost at: State,
          ghost locAt: map<int, int>, ghost sizes: seq<int>)
      requires Valid() && Idle(h) && roots != h.mem && RootsOk(S(h), roots[..])
      requires forall g {:trigger stack(g)} :: Covers(stack(g), firm)
      modifies h, h.pages, h.mem, h.gens, roots, policies
      ensures h.Valid() && last <= oldest && toProtect <= oldest && (toProtect == last || toProtect == last + 1)
      ensures !ok ==> OutOfMemory(h)
      ensures ok ==> Idle(h) && RootsOk(S(h), roots[..]) && NoneYounger(h.pages[..], toProtect)
      ensures ok ==> StackKept(old(S(h)), firm, loc)
      ensures ok ==> Kept(old(S(h)), S(h), loc) && RootsKept(old(S(h)), S(h), loc, old(roots[..]), roots[..])
      ensures ok ==> OlderStays(old(S(h)), S(h), loc, last + 2) && SameCounts(old(h.gens[..]), h.gens[..], last + 2)
      ensures ok ==> LastCollected(old(S(h)), at, locAt, S(h), loc, last, stack(last), old(roots[..]))
      ensures ok && NoneOlder(old(h.pages[..]), oldest) ==> NoneOlder(h.pages[..], oldest)
      ensures ok ==> h.bytesAllocated == |WordsInUse(h.T())| <= |old(WordsInUse(h.T()))|
      ensures ok ==> EmptyBelow(h.gens[..], toProtect) && (toProtect > 0 ==> AllProtectedIn(h.pages[..], toProtect))
      ensures ok ==> Stops(h.gens[..], policies[..], oldest, LastGen(lastGen0), last, toProtect == last + 1)
      ensures ok ==> AllDue(old(h.gens[..]), old(policies[..]), sizes, last + 1, LastGen(lastGen0), oldest)
      ensures forall i {:trigger policies[i]} :: last + 2 <= i < policies.Length ==> policies[i] == old(policies[i])
    {
      hide OutOfMemory, HeapOk, RestOk, Kept, OlderStays, RootsKept, RootsOk, StackKept, WordsInUse, NoneYounger,
        Stops, LastCollected, AllLocated, NoneOlder, SameOlder, AllDue, SameCounts, EmptyBelow, AllProtectedIn;
      ghost var s0, roots0, gens0, total0 := S(h), roots[..], h.gens[..], h.bytesAllocated;
      AtRestValid(h);
      toProtect, last := 0, 0;
      Begin(h, firm, roots[..]);
      OlderPages(s0, S(h), Still(s0.objs), 1);
      if NoneOlder(s0.t.ps, oldest) {
        NoneOlderStays(s0.t.ps, h.pages[..], 1, oldest);
      }
      var raised;
      ok, last, raised, loc, at, locAt, sizes :=
        Turns(h, LastGen(lastGen0), types, stack, roots, firm, s0, Still(s0.objs), roots0, gens0, total0);
      toProtect := if raised then last + 1 else last;
      if ok {
        ghost var gens, ps := h.gens[..], h.pages[..];
        loc := End(h, toProtect, last + 2, s0, loc, firm, roots0, roots[..]);
        if NoneOlder(ps, oldest) {
          NoneOlderStays(ps, h.pages[..], 0, oldest);
        }
        AtRestValid(h);
        OlderPages(s0, S(h), loc, last + 2);
        Counters(s0.t, s0.objs, gens0, total0, s0.m, h.T(), h.objs, h.gens[..], h.bytesAllocated, h.mem[..], last + 2);
        NoneYoungerEmpty(h.T(), h.objs, h.gens[..], h.bytesAllocated, h.mem[..], toProtect);
      }
    }
  }

  /** An argument that is too large stands for generation 0. */
  function LastGen(lastGen: nat): nat {
    if lastGen > NUM_GENERATIONS then 0 else lastGen
  }

  /** Why the generation after the last one has not been collected: the last one is the oldest that may be, or it need
      not be. */
  ghost predicate Stops(gens: seq<Generation>, policies: seq<Policy>, oldest: int, lastGen: nat, last: nat,
        raised: bool)
  {
    && last <= oldest < NUM_GENERATIONS && last + 1 < |gens| && last + 1 < |policies|
    && (raised ==> last < oldest) && (last < oldest && lastGen <= oldest ==> lastGen <= last + 1)
    && (lastGen > oldest ==> last == oldest)
    && (last < oldest ==> !Due(gens[last + 1].bytes, policies[last + 1], last + 1, lastGen, oldest, raised))
    && (!raised && lastGen <= oldest ==> lastGen <= last)
  }

  lemma NoneDue(gens: seq<Generation>, policies: seq<Policy>, lastGen: nat, oldest: int)
    ensures AllDue(gens, policies, [0], 1, lastGen, oldest)
  {
  }

  lemma DueNow(gens: seq<Generation>, policies: seq<Policy>, sizes: seq<int>, g: int, lastGen: nat, oldest: int)
    requires AllDue(gens, policies, sizes, g, lastGen, oldest) && WasDue(gens, policies, sizes, g, lastGen, oldest)
    ensures AllDue(gens, policies, sizes, g + 1, lastGen, oldest)
  {
  }

  lemma OlderCounts(s0: State, s: State, loc: map<int, int>, gens0: seq<Generation>, total0: int,
        gens: seq<Generation>, total: int, n: nat)
    requires HeapOk(s0.t, s0.objs, gens0, total0, s0.m) && HeapOk(s.t, s.objs, gens, total, s.m) && Flushed(s.t)
    requires OlderStays(s0, s, loc, n)
    ensures SameCounts(gens0, gens, n)
  {
    hide HeapOk, SameOlder, SameCounts;
    OlderPages(s0, s, loc, n);
    Counters(s0.t, s0.objs, gens0, total0, s0.m, s.t, s.objs, gens, total, s.m, n);
  }

  lemma CountsAt(gens: seq<Generation>, gens2: seq<Generation>, n: nat)
    requires SameCounts(gens, gens2, n)
    ensures |gens2| == |gens| && (n < NUM_GENERATIONS && n < |gens| ==> gens2[n].bytes == gens[n].bytes)
  {
  }

  /** Generation n and older ones have as many bytes as before. */
  ghost predicate SameCounts(gens: seq<Generation>, gens2: seq<Generation>, n: nat) {
    |gens2| == |gens| && forall g {:trigger gens2[g]} :: n <= g < NUM_GENERATIONS && g < |gens| ==>
        gens2[g].bytes == gens[g].bytes
  }

  lemma Counters(t0: Table, objs0: map<int, int>, gens0: seq<Generation>, total0: int, m0: seq<int>,
                t: Table, objs: map<int, int>, gens: seq<Generation>, total: int, m: seq<int>, n: nat)
    requires HeapOk(t0, objs0, gens0, total0, m0) && HeapOk(t, objs, gens, total, m) && Flushed(t)
    requires SameOlder(t0.ps, t.ps, n)
    ensures SameCounts(gens0, gens, n) && total == |WordsInUse(t)|
  {
    hide ObjectsOk, RegionOk, Zeroed, Bytes;
    forall i {:trigger t0.ps[i]} {:trigger t.ps[i]} | 0 <= i < |t0.ps| && i < |t.ps|
      ensures t0.ps[i].used >= 0 && t.ps[i].used >= 0
    {
      assert PageOk(t0.ps, i) && PageOk(t.ps, i);
    }
    forall g {:trigger gens[g]} | n <= g < NUM_GENERATIONS && g < |gens0| ensures gens[g].bytes == gens0[g].bytes {
      OlderBytes(t0.ps, t.ps, n, g);
    }
    BytesInUse(t);
  }

  lemma OlderPages(s0: State, s: State, loc: map<int, int>, n: nat)
    requires OlderStays(s0, s, loc, n)
    ensures SameOlder(s0.t.ps, s.t.ps, n)
  {
  }

  lemma BytesInUse(t: Table)
    requires t.Valid() && Flushed(t)
    ensures Bytes(t.ps, ALL) == |WordsInUse(t)|
  {
    hide PageOk, RegionOk;
    WordsCounted(t, |t.ps| - 1);
    assert WordsInUse(t) == FirstWords(t, |t.ps| - 1);
    assert Count(t.ps[|t.ps| - 1], ALL) == 0;
  }

  lemma UnderwayValid(h: Heap, n: nat, m: nat, s0: State, loc: map<int, int>, stack: seq<StackWord>,
        roots0: seq<int>, roots: seq<int>)
    requires Underway(h, n, m, s0, loc, stack, roots0, roots)
    ensures h.Valid() && h.gens.Length == NUM_GENERATIONS + 1
  {
  }

  lemma AtRestValid(h: Heap)
    requires AtRest(h)
    ensures h.Valid() && h.gens.Length == NUM_GENERATIONS + 1 && RestOk(S(h))
  {
  }
}
