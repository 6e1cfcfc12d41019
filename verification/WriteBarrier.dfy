/** Page write protection in the generational collector, src/lisp/gencgc.c: a protected page refers to no younger
    generation, so that scavenge_generation may leave it out. */
module WriteBarrier {
  import opened PageTable
  import opened PageObjects
  import opened PageBlocks
  import opened PageGrowth
  import opened PageHeap
  import Gc = PageGc
  import opened PageRuns
  import opened NewAreas
  import opened Newspace
  import opened WordAccount
  import opened NewspaceMirror
  import opened NewspaceTrace
  import opened NewspaceScan

  /** Address a as it is compared with words. */
  function Address(a: int): int {
    (a + HEAP_BASE) * 8
  }

  /** The test of update_page_write_prot: the word may point to a younger generation, the temporary one or an open
      region. */
  predicate Suspicious(t: Table, gen: nat, w: int) {
    0 <= Target(w) / PAGE < |t.ps| - 1 &&
    var p := t.ps[Target(w) / PAGE];
    || (p.alloc && p.used != 0 && (p.gen < gen || p.gen == NUM_GENERATIONS))
    || (Address(t.boxed.start) <= w <= Address(t.boxed.free))
    || (Address(t.unboxed.start) <= w <= Address(t.unboxed.free))
  }

  /** A reference to an object is suspicious exactly if the object is not in the generation or an older one, when what
      is allocated goes to a younger or to the temporary one. */
  lemma SuspiciousReference(t: Table, objs: map<int, int>, gen: nat, w: int)
    requires t.Valid() && ObjectsOk(t, objs) && Pointerp(w) && (Dynamic(t, w) ==> Target(w) in objs)
    requires t.gen < gen || t.gen == NUM_GENERATIONS
    ensures Suspicious(t, gen, w) <==>
              Dynamic(t, w) && (t.ps[Target(w) / PAGE].gen < gen || t.ps[Target(w) / PAGE].gen >= NUM_GENERATIONS)
  {
    hide ObjectsOk, PageOk, RegionOk;
    if !Suspicious(t, gen, w) {
      NotSuspicious(t, objs, gen, w);
    } else {
      HeldSuspicious(t, false, w);
      HeldSuspicious(t, true, w);
    }
  }

  /** A reference into an open region is one to the generation allocated to. */
  lemma HeldSuspicious(t: Table, k: bool, w: int)
    requires t.Valid() && Pointerp(w)
    ensures Address(t.Of(k).start) <= w <= Address(t.Of(k).free) ==>
              0 <= Target(w) / PAGE < |t.ps| && t.ps[Target(w) / PAGE].gen == t.gen
  {
    hide PageOk;
    if Address(t.Of(k).start) <= w <= Address(t.Of(k).free) {
      assert t.Of(k).start <= Target(w) < t.Of(k).free;
      HeldIsCovered(t, k, Target(w));
      CoveredPage(t, k, Target(w) / PAGE);
    }
  }

  /** The word, taken for an address, is one on page i, which is in use in a younger generation or the temporary one, or
      it is one in an open region or just behind what is in use there. */
  ghost predicate SuspiciousOn(t: Table, gen: nat, w: int, i: int) {
    && 0 <= i < |t.ps| - 1 && Address(i * PAGE) <= w < Address((i + 1) * PAGE)
    && ((t.ps[i].alloc && t.ps[i].used != 0 && (t.ps[i].gen < gen || t.ps[i].gen == NUM_GENERATIONS))
        || exists k {:trigger t.Of(k)} :: Address(t.Of(k).start) <= w <= Address(t.Of(k).free))
  }

  lemma SuspiciousAddress(t: Table, gen: nat, w: int)
    ensures Suspicious(t, gen, w) <==> exists i :: SuspiciousOn(t, gen, w, i)
  {
    var i := Target(w) / PAGE;
    assert Address(i * PAGE) <= w < Address((i + 1) * PAGE);
    assert t.Of(false) == t.boxed && t.Of(true) == t.unboxed;
    if Suspicious(t, gen, w) {
      assert SuspiciousOn(t, gen, w, i);
    }
    if j :| SuspiciousOn(t, gen, w, j) {
      assert j == i;
    }
  }

  /** What is not suspicious refers to old objects only. */
  lemma NotSuspicious(t: Table, objs: map<int, int>, gen: nat, w: int)
    requires t.Valid() && ObjectsOk(t, objs) && (Dynamic(t, w) ==> Target(w) in objs) && !Suspicious(t, gen, w)
    ensures OlderOk(t, objs, gen, w)
  {
    if Dynamic(t, w) {
      var a := Target(w);
      assert ObjectOk(t, a, objs[a]);
      ObjectStart(t, a, objs[a]);
      assert t.InUse(a) && PageOk(t.ps, a / PAGE);
      assert Address(a) <= w < Address(a + 1);
    }
  }

  /** Page i has become write protected. */
  ghost predicate Protects(t: Table, t2: Table, i: int) {
    0 <= i < |t.ps| && t2 == t.(ps := t.ps[i := t.ps[i].(wp := true)])
  }

  lemma ProtectedInUse(t: Table, t2: Table, i: int, x: int)
    requires Protects(t, t2, i)
    ensures t2.InUse(x) <==> t.InUse(x)
  {
  }

  /** Page i is in no open region. */
  predicate Uncovered(t: Table, i: int) {
    !t.boxed.Covers(i) && !t.unboxed.Covers(i)
  }

  lemma OtherUncovered(t: Table, i: int)
    requires t.Valid() && 0 <= i < |t.ps| && t.ps[i].gen != t.gen
    ensures Uncovered(t, i)
  {
    if t.boxed.Covers(i) {
      CoveredPage(t, false, i);
    }
    if t.unboxed.Covers(i) {
      CoveredPage(t, true, i);
    }
  }

  lemma ProtectOk(t: Table, t2: Table, i: int)
    requires t.Valid() && Protects(t, t2, i) && t.ps[i].alloc && Uncovered(t, i)
    ensures t2.Valid() && Keeps(t, t2) && SameWords(t, t2)
  {
    forall j | 0 <= j < |t2.ps| ensures PageOk(t2.ps, j) {
      assert PageOk(t.ps, j);
    }
    forall x ensures t2.InUse(x) <==> t.InUse(x) {
      ProtectedInUse(t, t2, i, x);
    }
    ProtectRegion(t, t2, i, false);
    ProtectRegion(t, t2, i, true);
  }

  lemma ProtectRegion(t: Table, t2: Table, i: int, k: bool)
    requires t.Valid() && Protects(t, t2, i) && Uncovered(t, i)
    ensures RegionOk(t2.ps, t.Of(k), k, t.gen)
  {
    hide PageOk;
    var r := t.Of(k);
    if !r.IsReset() {
      assert forall j {:trigger t2.ps[j]} :: r.first <= j <= r.last ==> t2.ps[j] == t.ps[j];
    }
  }

  lemma ProtectHeapOk(t: Table, t2: Table, i: int, objs: map<int, int>, gens: seq<Generation>, total: int, m: seq<int>)
    requires HeapOk(t, objs, gens, total, m) && Protects(t, t2, i) && t.ps[i].alloc && Uncovered(t, i)
    ensures HeapOk(t2, objs, gens, total, m)
  {
    hide PageOk, RegionOk, ObjectsOk, Zeroed;
    ProtectOk(t, t2, i);
    ProtectObjects(t, t2, i, objs);
    ProtectZeroed(t, t2, i, m);
    forall g: int ensures Bytes(t2.ps, g) == Bytes(t.ps, g) {
      SumUpdate(t.ps, i, t2.ps[i], g, |t.ps|);
    }
  }

  lemma ProtectZeroed(t: Table, t2: Table, i: int, m: seq<int>)
    requires Protects(t, t2, i) && |m| == (|t.ps| - 1) * PAGE && Zeroed(t, m)
    ensures Zeroed(t2, m)
  {
    hide ZeroAt;
    forall x {:trigger ZeroAt(t2, m, x)} {:trigger m[x]} | 0 <= x < |m| ensures ZeroAt(t2, m, x) {
      assert ZeroAt(t, m, x);
      ProtectedZero(t, t2, i, m, x);
    }
  }

  lemma ProtectedZero(t: Table, t2: Table, i: int, m: seq<int>, x: int)
    requires Protects(t, t2, i) && 0 <= x < |m| == (|t.ps| - 1) * PAGE && ZeroAt(t, m, x)
    ensures ZeroAt(t2, m, x)
  {
    ProtectedInUse(t, t2, i, x);
  }

  /** Write protecting a page on which nothing is suspicious keeps the invariants of a collection. */
  lemma ProtectInv(s: State, s2: State, from: nat, shapes: map<int, Shape>, i: int)
    requires InvOk(s, from, shapes) && Protects(s.t, s2.t, i) && s2 == s.(t := s2.t)
    requires s.t.ps[i].alloc && s.t.ps[i].gen != s.t.gen && from < s.t.ps[i].gen
    requires forall x {:trigger s.m[x]} ::
      0 <= x < |s.m| && Tagged(s, from, x) && x / PAGE == i ==> OlderOk(s.t, s.objs, s.t.ps[i].gen, s.m[x])
    ensures InvOk(s2, from, shapes) && Unmoved(s2, from) == Unmoved(s, from)
    ensures forall x {:trigger Todo(s2, from, x)} :: Todo(s2, from, x) <==> Todo(s, from, x)
  {
    hide ObjectsOk, SlackZero, RawOk, RawApart, PageOk, RegionOk, NewWordOk;
    OtherUncovered(s.t, i);
    ProtectOk(s.t, s2.t, i);
    ProtectObjects(s.t, s2.t, i, s.objs);
    forall x ensures NewWordOk(s2, from, x) && (Todo(s2, from, x) <==> Todo(s, from, x)) {
      ProtectWord(s, s2, from, i, x);
    }
    forall a ensures OldObjectOk(s2, from, shapes, a) && (OldObject(s2, from, a) <==> OldObject(s, from, a)) {
      assert OldObjectOk(s, from, shapes, a);
      ProtectOldObject(s, s2, from, shapes, i, a);
    }
    forall x {:trigger Covered(s2.areas, x)} | Covered(s2.areas, x) ensures Boxed(s2.t, from, x) {
      ProtectedInUse(s.t, s2.t, i, x);
    }
    ProtectSlack(s, s2, i);
    ProtectApart(s, s2, i);
  }

  lemma ProtectApart(s: State, s2: State, i: int)
    requires Protects(s.t, s2.t, i) && s2 == s.(t := s2.t) && RawApart(s.t, s.areas, s.raw)
    ensures RawApart(s2.t, s2.areas, s2.raw)
  {
  }

  lemma ProtectObjects(t: Table, t2: Table, i: int, objs: map<int, int>)
    requires t.Valid() && Protects(t, t2, i) && Keeps(t, t2) && ObjectsOk(t, objs)
    ensures ObjectsOk(t2, objs)
  {
    hide PageOk, RegionOk, Placed;
    KeepsPlaced(t, t2, objs);
  }

  lemma ProtectSlack(s: State, s2: State, i: int)
    requires Protects(s.t, s2.t, i) && s2 == s.(t := s2.t) && SlackZero(s.t, s.objs, s.m)
    ensures SlackZero(s2.t, s2.objs, s2.m)
  {
    forall x {:trigger s2.m[x]} | 0 <= x < |s2.m| && s2.t.InUse(x) && !InSome(s2.objs, x) ensures s2.m[x] == 0 {
      ProtectedInUse(s.t, s2.t, i, x);
      assert s.m[x] == 0;
    }
  }

  lemma ProtectWord(s: State, s2: State, from: nat, i: int, x: int)
    requires Protects(s.t, s2.t, i) && s2 == s.(t := s2.t) && NewWordOk(s, from, x) && from < s.t.ps[i].gen
    requires 0 <= x < |s.m| && Tagged(s, from, x) && x / PAGE == i ==> OlderOk(s.t, s.objs, s.t.ps[i].gen, s.m[x])
    ensures NewWordOk(s2, from, x) && (Todo(s2, from, x) <==> Todo(s, from, x))
  {
    ProtectedInUse(s.t, s2.t, i, x);
  }

  lemma ProtectOldObject(s: State, s2: State, from: nat, shapes: map<int, Shape>, i: int, a: int)
    requires Protects(s.t, s2.t, i) && s2 == s.(t := s2.t) && OldObjectOk(s, from, shapes, a)
    ensures OldObjectOk(s2, from, shapes, a) && (OldObject(s2, from, a) <==> OldObject(s, from, a))
  {
    forall w: int ensures (Refers(s2.t, from, w) <==> Refers(s.t, from, w)) && (Dynamic(s2.t, w) <==> Dynamic(s.t, w)) {
    }
  }

  /** No word in use on page i is suspicious. */
  ghost predicate NothingSuspicious(s: State, i: int) {
    0 <= i < |s.t.ps| && forall x {:trigger s.m[x]} :: i * PAGE <= x < i * PAGE + s.t.ps[i].used && 0 <= x < |s.m| ==>
      !Suspicious(s.t, s.t.ps[i].gen, s.m[x])
  }

  /** update_page_write_prot: write protects a boxed page if nothing on it is suspicious. */
  method UpdatePageWriteProt(h: Heap, from: nat, shapes: map<int, Shape>, ghost o: Origin, page: int)
        returns (protectIt: bool)
    requires Ready(h, from, shapes, o) && 0 <= page < h.pages.Length && h.pages[page].alloc && h.pages[page].used != 0
    requires from < h.pages[page].gen && h.pages[page].gen != h.allocGen
    modifies h.pages
    ensures Ready(h, from, shapes, o)
    ensures h.pages[..] == old(h.pages[..])[page := old(h.pages[page]).(wp := old(h.pages[page].wp) || protectIt)]
    ensures protectIt <==> old(!h.pages[page].wp && !h.pages[page].unboxed && NothingSuspicious(S(h), page))
    ensures Unmoved(S(h), from) == Unmoved(old(S(h)), from)
    ensures forall x {:trigger Todo(S(h), from, x)} :: Todo(S(h), from, x) <==> Todo(old(S(h)), from, x)
    ensures Onward(old(S(h)), S(h), from)
  {
    hide OutOfMemory, Onward, HeapOk, InvOk, Mirrors, Traced, Clean, Unmoved, Suspicious, PageOk, RegionOk, Todo;
    ghost var s := S(h);
    OnwardSame(s, s, from);
    ReadyFacts(h, from, shapes, o);
    InvParts(s, from, shapes);
    PageInHeap(s.t, page);
    if h.pages[page].wp || h.pages[page].unboxed {
      return false;
    }
    protectIt := ScanPage(h, page);
    if protectIt {
      PageNotSuspicious(s, from, shapes, page);
      h.pages[page] := h.pages[page].(wp := true);
      ProtectReady(s, S(h), h.gens[..], h.bytesAllocated, from, shapes, o, page);
    }
  }

  /** Looks for suspicious words on a page. */
  method ScanPage(h: Heap, page: int) returns (clean: bool)
    requires 0 <= page < h.pages.Length - 1 && h.mem.Length == (h.pages.Length - 1) * PAGE
    requires 0 <= h.pages[page].used <= PAGE
    ensures clean <==> NothingSuspicious(S(h), page)
  {
    clean := true;
    var j := 0;
    while j < h.pages[page].used
      invariant 0 <= j <= h.pages[page].used
      invariant forall x {:trigger h.mem[x]} ::
        page * PAGE <= x < page * PAGE + j ==> !Suspicious(h.T(), h.pages[page].gen, h.mem[x])
    {
      if Suspicious(h.T(), h.pages[page].gen, h.mem[page * PAGE + j]) {
        ghost var x := page * PAGE + j;
        assert S(h).m[x] == h.mem[x];
        return false;
      }
      j := j + 1;
    }
  }

  /** The words of a page in use are words of the heap. */
  lemma PageInHeap(t: Table, i: int)
    requires t.Valid() && 0 <= i < |t.ps| && t.ps[i].alloc
    ensures i < |t.ps| - 1 && 0 <= t.ps[i].used <= PAGE
  {
    assert PageOk(t.ps, i);
  }

  lemma PageNotSuspicious(s: State, from: nat, shapes: map<int, Shape>, i: int)
    requires InvOk(s, from, shapes) && 0 <= i < |s.t.ps| && s.t.ps[i].gen != s.t.gen && NothingSuspicious(s, i)
    ensures forall x {:trigger s.m[x]} ::
      0 <= x < |s.m| && Tagged(s, from, x) && x / PAGE == i ==> OlderOk(s.t, s.objs, s.t.ps[i].gen, s.m[x])
  {
    hide ObjectsOk, SlackZero, RawOk, RawApart, PageOk, RegionOk, OldObjectOk, Suspicious;
    forall x {:trigger s.m[x]} | 0 <= x < |s.m| && Tagged(s, from, x) && x / PAGE == i
      ensures OlderOk(s.t, s.objs, s.t.ps[i].gen, s.m[x])
    {
      assert NewWordOk(s, from, x);
      HeldNew(s.t, true, x);
      HeldNew(s.t, false, x);
      NotSuspicious(s.t, s.objs, s.t.ps[i].gen, s.m[x]);
    }
  }

  lemma ProtectReady(s: State, s2: State, gens: seq<Generation>, total: int, from: nat, shapes: map<int, Shape>,
        o: Origin, i: int)
    requires HeapOk(s.t, s.objs, gens, total, s.m) && InvOk(s, from, shapes) && Mirrors(s, from, o)
    requires Clean(s, from, o.clean) && Traced(s, from, o)
    requires Protects(s.t, s2.t, i) && s2 == s.(t := s2.t)
    requires s.t.ps[i].alloc && s.t.ps[i].gen != s.t.gen && from < s.t.ps[i].gen
    requires forall x {:trigger s.m[x]} ::
      0 <= x < |s.m| && Tagged(s, from, x) && x / PAGE == i ==> OlderOk(s.t, s.objs, s.t.ps[i].gen, s.m[x])
    ensures HeapOk(s2.t, s2.objs, gens, total, s2.m) && InvOk(s2, from, shapes) && Mirrors(s2, from, o)
    ensures Clean(s2, from, o.clean) && Traced(s2, from, o)
    ensures Unmoved(s2, from) == Unmoved(s, from)
    ensures forall x {:trigger Todo(s2, from, x)} :: Todo(s2, from, x) <==> Todo(s, from, x)
    ensures Onward(s, s2, from)
  {
    InvParts(s, from, shapes);
    hide HeapOk, InvOk, Mirrors, Traced, Unmoved, Todo;
    OtherUncovered(s.t, i);
    ProtectHeapOk(s.t, s2.t, i, s.objs, gens, total, s.m);
    ProtectInv(s, s2, from, shapes, i);
    ProtectMirrors(s, s2, from, o, i);
    ProtectTraced(s, s2, from, o, i);
    ProtectClean(s, s2, from, i, o.clean);
  }

  lemma ProtectMirrors(s: State, s2: State, from: nat, o: Origin, i: int)
    requires Mirrors(s, from, o) && Protects(s.t, s2.t, i) && s2 == s.(t := s2.t)
    ensures Mirrors(s2, from, o) && Onward(s, s2, from)
  {
    hide Mirrors, Traced;
    forall a ensures (OldObject(s2, from, a) <==> OldObject(s, from, a)) && StaysKind(s, s2, from, o, a) {
    }
    forall x {:trigger Boxed(s2.t, from, x)} | Boxed(s.t, from, x) ensures Boxed(s2.t, from, x) {
      ProtectedInUse(s.t, s2.t, i, x);
    }
    StayingMirrors(s, s2, from, o);
    forall x {:trigger s2.t.InUse(x)} ensures s2.t.InUse(x) ==> s.t.InUse(x) {
      ProtectedInUse(s.t, s2.t, i, x);
    }
    SameWeight(s, s2, from);
  }

  lemma ProtectTraced(s: State, s2: State, from: nat, o: Origin, i: int)
    requires Protects(s.t, s2.t, i) && s2 == s.(t := s2.t) && Traced(s, from, o)
    requires Unmoved(s2, from) == Unmoved(s, from)
    requires forall x {:trigger Todo(s2, from, x)} :: Todo(s2, from, x) <==> Todo(s, from, x)
    ensures Traced(s2, from, o)
  {
    hide Unmoved, Todo, Tracing, Onto;
    forall a {:trigger OldObject(s2, from, a)} ensures OldObject(s2, from, a) <==> OldObject(s, from, a) {
    }
    TracingStays(s, s2, from, o);
    forall b {:trigger StaysNew(s, s2, b)} ensures StaysNew(s, s2, b) {
    }
    OntoStays(s, s2, from, o);
  }

  lemma ProtectClean(s: State, s2: State, from: nat, i: int, clean: set<nat>)
    requires Protects(s.t, s2.t, i) && s2 == s.(t := s2.t) && Clean(s, from, clean)
    requires forall x {:trigger Todo(s2, from, x)} :: Todo(s2, from, x) <==> Todo(s, from, x)
    ensures Clean(s2, from, clean)
  {
  }

  /** All words. */
  ghost function Everything(): iset<int> {
    iset x: int | IsWord(x)
  }

  predicate IsWord(x: int) {
    true
  }

  /** What scavenging a generation keeps of the other pages. */
  twostate predicate KeepsPages(h: Heap, from: nat, gen: nat)
    reads h, h.pages, h.mem
  {
    && h.recording == old(h.recording) && h.allocGen == old(h.allocGen)
    && Unmoved(S(h), from) <= Unmoved(old(S(h)), from)
    && Onward(old(S(h)), S(h), from)
    && (forall i {:trigger h.pages[i]} ::
        0 <= i < h.pages.Length && h.pages[i].gen != from && h.pages[i].gen != h.allocGen ==>
          h.pages[i] == old(h.pages[i]).(wp := h.pages[i].wp) &&
              (h.pages[i].gen != gen ==> h.pages[i] == old(h.pages[i])))
    && (forall x {:trigger Todo(S(h), from, x)} :: Todo(S(h), from, x) && Boxed(old(h.T()), from, x) ==>
        Todo(old(S(h)), from, x))
    && (forall x {:trigger Boxed(h.T(), from, x)} :: Boxed(old(h.T()), from, x) ==> Boxed(h.T(), from, x))
  }

  lemma EverythingSafe(s: State, from: nat, recording: Recording, y: int, n: int)
    requires recording.Off?
    ensures LaterOk(recording, Everything()) && Safe(s, from, Everything() + Words(y, y + n))
  {
    hide Todo;
    forall x: int ensures x in Everything() {
      assert IsWord(x);
    }
  }

  /** Write protects what it can of pages i to last. */
  method ProtectBlock(h: Heap, from: nat, shapes: map<int, Shape>, ghost o: Origin, gen: nat, i: int, last: int)
    requires Ready(h, from, shapes, o) && NewBlock(h.pages[..], gen, i, last) && from < gen && gen != h.allocGen
    modifies h.pages
    ensures Ready(h, from, shapes, o) && KeepsPages(h, from, gen)
    ensures forall x {:trigger Todo(S(h), from, x)} :: Todo(S(h), from, x) <==> Todo(old(S(h)), from, x)
  {
    hide OutOfMemory, Onward, HeapOk, InvOk, Mirrors, Traced, Clean, Unmoved, NewBlock, Ready, Todo, Boxed;
    BlockParts(h.pages[..], gen, i, last);
    ghost var ps := h.pages[..];
    ghost var s := S(h);
    OnwardSame(s, s, from);
    var j := i;
    while j <= last
      invariant i <= j <= last + 1 && Ready(h, from, shapes, o) && KeepsPages(h, from, gen)
      invariant SamePages(ps, h.pages[..])
      invariant forall x {:trigger Todo(S(h), from, x)} :: Todo(S(h), from, x) <==> Todo(old(S(h)), from, x)
    {
      label L:
      ghost var s1 := S(h);
      var n := UpdatePageWriteProt(h, from, shapes, o, j);
      OnwardTwice(s, s1, S(h), from);
      ProtectedBoxed(old@L(h.T()), h.T(), from, j);
      j := j + 1;
    }
  }

  /** The pages differ only in write protection. */
  ghost predicate SamePages(ps: seq<Page>, ps2: seq<Page>) {
    |ps2| == |ps| && forall i {:trigger ps2[i]} :: 0 <= i < |ps| ==> ps2[i] == ps[i].(wp := ps2[i].wp)
  }

  lemma BlockParts(ps: seq<Page>, gen: nat, i: int, last: int)
    requires NewBlock(ps, gen, i, last)
    ensures 0 <= i <= last < |ps| && forall j {:trigger ps[j]} :: i <= j <= last ==> NewPage(ps[j], gen)
  {
  }

  lemma ProtectedBoxed(t: Table, t2: Table, from: nat, i: int)
    requires 0 <= i < |t.ps| && |t2.ps| == |t.ps| && t2 == t.(ps := t2.ps) && SamePages(t.ps, t2.ps)
    ensures forall x {:trigger Boxed(t2, from, x)} :: Boxed(t, from, x) ==> Boxed(t2, from, x)
  {
    forall x {:trigger Boxed(t2, from, x)} | Boxed(t, from, x) ensures Boxed(t2, from, x) {
      assert t2.ps[x / PAGE] == t2.ps[x / PAGE];
    }
  }

  /** A word in use on a page of another generation than the one allocated to is below its bytes_used. */
  lemma UsedWord(t: Table, from: nat, x: int)
    requires t.Valid() && Boxed(t, from, x) && t.ps[x / PAGE].gen != t.gen
    ensures 0 <= x / PAGE < |t.ps| && x / PAGE * PAGE <= x < x / PAGE * PAGE + t.ps[x / PAGE].used
  {
    hide PageOk, RegionOk;
    HeldNew(t, true, x);
    HeldNew(t, false, x);
  }

  lemma UsedBoxed(t: Table, from: nat, gen: nat, x: int)
    requires t.Valid() && 0 <= x / PAGE < |t.ps| && NewPage(t.ps[x / PAGE], gen) && gen != from
    requires x < x / PAGE * PAGE + t.ps[x / PAGE].used
    ensures Boxed(t, from, x)
  {
  }

  /** The words of a block of pages of a generation that is not being collected. */
  lemma GenerationBlock(t: Table, from: nat, gen: nat, i: int, last: int)
    requires t.Valid() && NewBlock(t.ps, gen, i, last) && gen != from && gen != t.gen
    ensures 0 < t.ps[last].used <= PAGE
    ensures forall x {:trigger Boxed(t, from, x)} :: i * PAGE <= x < last * PAGE + t.ps[last].used ==> Boxed(t, from, x)
    ensures forall x {:trigger Boxed(t, from, x)} ::
      Boxed(t, from, x) && i <= x / PAGE <= last ==> i * PAGE <= x < last * PAGE + t.ps[last].used
  {
    hide RegionOk, Boxed;
    assert PageOk(t.ps, last);
    forall x {:trigger Boxed(t, from, x)} | i * PAGE <= x < last * PAGE + t.ps[last].used ensures Boxed(t, from, x) {
      assert i <= x / PAGE <= last;
      UsedBoxed(t, from, gen, x);
    }
    forall x {:trigger Boxed(t, from, x)} | Boxed(t, from, x) && i <= x / PAGE <= last
      ensures i * PAGE <= x < last * PAGE + t.ps[last].used
    {
      UsedWord(t, from, x);
    }
  }

  /** On write-protected pages of an older generation there is nothing to be scavenged. */
  lemma ProtectedDone(s: State, from: nat, shapes: map<int, Shape>, x: int)
    requires InvOk(s, from, shapes) && Todo(s, from, x)
    ensures 0 <= x / PAGE < |s.t.ps| && !s.t.ps[x / PAGE].wp
  {
    hide ObjectsOk, SlackZero, RawOk, RawApart, PageOk, RegionOk, OldObjectOk;
    assert NewWordOk(s, from, x);
  }

  /** No word on pages i to last has to be scavenged. */
  ghost predicate PagesDone(s: State, from: nat, i: int, last: int) {
    forall x {:trigger Todo(s, from, x)} :: i <= x / PAGE <= last ==> !Todo(s, from, x)
  }

  lemma BlockDone(s: State, from: nat, gen: nat, i: int, last: int)
    requires s.t.Valid() && NewBlock(s.t.ps, gen, i, last) && gen != from && gen != s.t.gen
    requires forall x {:trigger Todo(s, from, x)} ::
      i * PAGE <= x < last * PAGE + s.t.ps[last].used ==> !Todo(s, from, x)
    ensures PagesDone(s, from, i, last)
  {
    GenerationBlock(s.t, from, gen, i, last);
    forall x {:trigger Todo(s, from, x)} | i <= x / PAGE <= last ensures !Todo(s, from, x) {
      assert Todo(s, from, x) ==> Boxed(s.t, from, x);
    }
  }

  lemma SameBlock(ps: seq<Page>, ps2: seq<Page>, gen: nat, i: int, last: int)
    requires NewBlock(ps, gen, i, last) && |ps2| == |ps|
    requires forall j {:trigger ps2[j]} :: 0 <= j < |ps| && NewPage(ps[j], gen) ==> ps2[j] == ps[j]
    ensures NewBlock(ps2, gen, i, last)
  {
  }

  /** Scavenges a block unless all of it is write protected, and then write protects what it can of it. */
  method ScavengeBlock(h: Heap, from: nat, shapes: map<int, Shape>, ghost o: Origin, gen: nat, i: int, last: int)
        returns (ok: bool)
    requires Ready(h, from, shapes, o) && NewBlock(h.pages[..], gen, i, last) && from < gen && gen != h.allocGen
    requires h.recording.Off? && BlockStart(h.pages[..], gen, i) && BlockStops(h.pages[..], gen, last)
    modifies h, h.pages, h.mem, h.gens
    ensures h.Valid()
    ensures ok ==> Ready(h, from, shapes, o) && KeepsPages(h, from, gen) && PagesDone(S(h), from, i, last)
    ensures !ok ==> OutOfMemory(h)
  {
    hide OutOfMemory, Onward, HeapOk, InvOk, Mirrors, Traced, Clean, Unmoved, Ready, Boxed, Todo, NewBlock, PageOk,
      RegionOk, ObjectsOk, Safe, BlockStops, BlockStart;
    ReadyFacts(h, from, shapes, o);
    BlockParts(h.pages[..], gen, i, last);
    ghost var s := S(h);
    OnwardSame(s, s, from);
    var all := AllProtected(h, i, last, false);
    if all {
      forall x {:trigger Todo(S(h), from, x)} | i <= x / PAGE <= last ensures !Todo(S(h), from, x) {
        if Todo(S(h), from, x) {
          ProtectedDone(S(h), from, shapes, x);
        }
      }
      return true;
    }
    ok := ScavengePages(h, from, shapes, o, gen, i, last);
    if ok {
      ghost var s1 := S(h);
      ProtectBlock(h, from, shapes, o, gen, i, last);
      OnwardTwice(s, s1, S(h), from);
      ReadyFacts(h, from, shapes, o);
    }
  }

  /** Scavenges the words of a block. */
  method ScavengePages(h: Heap, from: nat, shapes: map<int, Shape>, ghost o: Origin, gen: nat, i: int, last: int)
        returns (ok: bool)
    requires Ready(h, from, shapes, o) && NewBlock(h.pages[..], gen, i, last) && from < gen && gen != h.allocGen
    requires h.recording.Off? && BlockStart(h.pages[..], gen, i) && BlockStops(h.pages[..], gen, last)
    modifies h, h.pages, h.mem, h.gens
    ensures h.Valid()
    ensures ok ==> Ready(h, from, shapes, o) && KeepsPages(h, from, gen) && PagesDone(S(h), from, i, last)
    ensures !ok ==> OutOfMemory(h)
    ensures ok ==> NewBlock(h.pages[..], gen, i, last)
  {
    hide OutOfMemory, Onward, HeapOk, InvOk, Mirrors, Traced, Clean, Unmoved, Ready, Boxed, Todo, NewBlock, PageOk,
      RegionOk, ObjectsOk, Safe, LaterOk, Uncut, BlockStops, BlockStart;
    ReadyFacts(h, from, shapes, o);
    BlockParts(h.pages[..], gen, i, last);
    GenerationBlock(h.T(), from, gen, i, last);
    var size := h.pages[last].used + PAGE * (last - i);
    EverythingSafe(S(h), from, h.recording, i * PAGE, size);
    ghost var ps := h.pages[..];
    ghost var end := last * PAGE + ps[last].used;
    assert i * PAGE + size == end;
    WholeBlock(S(h), from, shapes, gen, i, last);
    ok := Scavenge(h, from, shapes, o, i * PAGE, size, Everything());
    if ok {
      ReadyFacts(h, from, shapes, o);
      SameBlock(ps, h.pages[..], gen, i, last);
      BlockDone(S(h), from, gen, i, last);
    }
  }

  /** No raw object runs over the ends of a block. */
  lemma WholeBlock(s: State, from: nat, shapes: map<int, Shape>, gen: nat, i: int, last: int)
    requires InvOk(s, from, shapes) && NewBlock(s.t.ps, gen, i, last)
    requires BlockStart(s.t.ps, gen, i) && BlockStops(s.t.ps, gen, last)
    ensures Uncut(s, i * PAGE) && Uncut(s, last * PAGE + s.t.ps[last].used)
  {
    hide ObjectsOk, RawOk, RawApart, SlackZero, NewWordOk, OldObjectOk, Uncut, PageOk, RegionOk, BlockStops;
    BlockUncut(s, gen, i, last);
    HeadUncut(s, i);
  }

  /** There are no pages of younger generations than the old space. */
  ghost predicate NoneYounger(ps: seq<Page>, from: nat) {
    forall i {:trigger ps[i]} :: 0 <= i < |ps| && ps[i].alloc ==> from <= ps[i].gen
  }

  /** If page i is a boxed page of the generation then something begins there. */
  predicate BlockStart(ps: seq<Page>, gen: nat, i: int) {
    0 <= i < |ps| && NewPage(ps[i], gen) ==> ps[i].offset == 0
  }

  /** In the generation only words on pages from i on may have to be scavenged. */
  ghost predicate DoneBelow(s: State, from: nat, gen: nat, i: int) {
    forall x {:trigger Todo(s, from, x)} :: Todo(s, from, x) && s.t.ps[x / PAGE].gen == gen ==> i <= x / PAGE
  }

  lemma StartAfter(t: Table, gen: nat, i: int)
    requires t.Valid() && 0 <= i < |t.ps| - 1
    requires t.ps[i].used < PAGE || !NewPage(t.ps[i + 1], gen) || t.ps[i + 1].offset == 0 || !NewPage(t.ps[i], gen)
    ensures BlockStart(t.ps, gen, i + 1)
  {
    assert PageOk(t.ps, i + 1);
  }

  lemma StartStays(ps: seq<Page>, ps2: seq<Page>, gen: nat, i: int)
    requires BlockStart(ps, gen, i) && |ps2| == |ps|
    requires 0 <= i < |ps| && ps2[i].gen == gen ==> ps2[i] == ps[i].(wp := ps2[i].wp)
    ensures BlockStart(ps2, gen, i)
  {
  }

  lemma SkippedPage(s: State, from: nat, gen: nat, i: int)
    requires s.t.Valid() && gen != s.t.gen && DoneBelow(s, from, gen, i) && 0 <= i < |s.t.ps|
    requires !NewPage(s.t.ps[i], gen)
    ensures DoneBelow(s, from, gen, i + 1)
  {
    hide PageOk, RegionOk, Refers;
    forall x {:trigger Todo(s, from, x)} | Todo(s, from, x) && s.t.ps[x / PAGE].gen == gen ensures i + 1 <= x / PAGE {
      UsedWord(s.t, from, x);
    }
  }

  /** What was done before stays done, and the pages of the block are done. */
  lemma DoneAfter(s: State, s2: State, from: nat, gen: nat, i: int, last: int)
    requires s.t.Valid() && s2.t.Valid() && gen != s.t.gen && s2.t.gen == s.t.gen && gen != from
    requires |s2.t.ps| == |s.t.ps|
    requires DoneBelow(s, from, gen, i) && PagesDone(s2, from, i, last)
    requires forall j {:trigger s2.t.ps[j]} ::
      0 <= j < |s.t.ps| && s2.t.ps[j].gen == gen ==> s2.t.ps[j] == s.t.ps[j].(wp := s2.t.ps[j].wp)
    requires forall x {:trigger Todo(s2, from, x)} :: Todo(s2, from, x) && Boxed(s.t, from, x) ==> Todo(s, from, x)
    ensures DoneBelow(s2, from, gen, last + 1)
  {
    hide PageOk, RegionOk, Refers;
    forall x {:trigger Todo(s2, from, x)} | Todo(s2, from, x) && s2.t.ps[x / PAGE].gen == gen
      ensures last + 1 <= x / PAGE
    {
      UsedWord(s2.t, from, x);
      UsedBoxed(s.t, from, gen, x);
      assert Todo(s, from, x);
    }
  }

  lemma AllDone(s: State, from: nat, gen: nat, i: int, clean: set<nat>)
    requires s.t.Valid() && gen != s.t.gen && DoneBelow(s, from, gen, i) && s.t.lastFree <= i && Clean(s, from, clean)
    ensures Clean(s, from, clean + {gen})
  {
    hide PageOk, RegionOk, Refers;
    forall x {:trigger Todo(s, from, x)} | Todo(s, from, x) ensures s.t.ps[x / PAGE].gen != gen {
    }
  }

  lemma CleanMore(s: State, from: nat, o: Origin, clean: set<nat>)
    requires Mirrors(s, from, o)
    ensures Mirrors(s, from, o.(clean := clean))
  {
    var o2 := o.(clean := clean);
    forall a ensures ObjectMirrors(s, from, o2, a) {
      assert ObjectMirrors(s, from, o, a);
    }
    forall a, c {:trigger MovedSince(s, from, o2, a), MovedSince(s, from, o2, c)} |
      MovedSince(s, from, o2, a) && MovedSince(s, from, o2, c) &&
          a != c ensures Target(s.m[a + 1]) != Target(s.m[c + 1])
    {
      assert MovedSince(s, from, o, a) && MovedSince(s, from, o, c);
    }
  }

  /** The part of scavenge_generation for a block, or for a page that is none of the generation. */
  method GenerationStep(h: Heap, from: nat, shapes: map<int, Shape>, ghost o: Origin, gen: nat, i: int)
        returns (ok: bool, last: int)
    requires Ready(h, from, shapes, o) && gen != from && gen != h.allocGen && h.recording.Off?
    requires 0 <= i < h.lastFree && (NewPage(h.pages[i], gen) ==> from < gen)
    requires DoneBelow(S(h), from, gen, i) && BlockStart(h.pages[..], gen, i)
    modifies h, h.pages, h.mem, h.gens
    ensures h.Valid()
    ensures ok ==> Ready(h, from, shapes, o) && KeepsPages(h, from, gen) && i <= last < h.pages.Length - 1
    ensures !ok ==> OutOfMemory(h)
    ensures ok ==> DoneBelow(S(h), from, gen, last + 1) && BlockStart(h.pages[..], gen, last + 1)
  {
    hide OutOfMemory, Onward, HeapOk, InvOk, Mirrors, Traced, Clean, Unmoved, Ready, Boxed, Todo, NewBlock, PageOk,
      RegionOk, ObjectsOk, DoneBelow, BlockStart, PagesDone;
    ReadyFacts(h, from, shapes, o);
    ok, last := true, i;
    ghost var s := S(h);
    OnwardSame(s, s, from);
    if NewPage(h.pages[i], gen) {
      assert h.pages[i].offset == 0 by {
        StartHere(h.pages[..], gen, i);
      }
      last := BlockLast(h, gen, i);
      BlockParts(h.pages[..], gen, i, last);
      StartAfter(h.T(), gen, last);
      ok := ScavengeBlock(h, from, shapes, o, gen, i, last);
      if ok {
        ReadyFacts(h, from, shapes, o);
        StartStays(s.t.ps, h.pages[..], gen, last + 1);
        DoneAfter(s, S(h), from, gen, i, last);
      }
    } else {
      SkippedPage(s, from, gen, i);
      StartAfter(h.T(), gen, i);
    }
  }

  /** scavenge_generation: afterwards nothing in the generation refers to the old space, although blocks of
      write-protected pages have been left out. */
  method ScavengeGeneration(h: Heap, from: nat, shapes: map<int, Shape>, ghost o: Origin, gen: nat) returns (ok: bool)
    requires Ready(h, from, shapes, o) && gen != from && gen != h.allocGen && h.recording.Off?
    requires NoneYounger(h.pages[..], from)
    modifies h, h.pages, h.mem, h.gens
    ensures h.Valid() && (ok ==> Ready(h, from, shapes, o.(clean := o.clean + {gen})) && KeepsPages(h, from, gen))
    ensures !ok ==> OutOfMemory(h)
  {
    hide OutOfMemory, Onward, HeapOk, InvOk, Mirrors, Traced, Clean, Unmoved, Ready, Boxed, Todo, NewBlock, PageOk,
      RegionOk, ObjectsOk, DoneBelow, BlockStart, PagesDone;
    ReadyFacts(h, from, shapes, o);
    NothingDone(S(h), from, gen);
    FirstStart(h.T(), gen);
    ghost var s := S(h);
    OnwardSame(s, s, from);
    ok := true;
    var i := 0;
    while i < h.lastFree
      invariant 0 <= i <= h.pages.Length - 1 && Ready(h, from, shapes, o) && KeepsPages(h, from, gen)
      invariant h.lastFree < h.pages.Length
      invariant DoneBelow(S(h), from, gen, i) && BlockStart(h.pages[..], gen, i)
      decreases h.pages.Length - i
    {
      var last;
      ghost var s1 := S(h);
      ok, last := GenerationStep(h, from, shapes, o, gen, i);
      if !ok {
        return;
      }
      OnwardTwice(s, s1, S(h), from);
      ReadyFacts(h, from, shapes, o);
      i := last + 1;
    }
    ReadyFacts(h, from, shapes, o);
    AllDone(S(h), from, gen, i, o.clean);
    ReadyMirrors(h, from, shapes, o);
    CleanMore(S(h), from, o, o.clean + {gen});
    CleanReady(h, from, shapes, o, o.clean + {gen});
  }

  lemma CleanReady(h: Heap, from: nat, shapes: map<int, Shape>, o: Origin, clean: set<nat>)
    requires Ready(h, from, shapes, o) && Mirrors(S(h), from, o.(clean := clean)) && Clean(S(h), from, clean)
    ensures Ready(h, from, shapes, o.(clean := clean))
  {
    hide HeapOk, InvOk, Mirrors, Clean, NewObject, Todo, OldObject, Unmoved;
    CleanTraced(S(h), from, o, clean);
  }

  lemma CleanTraced(s: State, from: nat, o: Origin, clean: set<nat>)
    requires Traced(s, from, o)
    ensures Traced(s, from, o.(clean := clean))
  {
    hide Todo, OldObject, Unmoved;
    var o2 := o.(clean := clean);
    forall a {:trigger a in o2.live} | a in o2.live && a in o2.oldObjs && a in o2.objs && a !in o2.unboxed
      ensures TargetsIn(o2, a)
    {
      assert TargetsIn(o, a);
    }
    forall b {:trigger b in s.objs} | b in s.objs && b !in o2.objs ensures NewObject(s, from, o2, b) {
      var a :| CopiedFrom(s, from, o, a, b);
      assert CopiedFrom(s, from, o2, a, b);
    }
  }

  lemma ReadyMirrors(h: Heap, from: nat, shapes: map<int, Shape>, o: Origin)
    requires Ready(h, from, shapes, o)
    ensures Mirrors(S(h), from, o)
  {
  }

  lemma StartHere(ps: seq<Page>, gen: nat, i: int)
    requires BlockStart(ps, gen, i) && 0 <= i < |ps| && NewPage(ps[i], gen)
    ensures ps[i].offset == 0
  {
  }

  lemma NothingDone(s: State, from: nat, gen: nat)
    ensures DoneBelow(s, from, gen, 0)
  {
  }

  lemma FirstStart(t: Table, gen: nat)
    requires t.Valid()
    ensures BlockStart(t.ps, gen, 0)
  {
    assert PageOk(t.ps, 0);
  }
}
