/** The generational heap between collections: what the mutator does, and what it can rely on. */
module Resting {
  import opened PageTable
  import opened PageObjects
  import opened PageBlocks
  import opened PageGrowth
  import opened PageHeap
  import Gc = PageGc
  import opened PageRuns
  import opened NewAreas
  import opened Newspace
  import opened WordAccount
  import opened NewspaceMirror
  import opened NewspaceScan
  import opened WriteBarrier

  /** A word on a boxed page, unless it belongs to an unboxed object, refers to objects only, and on a write-protected
      page to no younger generation and not the temporary one. */
  predicate RestWordOk(s: State, x: int) {
    0 <= x < |s.m| && s.t.InUse(x) && !s.t.ps[x / PAGE].unboxed && x !in s.raw ==>
      WordOk(s, s.m[x]) && (s.t.ps[x / PAGE].wp ==> OlderOk(s.t, s.objs, s.t.ps[x / PAGE].gen, s.m[x]))
  }

  /** There is nothing in the temporary generation. */
  ghost predicate NoneTemporary(ps: seq<Page>) {
    forall i {:trigger ps[i]} :: 0 <= i < |ps| && ps[i].alloc ==> ps[i].gen < NUM_GENERATIONS
  }

  ghost predicate RestOk(s: State) {
    && s.t.Valid() && ObjectsOk(s.t, s.objs) && |s.m| == (|s.t.ps| - 1) * PAGE
    && (forall x {:trigger RestWordOk(s, x)} :: RestWordOk(s, x))
    && (forall a {:trigger a in s.objs} :: a in s.objs ==> !Moved(s, a))
    && SlackZero(s.t, s.objs, s.m) && NoneTemporary(s.t.ps) && SizesOk(s.objs) && RawOk(s.objs, s.raw)
  }

  ghost predicate AtRest(h: Heap)
    reads h, h.pages, h.mem, h.gens
  {
    h.Valid() && RestOk(S(h))
  }

  /** Between collections: what is allocated goes to generation 0, and nothing is recorded. */
  ghost predicate Idle(h: Heap)
    reads h, h.pages, h.mem, h.gens
  {
    AtRest(h) && h.allocGen == 0 && h.recording.Off?
  }

  // ---------- Allocation ----------

  /** An object of n words at b has been allocated, which were not in use and are zero; if it is an unboxed object on
      boxed pages its words are raw. */
  ghost predicate Allocates(s: State, s2: State, b: int, n: int, kind: bool, raw: bool) {
    && Evolves(s.t, s2.t) && Fresh(s2.t, kind, b, b + n) && Gains(s.t, s2.t, b, b + n)
    && s2.t.Valid() && ObjectsOk(s2.t, s2.objs)
    && s2.objs == s.objs[b := b + n] && b !in s.objs && |s2.m| == |s.m| && 0 <= b && b + n <= |s.m|
    && (forall x {:trigger s2.m[x]} :: b <= x < b + n ==> s2.m[x] == 0)
    && (forall x {:trigger s2.m[x]} :: 0 <= x < |s.m| && s.t.InUse(x) ==> s2.m[x] == s.m[x])
    && (forall x {:trigger x in s2.raw} :: x in s2.raw <==> x in s.raw || (raw && !kind && b <= x < b + n))
  }

  lemma AllocatedWord(s: State, s2: State, b: int, n: int, kind: bool, raw: bool, x: int)
    requires RestOk(s) && Allocates(s, s2, b, n, kind, raw)
    ensures RestWordOk(s2, x)
  {
    hide ObjectsOk, SlackZero, SizesOk, RawOk;
    assert RestWordOk(s, x);
    if 0 <= x < |s2.m| && s2.t.InUse(x) {
      if b <= x < b + n {
        assert FreshAt(s2.t, kind, x);
      } else {
        assert s.t.InUse(x) && SamePage(s.t, s2.t, x);
        if s.t.ps[x / PAGE].wp && !s.t.ps[x / PAGE].unboxed && x !in s.raw {
          EvolvedOlder(s.t, s2.t, s.objs, s2.objs, s.t.ps[x / PAGE].gen, s.m[x]);
        }
      }
    }
  }

  lemma AllocatedRaw(s: State, s2: State, b: int, n: int, kind: bool, raw: bool)
    requires RestOk(s) && Allocates(s, s2, b, n, kind, raw) && n > 0
    ensures RawOk(s2.objs, s2.raw)
  {
    hide RestWordOk, SlackZero, SizesOk, RawOk, ObjectsOk, Evolves, Fresh;
    AddedRaw(s.t, s.objs, s.raw, b, b + n);
    NewApart(s2.t, s.objs, b, b + n);
    if !raw || kind {
      assert forall x :: x in s2.raw <==> x in s.raw;
    }
    RawMore(s.objs, s.raw, s2.raw, b, b + n);
  }

  lemma NewApart(t: Table, objs: map<int, int>, b: int, e: int)
    requires ObjectsOk(t, objs[b := e]) && b !in objs
    ensures forall a {:trigger a in objs} :: a in objs ==> objs[a] <= b || e <= a
  {
    hide Headed, AloneOk, ObjectOk;
    var objs2 := objs[b := e];
    forall a {:trigger a in objs} | a in objs ensures objs[a] <= b || e <= a {
      assert a in objs2 && b in objs2;
      assert objs2[a] == objs[a] && objs2[b] == e;
    }
  }

  /** The words of a new object, apart from the others, may be raw. */
  lemma RawMore(objs: map<int, int>, raw: set<int>, raw2: set<int>, b: int, e: int)
    requires RawOk(objs[b := e], raw) && b < e
    requires forall x {:trigger x in raw} :: b <= x < e ==> x !in raw
    requires forall a {:trigger a in objs} :: a in objs && a != b ==> objs[a] <= b || e <= a
    requires raw2 == raw || forall x {:trigger x in raw2} :: x in raw2 <==> x in raw || b <= x < e
    ensures RawOk(objs[b := e], raw2)
  {
    var objs2 := objs[b := e];
    forall x {:trigger x in raw2} | x in raw2 ensures InSome(objs2, x) {
      assert b in objs2 && objs2[b] == e;
      assert x in raw || !(x in raw);
    }
    forall a {:trigger a in objs2} | a in objs2 ensures OneKind(objs2, raw2, a) {
      assert OneKind(objs2, raw, a);
    }
  }

  lemma AllocatedUnmoved(s: State, s2: State, b: int, n: int, kind: bool, raw: bool, a: int)
    requires RestOk(s) && Allocates(s, s2, b, n, kind, raw) && n > 0 && a in s2.objs
    ensures !Moved(s2, a)
  {
    hide ObjectsOk, SlackZero, RestWordOk, RawOk, PageOk, RegionOk, Evolves, Fresh, Gains;
    if a != b {
      ObjectNotEmpty(s.t, s.objs, a);
      FirstInUse(s.t, s.objs, a);
    }
  }

  lemma AllocatedParts(s: State, s2: State, b: int, n: int, kind: bool, raw: bool)
    requires RestOk(s) && Allocates(s, s2, b, n, kind, raw) && n > 0 && n % 2 == 0 && s.t.gen == 0
    ensures s2.t.Valid() && ObjectsOk(s2.t, s2.objs) && |s2.m| == (|s2.t.ps| - 1) * PAGE
    ensures SlackZero(s2.t, s2.objs, s2.m) && NoneTemporary(s2.t.ps) && SizesOk(s2.objs)
  {
    hide ObjectsOk, RestWordOk, RawOk, PageOk, RegionOk;
    SlackAllocated(s.t, s2.t, s.objs, s.m, s2.m, b, n);
    AllocatedPages(s.t, s2.t);
  }

  lemma AllocatedRest(s: State, s2: State, b: int, n: int, kind: bool, raw: bool)
    requires RestOk(s) && Allocates(s, s2, b, n, kind, raw) && n > 0 && n % 2 == 0 && s.t.gen == 0
    ensures RestOk(s2)
  {
    hide Allocates, ObjectsOk, SlackZero, SizesOk, RawOk, RestWordOk, Moved, NoneTemporary;
    AllocatedRaw(s, s2, b, n, kind, raw);
    AllocatedParts(s, s2, b, n, kind, raw);
    forall x ensures RestWordOk(s2, x) {
      AllocatedWord(s, s2, b, n, kind, raw, x);
    }
    forall a {:trigger a in s2.objs} | a in s2.objs ensures !Moved(s2, a) {
      AllocatedUnmoved(s, s2, b, n, kind, raw, a);
    }
  }

  lemma FirstInUse(t: Table, objs: map<int, int>, a: int)
    requires ObjectsOk(t, objs) && a in objs
    ensures t.InUse(a)
  {
    assert ObjectOk(t, a, objs[a]);
  }

  lemma AllocatedPages(t: Table, t2: Table)
    requires Evolves(t, t2) && t.gen < NUM_GENERATIONS && NoneTemporary(t.ps)
    ensures NoneTemporary(t2.ps)
  {
    forall i {:trigger t2.ps[i]} | 0 <= i < |t2.ps| && t2.ps[i].alloc ensures t2.ps[i].gen < NUM_GENERATIONS {
      assert t.ps[i] == t.ps[i];
    }
  }

  /** Allocates n words, which do not belong to an unboxed object yet. */
  method TakeWords(h: Heap, n: int, kind: bool, large: bool) returns (r: Allocation)
    requires h.Valid() && n > 0
    modifies h, h.pages, h.mem, h.gens
    ensures h.Valid() && h.allocGen == old(h.allocGen) && h.recording == old(h.recording)
    ensures if r.At? then Allocates(old(S(h)), S(h), r.addr, n, kind, false) else h.Exhausted(n, kind)
  {
    hide HeapOk, Evolves, Fresh, Recorded, Gains, ObjectsOk;
    r := h.QuickAlloc(n, kind, large);
    HeapFacts(h.T(), h.objs, h.gens[..], h.bytesAllocated, h.mem[..]);
  }

  /** The header of an object of n words says that it is an unboxed one. */
  method NoteRaw(h: Heap, a: int, n: int)
    requires h.Valid()
    modifies h`raw
    ensures h.Valid() && S(h) == old(S(h)).(raw := old(h.raw) + Span(a, a + n))
  {
    hide HeapOk;
    h.raw := h.raw + Span(a, a + n);
  }

  /** The mutator allocates an object of n words with the boxed or, if kind is set, the unboxed region; with raw set it
      is an unboxed object. */
  method Allocate(h: Heap, n: int, kind: bool, raw: bool, large: bool) returns (r: Allocation)
    requires Idle(h) && n > 0 && n % 2 == 0
    modifies h, h.pages, h.mem, h.gens
    ensures h.Valid()
    ensures if r.At? then Idle(h) && Allocates(old(S(h)), S(h), r.addr, n, kind, raw) else h.Exhausted(n, kind)
  {
    hide HeapOk, RestOk, Allocates;
    ghost var s := S(h);
    r := TakeWords(h, n, kind, large);
    if r.At? {
      ghost var s1 := S(h);
      if raw && !kind {
        NoteRaw(h, r.addr, n);
      }
      AllocatesRaw(s, s1, S(h), r.addr, n, kind, raw);
      AllocatedRest(s, S(h), r.addr, n, kind, raw);
    }
  }

  lemma AllocatesRaw(s: State, s1: State, s2: State, b: int, n: int, kind: bool, raw: bool)
    requires Allocates(s, s1, b, n, kind, false)
    requires s2 == s1.(raw := if raw && !kind then s1.raw + Span(b, b + n) else s1.raw)
    ensures Allocates(s, s2, b, n, kind, raw)
  {
    hide Evolves, Fresh, Gains, ObjectsOk;
  }

  // ---------- The write barrier ----------

  /** Page i is no longer write protected. */
  ghost predicate Unprotects(t: Table, t2: Table, i: int) {
    0 <= i < |t.ps| && t2 == t.(ps := t.ps[i := t.ps[i].(wp := false)])
  }

  lemma UnprotectOk(t: Table, t2: Table, i: int)
    requires t.Valid() && Unprotects(t, t2, i)
    ensures t2.Valid() && Keeps(t, t2) && SameWords(t, t2)
  {
    forall j | 0 <= j < |t2.ps| ensures PageOk(t2.ps, j) {
      assert PageOk(t.ps, j);
    }
    forall x ensures t2.InUse(x) <==> t.InUse(x) {
      UnprotectedInUse(t, t2, i, x);
    }
    UnprotectRegion(t, t2, i, false);
    UnprotectRegion(t, t2, i, true);
  }

  lemma UnprotectRegion(t: Table, t2: Table, i: int, k: bool)
    requires t.Valid() && Unprotects(t, t2, i)
    ensures RegionOk(t2.ps, t.Of(k), k, t.gen)
  {
    hide PageOk;
    assert forall j {:trigger t2.ps[j]} :: 0 <= j < |t.ps| ==>
        t2.ps[j] == t.ps[j].(wp := t2.ps[j].wp) && (t2.ps[j].wp ==> t.ps[j].wp);
  }

  lemma UnprotectedInUse(t: Table, t2: Table, i: int, x: int)
    requires Unprotects(t, t2, i)
    ensures t2.InUse(x) <==> t.InUse(x)
  {
  }

  lemma UnprotectZeroed(t: Table, t2: Table, i: int, m: seq<int>)
    requires Unprotects(t, t2, i) && |m| == (|t.ps| - 1) * PAGE && Zeroed(t, m)
    ensures Zeroed(t2, m)
  {
    forall x {:trigger ZeroAt(t2, m, x)} {:trigger m[x]} | 0 <= x < |m| ensures ZeroAt(t2, m, x) {
      assert ZeroAt(t, m, x);
      UnprotectedInUse(t, t2, i, x);
    }
  }

  lemma UnprotectObjects(t: Table, t2: Table, i: int, objs: map<int, int>)
    requires t.Valid() && Unprotects(t, t2, i) && Keeps(t, t2) && ObjectsOk(t, objs)
    ensures ObjectsOk(t2, objs)
  {
    hide PageOk, RegionOk, Placed;
    KeepsPlaced(t, t2, objs);
  }

  lemma UnprotectHeapOk(t: Table, t2: Table, i: int, objs: map<int, int>, gens: seq<Generation>, total: int,
        m: seq<int>)
    requires HeapOk(t, objs, gens, total, m) && Unprotects(t, t2, i)
    ensures HeapOk(t2, objs, gens, total, m)
  {
    hide PageOk, RegionOk, ObjectsOk, Zeroed;
    UnprotectOk(t, t2, i);
    UnprotectObjects(t, t2, i, objs);
    UnprotectZeroed(t, t2, i, m);
    forall g: int ensures Bytes(t2.ps, g) == Bytes(t.ps, g) {
      SumUpdate(t.ps, i, t2.ps[i], g, |t.ps|);
    }
  }

  lemma UnprotectRest(s: State, s2: State, i: int)
    requires RestOk(s) && Unprotects(s.t, s2.t, i) && s2 == s.(t := s2.t)
    ensures RestOk(s2)
  {
    hide ObjectsOk, PageOk, RegionOk, RawOk;
    UnprotectOk(s.t, s2.t, i);
    UnprotectObjects(s.t, s2.t, i, s.objs);
    forall x ensures RestWordOk(s2, x) {
      assert RestWordOk(s, x);
      UnprotectWord(s, s2, i, x);
    }
  }

  lemma UnprotectWord(s: State, s2: State, i: int, x: int)
    requires RestWordOk(s, x) && Unprotects(s.t, s2.t, i) && s2 == s.(t := s2.t)
    ensures RestWordOk(s2, x)
  {
    UnprotectedInUse(s.t, s2.t, i, x);
  }

  /** gc_write_barrier: the page fault handler makes the page writable and takes note of it. */
  method WriteBarrierFault(h: Heap, x: int) returns (handled: bool)
    requires AtRest(h)
    modifies h.pages
    ensures AtRest(h) && handled == (0 <= x < h.mem.Length)
    ensures handled ==> h.pages[..] == old(h.pages[..])[x / PAGE := old(h.pages[x / PAGE]).(wp := false)]
    ensures !handled ==> h.pages[..] == old(h.pages[..])
  {
    hide HeapOk, RestOk;
    if !(0 <= x < h.mem.Length) {
      return false;
    }
    ghost var s := S(h);
    var page := x / PAGE;
    h.pages[page] := h.pages[page].(wp := false);
    UnprotectHeapOk(s.t, h.T(), page, h.objs, h.gens[..], h.bytesAllocated, h.mem[..]);
    UnprotectRest(s, S(h), page);
    return true;
  }

  /** The words of an unboxed object are on unboxed pages or raw. */
  lemma UnboxedWord(s: State, a: int, x: int)
    requires s.t.Valid() && ObjectsOk(s.t, s.objs) && RawOk(s.objs, s.raw) && a in s.objs && a <= x < s.objs[a]
    requires UnboxedAt(s, a)
    ensures 0 <= x / PAGE < |s.t.ps| && (s.t.ps[x / PAGE].unboxed || x in s.raw)
  {
    hide Headed, AloneOk, PageOk, RegionOk;
    assert ObjectOk(s.t, a, s.objs[a]) && OneKind(s.objs, s.raw, a);
    ObjectKind(s.t, a, s.objs[a], x);
  }

  /** A word that may be stored at x in object a: any if the object is unboxed, but its header stays one. */
  predicate Storable(s: State, a: int, x: int, w: int) {
    (UnboxedAt(s, a) || WordOk(s, w)) && (x == a ==> w != FORWARDED)
  }

  lemma StoredRest(s: State, s2: State, a: int, x: int, w: int)
    requires RestOk(s) && a in s.objs && a <= x < s.objs[a] && 0 <= x < |s.m| && 0 <= x / PAGE < |s.t.ps|
    requires !s.t.ps[x / PAGE].wp
    requires Storable(s, a, x, w) && s2 == s.(m := s.m[x := w])
    ensures RestOk(s2)
  {
    hide ObjectsOk, PageOk, RegionOk, RawOk;
    if UnboxedAt(s, a) {
      UnboxedWord(s, a, x);
    }
    forall y ensures RestWordOk(s2, y) {
      assert RestWordOk(s, y);
    }
    forall y {:trigger s2.m[y]} | 0 <= y < |s2.m| && s2.t.InUse(y) && !InSome(s2.objs, y) ensures s2.m[y] == 0 {
      assert s.m[y] == 0 && y != x;
    }
    forall b {:trigger b in s2.objs} | b in s2.objs ensures !Moved(s2, b) {
      ObjectsApart(s, a, b, x);
    }
  }

  /** No other object begins within an object. */
  lemma ObjectsApart(s: State, a: int, b: int, x: int)
    requires ObjectsOk(s.t, s.objs) && a in s.objs && b in s.objs && a <= x < s.objs[a]
    ensures b == x ==> a == x
  {
    assert ObjectOk(s.t, a, s.objs[a]);
    assert a < b ==> s.objs[a] <= b;
  }

  /** The mutator stores a word in an object; if its page is write protected it faults first. */
  method StoreWord(h: Heap, a: int, x: int, w: int)
    requires AtRest(h) && a in h.objs && a <= x < h.objs[a] && Storable(S(h), a, x, w)
    modifies h.pages, h.mem
    ensures AtRest(h) && 0 <= x < h.mem.Length && 0 <= x / PAGE < h.pages.Length && !h.pages[x / PAGE].wp
    ensures h.pages[..] == old(h.pages[..])[x / PAGE := old(h.pages[x / PAGE]).(wp := false)]
    ensures forall y {:trigger h.mem[y]} :: 0 <= y < h.mem.Length ==> h.mem[y] == (if y == x then w else old(h.mem[y]))
  {
    hide HeapOk, RestOk, Storable;
    Gc.ObjectBounds(h.T(), h.objs, h.gens[..], h.bytesAllocated, h.mem[..], a);
    Gc.ObjectWord(h.T(), a, h.objs[a], x);
    ghost var s0 := S(h);
    if h.pages[x / PAGE].wp {
      var handled := WriteBarrierFault(h, x);
      StillStorable(s0, S(h), a, x, w);
    }
    ghost var s, m := S(h), h.mem[..];
    HeapFacts(s.t, s.objs, h.gens[..], h.bytesAllocated, s.m);
    Gc.ObjectBounds(h.T(), h.objs, h.gens[..], h.bytesAllocated, h.mem[..], a);
    Gc.ObjectWord(h.T(), a, h.objs[a], x);
    h.mem[x] := w;
    StoredHeapOk(s.t, s.objs, h.gens[..], h.bytesAllocated, m, h.mem[..]);
    StoredRest(s, S(h), a, x, w);
  }

  lemma StillStorable(s: State, s2: State, a: int, x: int, w: int)
    requires Storable(s, a, x, w) && s2.objs == s.objs && s2.raw == s.raw && 0 <= x / PAGE < |s.t.ps|
    requires s2.t.ps == s.t.ps[x / PAGE := s.t.ps[x / PAGE].(wp := false)]
    ensures Storable(s2, a, x, w)
  {
  }

  lemma StoredHeapOk(t: Table, objs: map<int, int>, gens: seq<Generation>, total: int, m: seq<int>, m2: seq<int>)
    requires HeapOk(t, objs, gens, total, m) && |m2| == |m|
    requires forall x {:trigger m2[x]} :: 0 <= x < |m| && !t.InUse(x) ==> m2[x] == m[x]
    ensures HeapOk(t, objs, gens, total, m2)
  {
    hide ObjectsOk, PageOk, RegionOk, Zeroed;
    Gc.WrittenZeroed(t, m, m2);
  }

  // ---------- Shrinking an object ----------

  /** The object at a has shrunk to n words; the words behind it are zero, and not raw any more. */
  ghost predicate Shrinks(s: State, s2: State, a: int, n: int) {
    && a in s.objs && 2 <= n && n % 2 == 0 && a + n <= s.objs[a]
    && s2 == s.(objs := s.objs[a := a + n], raw := s.raw - Span(a + n, s.objs[a]))
    && forall x {:trigger s.m[x]} :: a + n <= x < s.objs[a] && 0 <= x < |s.m| ==> s.m[x] == 0
  }

  /** What is left of an object is raw if it was. */
  lemma ShrunkRaw(objs: map<int, int>, raw: set<int>, a: int, n: int)
    requires RawOk(objs, raw) && a in objs && 2 <= n && a + n <= objs[a]
    requires forall b, c {:trigger b in objs, c in objs} :: b in objs && c in objs && b < c ==> objs[b] <= c
    ensures RawOk(objs[a := a + n], raw - Span(a + n, objs[a]))
  {
    var objs2, raw2 := objs[a := a + n], raw - Span(a + n, objs[a]);
    forall x {:trigger x in raw2} | x in raw2 ensures InSome(objs2, x) {
      var b :| b in objs && b <= x < objs[b];
      assert b in objs2;
    }
    forall b {:trigger b in objs2} | b in objs2 ensures OneKind(objs2, raw2, b) {
      assert b in objs && OneKind(objs, raw, b);
    }
  }

  lemma ShrunkWord(s: State, s2: State, a: int, n: int, x: int)
    requires Shrinks(s, s2, a, n) && RestWordOk(s, x)
    ensures RestWordOk(s2, x)
  {
  }

  /** Shrinking keeps the invariant between collections. */
  lemma ShrunkRest(s: State, s2: State, a: int, n: int)
    requires RestOk(s) && Shrinks(s, s2, a, n)
    ensures RestOk(s2)
  {
    hide Headed, ObjectOk, AloneOk, PageOk, RegionOk, RestWordOk, RawOk;
    ShrunkObjects(s.t, s.objs, a, n);
    ShrunkSlack(s.t, s.objs, s.m, s2.m, a, n);
    ShrunkRaw(s.objs, s.raw, a, n);
    forall x ensures RestWordOk(s2, x) {
      assert RestWordOk(s, x);
      ShrunkWord(s, s2, a, n, x);
    }
    forall b {:trigger b in s2.objs} | b in s2.objs ensures !Moved(s2, b) {
      assert b in s.objs;
    }
  }

  lemma ShrunkHeapOk(t: Table, objs: map<int, int>, a: int, n: int, gens: seq<Generation>, total: int, m: seq<int>)
    requires HeapOk(t, objs, gens, total, m) && a in objs && 0 < n && a + n <= objs[a]
    ensures HeapOk(t, objs[a := a + n], gens, total, m)
  {
    hide ObjectsOk, PageOk, RegionOk, Zeroed;
    ShrunkObjects(t, objs, a, n);
  }

  /** Sets the words from lo on to the end of an object to zero, one by one, each with its fault. */
  method ClearTail(h: Heap, a: int, lo: int)
    requires AtRest(h) && a in h.objs && a < lo <= h.objs[a]
    modifies h.pages, h.mem
    ensures AtRest(h)
    ensures forall x {:trigger h.mem[x]} :: 0 <= x < h.mem.Length ==>
              h.mem[x] == (if lo <= x < h.objs[a] then 0 else old(h.mem[x]))
    ensures forall i {:trigger h.pages[i]} :: 0 <= i < h.pages.Length ==>
              h.pages[i] == old(h.pages[i]).(wp := old(h.pages[i].wp) && !Touches(lo, h.objs[a], i))
  {
    hide HeapOk, RestOk;
    var x := lo;
    while x < h.objs[a]
      invariant lo <= x <= h.objs[a] && AtRest(h)
      invariant forall y {:trigger h.mem[y]} :: 0 <= y < h.mem.Length ==>
                  h.mem[y] == (if lo <= y < x then 0 else old(h.mem[y]))
      invariant forall i {:trigger h.pages[i]} :: 0 <= i < h.pages.Length ==>
                  h.pages[i] == old(h.pages[i]).(wp := old(h.pages[i].wp) && !Touches(lo, x, i))
    {
      StoreWord(h, a, x, 0);
      x := x + 1;
    }
  }

  /** One of the words lo to hi is on page i. */
  ghost predicate Touches(lo: int, hi: int, i: int) {
    lo < hi && lo / PAGE <= i <= (hi - 1) / PAGE
  }

  /** shrink-vector: the mutator sets the words that are left over to zero before it makes an object smaller. */
  method Shrink(h: Heap, a: int, n: int)
    requires AtRest(h) && a in h.objs && 2 <= n <= h.objs[a] - a && n % 2 == 0
    modifies h`objs, h`raw, h.pages, h.mem
    ensures AtRest(h) && h.objs == old(h.objs)[a := a + n] && h.raw == old(h.raw) - Span(a + n, old(h.objs[a]))
    ensures forall x {:trigger h.mem[x]} :: 0 <= x < h.mem.Length ==>
              h.mem[x] == (if a + n <= x < old(h.objs[a]) then 0 else old(h.mem[x]))
    ensures forall i {:trigger h.pages[i]} :: 0 <= i < h.pages.Length ==>
              h.pages[i] == old(h.pages[i]).(wp := old(h.pages[i].wp) && !Touches(a + n, old(h.objs[a]), i))
  {
    hide HeapOk, RestOk, Touches;
    ClearTail(h, a, a + n);
    ghost var s := S(h);
    h.raw := h.raw - Span(a + n, h.objs[a]);
    h.objs := h.objs[a := a + n];
    ShrunkHeapOk(s.t, s.objs, a, n, h.gens[..], h.bytesAllocated, s.m);
    ShrunkRest(s, S(h), a, n);
  }

  // ---------- Write protecting a generation ----------

  /** If no generation is younger then nothing refers to a younger one. */
  lemma ProtectWordRest(s: State, s2: State, gen: nat, i: int, x: int)
    requires RestWordOk(s, x) && Protects(s.t, s2.t, i) && s2 == s.(t := s2.t) && s.t.ps[i].gen == gen
    requires NoneYounger(s.t.ps, gen) && NoneTemporary(s.t.ps) && ObjectsOk(s.t, s.objs)
    ensures RestWordOk(s2, x)
  {
    hide Placed, Headed;
    ProtectedInUse(s.t, s2.t, i, x);
    if 0 <= x < |s.m| && s.t.InUse(x) && !s.t.ps[x / PAGE].unboxed && x !in s.raw && x / PAGE == i &&
        Dynamic(s.t, s.m[x]) {
      FirstInUse(s.t, s.objs, Target(s.m[x]));
    }
  }

  lemma ProtectRest(s: State, s2: State, gen: nat, i: int)
    requires RestOk(s) && Protects(s.t, s2.t, i) && s2 == s.(t := s2.t) && s.t.ps[i].alloc && s.t.ps[i].gen == gen
    requires NoneYounger(s.t.ps, gen) && Uncovered(s.t, i)
    ensures RestOk(s2)
  {
    hide ObjectsOk, PageOk, RegionOk, RestWordOk;
    ProtectOk(s.t, s2.t, i);
    ProtectObjects(s.t, s2.t, i, s.objs);
    forall x ensures RestWordOk(s2, x) {
      assert RestWordOk(s, x);
      ProtectWordRest(s, s2, gen, i, x);
    }
    ProtectSlack(s, s2, i);
  }

  /** write_protect_generation_pages, for a generation that has no younger one left. */
  method WriteProtectGeneration(h: Heap, gen: nat)
    requires AtRest(h) && Flushed(h.T()) && gen < NUM_GENERATIONS && NoneYounger(h.pages[..], gen)
    modifies h.pages
    ensures AtRest(h) && Flushed(h.T())
    ensures forall i {:trigger h.pages[i]} :: 0 <= i < h.pages.Length ==>
              h.pages[i] == (if NewPage(old(h.pages[i]), gen) then old(h.pages[i]).(wp := true) else old(h.pages[i]))
  {
    hide HeapOk, RestOk, PageOk, RegionOk;
    RestFacts(h);
    FreeAtEnd(h.T());
    var i := 0;
    while i < h.lastFree
      invariant 0 <= i <= h.lastFree < h.pages.Length && AtRest(h) && Flushed(h.T()) && NoneYounger(h.pages[..], gen)
      invariant forall j {:trigger h.pages[j]} :: 0 <= j < h.pages.Length ==>
                  h.pages[j] == (if j < i && NewPage(old(h.pages[j]),
                      gen) then old(h.pages[j]).(wp := true) else old(h.pages[j]))
    {
      if h.pages[i].alloc && !h.pages[i].unboxed && h.pages[i].used != 0 && h.pages[i].gen == gen {
        ghost var s := S(h);
        h.pages[i] := h.pages[i].(wp := true);
        ProtectHeapOk(s.t, h.T(), i, h.objs, h.gens[..], h.bytesAllocated, h.mem[..]);
        ProtectRest(s, S(h), gen, i);
      }
      i := i + 1;
    }
  }

  lemma RestFacts(h: Heap)
    requires AtRest(h)
    ensures h.T().Valid() && 0 <= h.lastFree < h.pages.Length
  {
  }

  lemma FreeAtEnd(t: Table)
    requires t.Valid()
    ensures forall i {:trigger t.ps[i]} :: t.lastFree <= i < |t.ps| ==> !t.ps[i].alloc
  {
  }
}
