/** The beginning of a collection of one generation, garbage_collect_generation in src/lisp/gencgc.c: the objects that
    the control stack may refer to are pinned, and the invariants of a collection hold. */
module CollectionStart {
  import opened PageTable
  import opened PageObjects
  import opened PageBlocks
  import opened PageGrowth
  import opened PageHeap
  import Gc = PageGc
  import opened PageRuns
  import opened NewAreas
  import opened Newspace
  import opened ConservativeRoots
  import opened WordAccount
  import opened NewspaceMirror
  import opened NewspaceTrace
  import opened NewspaceScan
  import opened WriteBarrier
  import opened Resting
  import opened KeptObjects
  import opened LiveObjects

  /** The headers say how large the objects are and which of them are unboxed. */
  ghost predicate ShapesOk(s: State, shapes: map<int, Shape>) {
    && (forall a {:trigger a in shapes} {:trigger a in s.objs} :: a in shapes <==> a in s.objs)
    && (forall a {:trigger a in shapes} :: a in shapes && a in s.objs ==>
          s.objs[a] == a + shapes[a].words && (shapes[a].unboxed <==> UnboxedAt(s, a)))
  }

  /** What maybe_adjust_large_object reads in the header of an object. */
  function HeaderOf(shapes: map<int, Shape>, a: int): Gc.Header {
    if a !in shapes then Gc.Header(Gc.Other, 0)
    else
      var sort := if !shapes[a].adjusted then Gc.Other else if shapes[a].unboxed then Gc.UnboxedArray else Gc.Vector;
      Gc.Header(sort, shapes[a].words)
  }

  /** How it is when a collection begins. */
  ghost function Beginning(s: State): (o: Origin)
    ensures o.m == s.m && o.objs == s.objs && o.clean == {}
  {
    Origin(s.m, s.objs, set a | a in s.objs && UnboxedAt(s, a), {}, {}, {})
  }

  /** The same with the objects of the generation that is collected and those that can be reached. */
  ghost function Tracked(s: State, from: nat, stack: seq<StackWord>, roots: seq<int>): (o: Origin)
    ensures o.m == s.m && o.objs == s.objs && o.clean == {} && o.unboxed == Beginning(s).unboxed
  {
    Beginning(s).(oldObjs := (set a | a in s.objs && OldObject(s, from, a)),
                  live := AllReached(s, from, PinnedObjects(s, from, stack), roots))
  }

  /** The heap was at rest as s, and now it is s2, with the old space unprotected and some of it pinned. */
  ghost predicate Begins(s: State, s2: State, from: nat) {
    && s2 == s.(t := s2.t, areas := []) && s2.t == s.t.(ps := s2.t.ps, gen := s2.t.gen) && Flushed(s.t)
    && from < s2.t.gen <= NUM_GENERATIONS
    && Gc.Begun(s.t.ps, s2.t.ps, from, s2.t.gen) && Gc.SameKinds(s.t.ps, s2.t.ps, s.objs, s.raw)
    && (forall i {:trigger s2.t.ps[i]} :: 0 <= i < |s2.t.ps| && s2.t.ps[i].alloc && s.t.ps[i].gen == from ==>
          !s2.t.ps[i].wp)
  }

  lemma BegunInUse(s: State, s2: State, from: nat, x: int)
    requires Begins(s, s2, from) && s2.t.InUse(x)
    ensures s.t.InUse(x) && Gc.BegunPage(s.t.ps[x / PAGE], s2.t.ps[x / PAGE], from, s2.t.gen)
  {
  }

  lemma BeginWord(s: State, s2: State, from: nat, x: int)
    requires RestWordOk(s, x) && Begins(s, s2, from) && NoneYounger(s.t.ps, from)
    ensures NewWordOk(s2, from, x)
  {
    if 0 <= x < |s.m| && Tagged(s2, from, x) {
      BegunInUse(s, s2, from, x);
      if s2.t.ps[x / PAGE].wp {
        BegunOlder(s, s2, from, s.t.ps[x / PAGE].gen, s.m[x]);
      }
    }
  }

  lemma BegunOlder(s: State, s2: State, from: nat, gen: nat, w: int)
    requires Begins(s, s2, from) && from < gen && OlderOk(s.t, s.objs, gen, w)
    ensures OlderOk(s2.t, s2.objs, gen, w)
  {
    if Dynamic(s.t, w) {
      assert Gc.BegunPage(s.t.ps[Target(w) / PAGE], s2.t.ps[Target(w) / PAGE], from, s2.t.gen);
    }
  }

  lemma BeginOldObject(s: State, s2: State, from: nat, shapes: map<int, Shape>, a: int)
    requires RestOk(s) && Begins(s, s2, from) && ShapesOk(s, shapes)
    ensures OldObjectOk(s2, from, shapes, a)
  {
    hide SlackZero, ObjectsOk, RestWordOk, RawOk, PageOk, RegionOk, IsUnboxed, Gc.Begun;
    if a in s.objs {
      ObjectInUse(s, a);
      assert UnboxedAt(s2, a) <==> UnboxedAt(s, a);
      if OldObject(s2, from, a) && !shapes[a].unboxed {
        forall x {:trigger s.m[x]} | a <= x < s.objs[a] ensures WordOk(s2, s.m[x]) {
          BoxedWord(s, a, x);
          SameDynamic(s, s2, from, s.m[x]);
        }
      }
    }
  }

  lemma SameDynamic(s: State, s2: State, from: nat, w: int)
    requires Begins(s, s2, from)
    ensures Dynamic(s2.t, w) <==> Dynamic(s.t, w)
    ensures WordOk(s2, w) <==> WordOk(s, w)
  {
  }

  lemma BeginSlack(s: State, s2: State, from: nat)
    requires SlackZero(s.t, s.objs, s.m) && Begins(s, s2, from)
    ensures SlackZero(s2.t, s2.objs, s2.m)
  {
    forall x {:trigger s2.m[x]} | 0 <= x < |s2.m| && s2.t.InUse(x) && !InSome(s2.objs, x) ensures s2.m[x] == 0 {
      BegunInUse(s, s2, from, x);
      assert s.m[x] == 0;
    }
  }

  lemma BeginApart(s: State, s2: State, from: nat)
    requires Begins(s, s2, from)
    ensures RawApart(s2.t, s2.areas, s2.raw) && Unprotected(s2.t.ps, from)
  {
    forall i {:trigger s2.t.ps[i]} | 0 <= i < |s2.t.ps| && s2.t.ps[i].alloc && s2.t.ps[i].gen == from
      ensures !s2.t.ps[i].wp
    {
      assert Gc.BegunPage(s.t.ps[i], s2.t.ps[i], from, s2.t.gen);
    }
  }

  /** When a collection begins its invariants hold. */
  lemma BeginInv(s: State, s2: State, from: nat, shapes: map<int, Shape>)
    requires RestOk(s) && Begins(s, s2, from) && ShapesOk(s, shapes) && NoneYounger(s.t.ps, from)
    requires s2.t.Valid() && ObjectsOk(s2.t, s2.objs)
    ensures InvOk(s2, from, shapes)
  {
    BeginSlack(s, s2, from);
    BeginApart(s, s2, from);
    BeginLength(s, s2, from);
    hide Begins, ObjectsOk, PageOk, RegionOk, RestWordOk, NewWordOk, OldObjectOk, RawOk, ShapesOk, SlackZero, RawApart,
      Unprotected;
    forall x ensures NewWordOk(s2, from, x) {
      assert RestWordOk(s, x);
      BeginWord(s, s2, from, x);
    }
    forall a ensures OldObjectOk(s2, from, shapes, a) {
      BeginOldObject(s, s2, from, shapes, a);
    }
  }

  lemma BeginLength(s: State, s2: State, from: nat)
    requires Begins(s, s2, from)
    ensures s2.m == s.m && s2.objs == s.objs && s2.raw == s.raw && s2.areas == [] && from != s2.t.gen
    ensures |s2.t.ps| == |s.t.ps|
  {
  }

  lemma BeginKinds(s: State, s2: State, from: nat, shapes: map<int, Shape>)
    requires Begins(s, s2, from) && ShapesOk(s, shapes)
    ensures KindsOk(shapes, Beginning(s))
    ensures forall o: Origin :: o.unboxed == Beginning(s).unboxed ==> KindsOk(shapes, o)
    ensures forall a {:trigger a in Beginning(s).unboxed} {:trigger a in s.objs} ::
      a in s.objs ==> (a in Beginning(s).unboxed <==> UnboxedAt(s2, a))
  {
    hide IsUnboxed, Gc.Begun;
  }

  lemma BegunGenerations(s: State, s2: State, from: nat)
    requires Begins(s, s2, from) && NoneYounger(s.t.ps, from) && NoneTemporary(s.t.ps)
    ensures NoneYounger(s2.t.ps, from) && (s2.t.gen != NUM_GENERATIONS ==> NoneTemporary(s2.t.ps))
  {
    forall i {:trigger s2.t.ps[i]} | 0 <= i < |s2.t.ps| && s2.t.ps[i].alloc
      ensures from <= s2.t.ps[i].gen && (s2.t.gen != NUM_GENERATIONS ==> s2.t.ps[i].gen < NUM_GENERATIONS)
    {
      assert Gc.BegunPage(s.t.ps[i], s2.t.ps[i], from, s2.t.gen);
      assert s.t.ps[i].alloc;
    }
  }

  /** In the beginning nothing had been forwarded. */
  ghost predicate NoneMovedAtFirst(o: Origin) {
    forall a {:trigger a in o.objs} :: a in o.objs && 0 <= a < |o.m| ==> o.m[a] != FORWARDED
  }

  lemma RestPages(s: State)
    requires RestOk(s)
    ensures s.t.Valid() && NoneTemporary(s.t.ps) && SlackZero(s.t, s.objs, s.m)
  {
  }

  lemma RestUnmoved(s: State)
    requires RestOk(s)
    ensures NoneMovedAtFirst(Beginning(s))
  {
  }

  lemma ReflagsBegins(s: State, s1: State, from: nat)
    requires Gc.Reflags(s.t, s1.t) && s1 == s.(t := s1.t, areas := []) && Flushed(s.t)
    requires Unprotected(s1.t.ps, from) && from < s1.t.gen
    ensures Begins(s, s1, from)
  {
    forall i {:trigger s1.t.ps[i]} | 0 <= i < |s1.t.ps|
      ensures Gc.BegunPage(s.t.ps[i], s1.t.ps[i], from, s1.t.gen) && s1.t.ps[i].unboxed == s.t.ps[i].unboxed
    {
      assert s1.t.ps[i] == s.t.ps[i].(dontMove := s1.t.ps[i].dontMove, wp := s1.t.ps[i].wp);
    }
  }

  lemma PreservedBegins(s: State, s1: State, s2: State, from: nat)
    requires Begins(s, s1, from) && s2 == s1.(t := s2.t) && s2.t == s1.t.(ps := s2.t.ps)
    requires Gc.Begun(s1.t.ps, s2.t.ps, from, s1.t.gen) && Gc.SameKinds(s1.t.ps, s2.t.ps, s.objs, s.raw)
    ensures Begins(s, s2, from)
  {
    Gc.BegunThen(s.t.ps, s1.t.ps, s2.t.ps, from, s1.t.gen);
    Gc.KindsThen(s.t.ps, s1.t.ps, s2.t.ps, s.objs, s.raw);
    forall i {:trigger s2.t.ps[i]} | 0 <= i < |s2.t.ps| && s2.t.ps[i].alloc && s.t.ps[i].gen == from
      ensures !s2.t.ps[i].wp
    {
      assert Gc.BegunPage(s1.t.ps[i], s2.t.ps[i], from, s1.t.gen);
    }
  }

  /** preserve_pointer may be called now. */
  lemma BeginPinnable(h: Heap, s: State, from: nat, shapes: map<int, Shape>)
    requires h.Valid() && Flushed(h.T()) && from < NUM_GENERATIONS && Begins(s, S(h), from) && ShapesOk(s, shapes)
    requires SlackZero(s.t, s.objs, s.m)
    requires forall i {:trigger h.pages[i]} :: 0 <= i < h.pages.Length && h.pages[i].alloc ==> !h.pages[i].dontMove
    ensures Gc.Pinnable(h, from, a => HeaderOf(shapes, a))
  {
    hide HeapOk;
    BeginSlack(s, S(h), from);
    BeginApart(s, S(h), from);
    TailFromSlack(h.T(), h.objs, h.gens[..], h.bytesAllocated, h.mem[..]);
    hide SlackZero;
    forall a {:trigger a in h.objs} | a in h.objs
      ensures HeaderOf(shapes, a).words == h.objs[a] - a
      ensures Gc.SortOk(HeaderOf(shapes, a).sort, IsUnboxed(h.pages[..], h.raw, a))
    {
      assert UnboxedAt(S(h), a) <==> UnboxedAt(s, a);
    }
  }

  // ---------- What may be moved ----------

  /** An object of the old space that has left it has been pinned. */
  lemma LeftPinned(s: State, s2: State, from: nat, stack: seq<StackWord>, a: int)
    requires RestOk(s) && Begins(s, s2, from) && s2.t.Valid() && ObjectsOk(s2.t, s2.objs)
    requires PinnedOnly(s.t.ps, s2.t.ps, from, stack, 0) && OldObject(s, from, a) && !OldObject(s2, from, a)
    ensures a in PinnedObjects(s, from, stack)
  {
    hide PageOk, RegionOk, SlackZero, RestWordOk, RawOk, ObjectsOk, PinnedFrom, Gc.SameKinds;
    var i := a / PAGE;
    assert Gc.BegunPage(s.t.ps[i], s2.t.ps[i], from, s2.t.gen);
    FirstInUse(s2.t, s2.objs, a);
    assert LeftOldSpace(s.t.ps[i], s2.t.ps[i], from);
  }

  /** So it can be reached. */
  lemma LeftReached(s: State, s2: State, from: nat, stack: seq<StackWord>, roots: seq<int>, a: int)
    requires RestOk(s) && Begins(s, s2, from) && s2.t.Valid() && ObjectsOk(s2.t, s2.objs)
    requires PinnedOnly(s.t.ps, s2.t.ps, from, stack, 0) && OldObject(s, from, a) && !OldObject(s2, from, a)
    ensures Young(s, from, a) && a in AllReached(s, from, PinnedObjects(s, from, stack), roots)
  {
    LeftPinned(s, s2, from, stack, a);
    hide RestOk, Begins, PinnedOnly, AllReached, PinnedObjects;
    ReachedClosed(s, from, PinnedObjects(s, from, stack), roots);
  }

  /** A word that has to be scavenged in the beginning is a word of an older generation, or of a pinned object. */
  lemma BeginTodo(s: State, s2: State, from: nat, stack: seq<StackWord>, roots: seq<int>, x: int)
    requires RestOk(s) && Begins(s, s2, from) && s2.t.Valid() && ObjectsOk(s2.t, s2.objs) && NoneYounger(s.t.ps, from)
    requires PinnedOnly(s.t.ps, s2.t.ps, from, stack, 0) && Todo(s2, from, x)
    ensures Target(s2.m[x]) in AllReached(s, from, PinnedObjects(s, from, stack), roots)
  {
    hide PinnedObjects, PinnedOnly, AllReached, RestOk;
    var live := AllReached(s, from, PinnedObjects(s, from, stack), roots);
    ReachedClosed(s, from, PinnedObjects(s, from, stack), roots);
    BeginRefers(s, s2, from, x);
    hide Begins, Refers, Todo, RefersYoung, OlderWord;
    if OlderWord(s, from, x) {
      OlderInHeap(s, from, x);
    } else {
      var a := BeginOwner(s, s2, from, x);
      LeftReached(s, s2, from, stack, roots, a);
      assert HoldsFields(s, from, live, a);
    }
  }

  lemma BeginRefers(s: State, s2: State, from: nat, x: int)
    requires RestOk(s) && Begins(s, s2, from) && Todo(s2, from, x) && NoneYounger(s.t.ps, from)
    ensures 0 <= x < |s.m| && s2.m == s.m && s.m[x] != 0 && RefersYoung(s, from, s.m[x])
    ensures OlderWord(s, from, x) || (s.t.InUse(x) && s.t.ps[x / PAGE].gen == from && !s.t.ps[x / PAGE].unboxed
                                      && x !in s.raw && s2.t.InUse(x) && s2.t.ps[x / PAGE].gen != from)
  {
    hide PageOk, RegionOk, SlackZero, RawOk, ObjectsOk, Gc.SameKinds;
    BegunInUse(s, s2, from, x);
    assert RestWordOk(s, x);
    var i := Target(s.m[x]) / PAGE;
    assert Gc.BegunPage(s.t.ps[i], s2.t.ps[i], from, s2.t.gen);
    assert s.t.ps[x / PAGE].alloc;
  }

  /** A word of the old space that is not there any more belongs to an object that is not. */
  lemma BeginOwner(s: State, s2: State, from: nat, x: int) returns (a: int)
    requires RestOk(s) && Begins(s, s2, from) && s2.t.Valid() && ObjectsOk(s2.t, s2.objs)
    requires 0 <= x < |s.m| && s.m[x] != 0 && s.t.InUse(x) && s.t.ps[x / PAGE].gen == from && x !in s.raw
    requires !s.t.ps[x / PAGE].unboxed && s2.t.InUse(x) && s2.t.ps[x / PAGE].gen != from
    ensures a <= x && OldObject(s, from, a) && !OldObject(s2, from, a) && !UnboxedAt(s, a) && x < s.objs[a]
  {
    hide SizesOk, RestWordOk, PageOk, RegionOk, Headed, AloneOk, Gc.Begun, Gc.SameKinds;
    assert InSome(s.objs, x);
    a :| a in s.objs && a <= x < s.objs[a];
    assert ObjectOk(s.t, a, s.objs[a]) && ObjectOk(s2.t, a, s2.objs[a]) && OneKind(s.objs, s.raw, a);
    ObjectKind(s.t, a, s.objs[a], x);
    ObjectGeneration(s.t, a, s.objs[a], x);
    ObjectGeneration(s2.t, a, s.objs[a], x);
  }

  lemma BeginClosed(s: State, from: nat, stack: seq<StackWord>, roots: seq<int>)
    requires RestOk(s)
    ensures LiveClosed(Tracked(s, from, stack, roots))
  {
    var o := Tracked(s, from, stack, roots);
    hide RestOk, PinnedObjects, AllReached, Dynamic;
    ReachedClosed(s, from, PinnedObjects(s, from, stack), roots);
    forall a {:trigger a in o.live} | a in o.live && a in o.oldObjs && a in o.objs && a !in o.unboxed
      ensures TargetsIn(o, a)
    {
      assert HoldsFields(s, from, o.live, a);
      forall x {:trigger o.m[x]} |
        a <= x < o.objs[a] && 0 <= x < |o.m| && Pointerp(o.m[x]) && Target(o.m[x]) in o.oldObjs
        ensures Target(o.m[x]) in o.live
      {
        RestDynamic(s, o.m[x]);
        assert RefersYoung(s, from, s.m[x]);
      }
    }
  }

  lemma RestDynamic(s: State, w: int)
    requires RestOk(s) && Pointerp(w) && Target(w) in s.objs
    ensures Dynamic(s.t, w)
  {
    hide SlackZero, RestWordOk, RawOk, PageOk, RegionOk;
    ObjectInUse(s, Target(w));
  }

  /** In the beginning only what can be reached has been moved, that is pinned, or is referred to. */
  lemma BeginTraced(s: State, s2: State, from: nat, stack: seq<StackWord>, roots: seq<int>)
    requires RestOk(s) && Begins(s, s2, from) && s2.t.Valid() && ObjectsOk(s2.t, s2.objs) && NoneYounger(s.t.ps, from)
    requires PinnedOnly(s.t.ps, s2.t.ps, from, stack, 0)
    ensures Traced(s2, from, Tracked(s, from, stack, roots))
  {
    var o := Tracked(s, from, stack, roots);
    BeginClosed(s, from, stack, roots);
    BeginLength(s, s2, from);
    hide RestOk, PinnedObjects, PinnedOnly, AllReached, ObjectsOk, PageOk, RegionOk, Todo, LiveClosed, NewObject;
    forall a {:trigger OldObject(s2, from, a)} | OldObject(s2, from, a) ensures a in o.oldObjs {
      assert Gc.BegunPage(s.t.ps[a / PAGE], s2.t.ps[a / PAGE], from, s2.t.gen);
    }
    hide Begins;
    forall a {:trigger a in o.oldObjs} | a in o.oldObjs && a !in Unmoved(s2, from) ensures a in o.live {
      RestNotMoved(s, a);
      LeftReached(s, s2, from, stack, roots, a);
    }
    forall x {:trigger Todo(s2, from, x)} | Todo(s2, from, x)
      ensures 0 <= x < |s2.m| && Target(s2.m[x]) in o.live
    {
      BeginRefers(s, s2, from, x);
      BeginTodo(s, s2, from, stack, roots, x);
    }
  }

  /** What the roots refer to in the old space may be moved. */
  ghost predicate RootsLive(s: State, from: nat, o: Origin, roots: seq<int>) {
    forall i {:trigger roots[i]} :: 0 <= i < |roots| && Refers(s.t, from, roots[i]) ==> Target(roots[i]) in o.live
  }

  lemma BeginRoots(s: State, s2: State, from: nat, stack: seq<StackWord>, roots: seq<int>)
    requires Begins(s, s2, from) && RootsOk(s, roots)
    ensures RootsLive(s2, from, Tracked(s, from, stack, roots), roots)
  {
    hide AllReached, PinnedObjects;
    ReachedClosed(s, from, PinnedObjects(s, from, stack), roots);
    forall i {:trigger roots[i]} | 0 <= i < |roots| && Refers(s2.t, from, roots[i])
      ensures RefersYoung(s, from, roots[i])
    {
      var k := Target(roots[i]) / PAGE;
      assert Gc.BegunPage(s.t.ps[k], s2.t.ps[k], from, s2.t.gen);
    }
  }

  lemma RestNotMoved(s: State, a: int)
    requires RestOk(s) && a in s.objs
    ensures !Moved(s, a)
  {
  }

  // ---------- The beginning ----------

  /** The beginning of garbage_collect_generation: the old space is still there but for what has been pinned, and
      nothing has been forwarded. */
  method BeginGeneration(h: Heap, from: nat, raise: bool, shapes: map<int, Shape>, stack: seq<StackWord>,
        ghost roots: seq<int>) returns (ghost o: Origin)
    requires AtRest(h) && Flushed(h.T()) && from < NUM_GENERATIONS && (from == NUM_GENERATIONS - 1 ==> !raise)
    requires h.gens[NUM_GENERATIONS].bytes == 0 && NoneYounger(h.pages[..], from) && ShapesOk(S(h), shapes)
    modifies h`allocGen, h`areas, h`bytesAllocated, h.pages, h.gens
    ensures Ready(h, from, shapes, o) && o == Tracked(old(S(h)), from, stack, roots) && NoneMovedAtFirst(o)
    ensures h.allocGen == (if raise then from + 1 else NUM_GENERATIONS) && NoneYounger(h.pages[..], from)
    ensures Begins(old(S(h)), S(h), from) && Flushed(h.T())
    ensures AllSaved(h.pages[..], h.objs, from, stack, 0)
    ensures raise ==> NoneTemporary(h.pages[..])
  {
    hide HeapOk, RestOk, InvOk, Mirrors, Traced, ShapesOk, PageOk, RegionOk, Gc.Reflags, Begins, Gc.Pinnable, Gc.Begun,
      Gc.SameKinds, AllSaved;
    ghost var s := S(h);
    RestPages(s);
    Gc.BeginCollection(h, from, raise);
    h.areas := [];
    ghost var s1 := S(h);
    ReflagsBegins(s, s1, from);
    BeginPinnable(h, s, from, shapes);
    PreserveStack(h, from, stack, a => HeaderOf(shapes, a));
    ReflagsPinned(s.t, s1.t, h.pages[..], from, stack);
    PreservedBegins(s, s1, S(h), from);
    PinnableValid(h, from, a => HeaderOf(shapes, a));
    BeginInv(s, S(h), from, shapes);
    o := Tracked(s, from, stack, roots);
    BeginKinds(s, S(h), from, shapes);
    BeginLength(s, S(h), from);
    MirrorsAtFirst(S(h), from, shapes, o);
    BeginTraced(s, S(h), from, stack, roots);
    RestUnmoved(s);
    BegunGenerations(s, S(h), from);
  }

  /** Flags do not matter for what is pinned. */
  lemma ReflagsPinned(t: Table, t1: Table, ps2: seq<Page>, from: nat, stack: seq<StackWord>)
    requires Gc.Reflags(t, t1) && |ps2| == |t.ps| && PinnedOnly(t1.ps, ps2, from, stack, 0)
    ensures PinnedOnly(t.ps, ps2, from, stack, 0)
  {
    forall i {:trigger t1.ps[i]} | 0 <= i < |t.ps|
      ensures t1.ps[i] == t.ps[i].(dontMove := t1.ps[i].dontMove, wp := t1.ps[i].wp)
    {
    }
    forall i {:trigger ps2[i]} | 0 <= i < |t.ps| && LeftOldSpace(t.ps[i], ps2[i], from)
      ensures PinnedFrom(t.ps, from, stack, 0, i)
    {
      assert t1.ps[i] == t1.ps[i];
      var k :| 0 <= k < |stack| && PinsPage(t1.ps, from, stack[k], i);
      ReflagsPins(t, t1, from, stack[k], i);
    }
  }

  lemma ReflagsPins(t: Table, t1: Table, from: nat, w: StackWord, i: int)
    requires Gc.Reflags(t, t1) && PinsPage(t1.ps, from, w, i)
    ensures PinsPage(t.ps, from, w, i)
  {
    var j := Target(w.word) / PAGE;
    assert t1.ps[j] == t1.ps[j];
    forall k {:trigger t.ps[k]} | i < k <= j || j < k <= i ensures t.ps[k].offset != 0 {
      assert t1.ps[k].offset != 0;
    }
  }

  lemma PinnableValid(h: Heap, from: nat, header: int -> Gc.Header)
    requires Gc.Pinnable(h, from, header)
    ensures h.Valid() && h.T().Valid() && ObjectsOk(h.T(), h.objs) && Flushed(h.T())
  {
  }
}
