/** A collection of one generation from beginning to end, garbage_collect_generation in src/lisp/gencgc.c. */
module GenerationalCollection {
  import opened PageTable
  import opened PageObjects
  import opened PageBlocks
  import opened PageGrowth
  import opened PageHeap
  import Gc = PageGc
  import opened PageRuns
  import opened NewAreas
  import opened Newspace
  import opened ConservativeRoots
  import opened WordAccount
  import opened NewspaceMirror
  import opened NewspaceTrace
  import opened NewspaceScan
  import opened WriteBarrier
  import opened Resting
  import opened KeptObjects
  import opened LiveObjects
  import opened CollectionStart

  // ---------- The roots ----------

  /** Root w, which was w0, has followed its object. */
  predicate RootDone(s: State, from: nat, w0: int, w: int) {
    WordOk(s, w) && !Refers(s.t, from, w) && (w == w0 || Gone(s, from, w0, w))
  }

  lemma RootStays(s: State, s2: State, from: nat, w0: int, w: int)
    requires Onward(s, s2, from) && RootDone(s, from, w0, w)
    ensures RootDone(s2, from, w0, w)
  {
    hide OldObject;
    assert Refers(s2.t, from, w) ==> Refers(s.t, from, w);
  }

  ghost predicate RootsDone(s: State, from: nat, roots0: seq<int>, roots: seq<int>) {
    |roots| == |roots0| && forall i {:trigger roots[i]} :: 0 <= i < |roots| ==> RootDone(s, from, roots0[i], roots[i])
  }

  lemma RootsStay(s: State, s2: State, from: nat, roots0: seq<int>, roots: seq<int>)
    requires Onward(s, s2, from) && RootsDone(s, from, roots0, roots)
    ensures RootsDone(s2, from, roots0, roots)
  {
    hide OutOfMemory, Onward, RootDone;
    forall i {:trigger roots[i]} | 0 <= i < |roots| ensures RootDone(s2, from, roots0[i], roots[i]) {
      RootStays(s, s2, from, roots0[i], roots[i]);
    }
  }

  /** Scavenges the roots: the binding stack, the control stack, the static space and so on. */
  method ScavengeRoots(h: Heap, from: nat, shapes: map<int, Shape>, ghost o: Origin, roots: array<int>)
        returns (ok: bool)
    requires Ready(h, from, shapes, o) && h.recording.Off? && roots != h.mem
    requires RootsOk(S(h), roots[..]) && RootsLive(S(h), from, o, roots[..])
    modifies h, h.pages, h.mem, h.gens, roots
    ensures h.Valid() && (ok ==> Ready(h, from, shapes, o) && h.recording.Off? && h.allocGen == old(h.allocGen))
    ensures !ok ==> OutOfMemory(h)
    ensures ok ==> Onward(old(S(h)), S(h), from) && RootsDone(S(h), from, old(roots[..]), roots[..])
  {
    hide OutOfMemory, Onward, HeapOk, InvOk, Mirrors, Traced, Clean, Boxed, RootDone, WordOk, Refers;
    ghost var s, roots0 := S(h), roots[..];
    OnwardSame(s, s, from);
    EverythingSafe(s, from, h.recording, 0, 0);
    ok := true;
    var i := 0;
    while i < roots.Length
      invariant 0 <= i <= roots.Length && Ready(h, from, shapes, o) && h.recording.Off? && h.allocGen == s.t.gen
      invariant Onward(s, S(h), from)
      invariant forall j {:trigger roots[j]} :: i <= j < roots.Length ==> roots[j] == roots0[j]
      invariant forall j {:trigger roots[j]} :: 0 <= j < i ==> RootDone(S(h), from, roots0[j], roots[j])
    {
      ghost var s1 := S(h);
      OnwardWord(s, s1, from, roots0[i]);
      OnwardRefers(s, s1, from, roots0[i]);
      EverythingSafe(s1, from, h.recording, 0, 0);
      var w;
      ok, w := FollowWord(h, from, shapes, o, roots[i], Everything());
      if !ok {
        return;
      }
      OnwardTwice(s, s1, S(h), from);
      forall j | 0 <= j < i ensures RootDone(S(h), from, roots0[j], roots[j]) {
        RootStays(s1, S(h), from, roots0[j], roots[j]);
      }
      DoneRoot(S(h), from, roots0[i], w);
      ghost var s2 := S(h);
      roots[i] := w;
      assert S(h) == s2;
      i := i + 1;
    }
  }

  lemma OnwardRefers(s: State, s2: State, from: nat, w: int)
    requires Onward(s, s2, from)
    ensures Refers(s2.t, from, w) ==> Refers(s.t, from, w)
  {
  }

  lemma DoneRoot(s: State, from: nat, w0: int, w: int)
    requires WordOk(s, w) && !Refers(s.t, from, w) && (w == w0 || Gone(s, from, w0, w))
    ensures RootDone(s, from, w0, w)
  {
  }

  // ---------- The other generations ----------

  lemma YoungerStays(s: State, s2: State, from: nat)
    requires Onward(s, s2, from) && NoneYounger(s.t.ps, from) && from < s.t.gen
    ensures NoneYounger(s2.t.ps, from)
  {
    forall i {:trigger s2.t.ps[i]} | 0 <= i < |s2.t.ps| && s2.t.ps[i].alloc ensures from <= s2.t.ps[i].gen {
      assert s.t.ps[i] == s.t.ps[i];
    }
  }

  /** The generations below g that are neither the old nor the new space. */
  ghost function Below(g: nat, from: nat, to: nat): set<nat> {
    if g == 0 then {}
    else if g - 1 == from || g - 1 == to then Below(g - 1, from, to)
    else Below(g - 1, from, to) + {g - 1}
  }

  lemma BelowAll(g: nat, from: nat, to: nat, k: nat)
    requires k < g && k != from && k != to
    ensures k in Below(g, from, to)
  {
  }

  /** Scavenges all generations but the old and the new space. */
  method ScavengeOthers(h: Heap, from: nat, shapes: map<int, Shape>, ghost o: Origin) returns (ok: bool)
    requires Ready(h, from, shapes, o) && o.clean == {} && h.recording.Off? && NoneYounger(h.pages[..], from)
    requires from < h.allocGen
    modifies h, h.pages, h.mem, h.gens
    ensures h.Valid()
    ensures ok ==> Ready(h, from, shapes, o.(clean := Below(NUM_GENERATIONS, from, h.allocGen)))
    ensures ok ==> h.allocGen == old(h.allocGen)
    ensures !ok ==> OutOfMemory(h)
    ensures ok ==> h.recording.Off? && Onward(old(S(h)), S(h), from)
  {
    hide OutOfMemory, Onward, HeapOk, InvOk, Mirrors, Traced, Clean, Unmoved, Below;
    ghost var s := S(h);
    OnwardSame(s, s, from);
    ok := true;
    var i := 0;
    BelowNone(from, h.allocGen);
    ghost var o2 := o;
    assert o.(clean := {}) == o;
    while i < NUM_GENERATIONS
      invariant 0 <= i <= NUM_GENERATIONS && o2 == o.(clean := Below(i, from, h.allocGen)) && Ready(h, from, shapes, o2)
      invariant h.allocGen == s.t.gen && h.recording.Off? && Onward(s, S(h), from)
    {
      BelowNext(i, from, h.allocGen);
      if i != from && i != h.allocGen {
        YoungerStays(s, S(h), from);
        ghost var s1 := S(h);
        ok := ScavengeGeneration(h, from, shapes, o2, i);
        if !ok {
          return;
        }
        OnwardTwice(s, s1, S(h), from);
        o2 := o2.(clean := o2.clean + {i});
      }
      i := i + 1;
    }
  }

  lemma BelowNone(from: nat, to: nat)
    ensures Below(0, from, to) == {}
  {
  }

  lemma BelowNext(g: nat, from: nat, to: nat)
    ensures Below(g + 1, from, to) == if g == from || g == to then Below(g, from, to) else Below(g, from, to) + {g}
  {
  }

  lemma AllBelow(from: nat, to: nat)
    ensures OtherGenerations(from, to) <= Below(NUM_GENERATIONS, from, to) + {NUM_GENERATIONS}
  {
    forall g | g in OtherGenerations(from, to) && g != NUM_GENERATIONS ensures g in Below(NUM_GENERATIONS, from, to) {
      BelowAll(NUM_GENERATIONS, from, to, g);
    }
  }

  /** Nothing is in the temporary generation unless it is the new space. */
  lemma TemporaryClean(s: State, s2: State, from: nat, o: Origin)
    requires Onward(s, s2, from) && NoneTemporary(s.t.ps) && from < NUM_GENERATIONS && s2.t.gen == s.t.gen
    requires Clean(s2, from, o.clean) && Mirrors(s2, from, o) && s.t.gen != NUM_GENERATIONS
    ensures Clean(s2, from, o.clean + {NUM_GENERATIONS})
  {
    hide Mirrors, Traced, Refers;
    forall x {:trigger Todo(s2, from, x)} | Todo(s2, from, x) ensures s2.t.ps[x / PAGE].gen != NUM_GENERATIONS {
      assert s.t.ps[x / PAGE] == s.t.ps[x / PAGE];
    }
  }

  // ---------- The end ----------

  /** Word x is the word of the beginning that is d words further on, or if that refers to an object that has moved and
      does not belong to an unboxed object, a reference to where it is now. */
  predicate WordKept(s: State, whither: map<int, int>, m0: seq<int>, d: int, x: int) {
    0 <= x < |s.m| && 0 <= x / PAGE < |s.t.ps| && 0 <= x + d < |m0| &&
      (if !s.t.ps[x / PAGE].unboxed && x !in s.raw && Pointerp(m0[x + d]) && Target(m0[x + d]) in whither
       then Pointerp(s.m[x]) && Target(s.m[x]) == whither[Target(m0[x + d])]
       else s.m[x] == m0[x + d])
  }

  /** Root w, which was w0, refers to the same object. */
  predicate RootMoved(whither: map<int, int>, w0: int, w: int) {
    if Pointerp(w0) && Target(w0) in whither then Pointerp(w) && Target(w) == whither[Target(w0)] else w == w0
  }

  ghost predicate WordsKept(s: State, whither: map<int, int>, m0: seq<int>, d: int, lo: int, hi: int) {
    forall x {:trigger WordKept(s, whither, m0, d, x)} :: lo <= x < hi ==> WordKept(s, whither, m0, d, x)
  }

  /** Every object that is left, where it was or where it has gone, has its contents; no two have gone to the same
      place. */
  ghost predicate GraphKept(s: State, o: Origin, whither: map<int, int>) {
    && (forall a {:trigger a in whither} :: a in whither ==>
          && a in o.objs && whither[a] in s.objs && whither[a] !in o.objs
          && s.objs[whither[a]] - whither[a] == o.objs[a] - a
          && (UnboxedAt(s, whither[a]) <==> a in o.unboxed)
          && WordsKept(s, whither, o.m, a - whither[a], whither[a], s.objs[whither[a]]))
    && (forall a {:trigger a in o.objs} :: a in o.objs && a in s.objs ==>
          a !in whither && s.objs[a] == o.objs[a] && (UnboxedAt(s, a) <==> a in o.unboxed)
          && WordsKept(s, whither, o.m, 0, a, s.objs[a]))
    && (forall a, c {:trigger a in whither, c in whither} :: a in whither && c in whither && a != c ==>
        whither[a] != whither[c])
  }

  /** Nothing refers to the old space any more. */
  ghost predicate AllScavenged(s: State, from: nat) {
    forall x {:trigger Todo(s, from, x)} :: !Todo(s, from, x)
  }

  /** Where the objects have gone. */
  ghost function Whither(s: State, from: nat, o: Origin): map<int, int> {
    map a | a in o.objs && MovedSince(s, from, o, a) :: Target(s.m[a + 1])
  }

  /** What an object that has gone elsewhere looks like. */
  lemma WhitherFacts(s: State, from: nat, shapes: map<int, Shape>, o: Origin, a: int)
    requires InvOk(s, from, shapes) && Mirrors(s, from, o) && NoneMovedAtFirst(o)
    ensures a in Whither(s, from, o) <==> OldObject(s, from, a) && Moved(s, a)
    ensures a in Whither(s, from, o) ==> a in o.objs && 0 <= a && a + 1 < |s.m| && CopyMirrors(s, from, o, a)
    ensures a in Whither(s, from, o) ==> Whither(s, from, o)[a] == Target(s.m[a + 1])
  {
    hide NewWordOk, SlackZero, RawOk, RawApart, ObjectsOk, RegionOk, PageOk, RangeMirrors;
    assert ObjectMirrors(s, from, o, a);
    assert OldObjectOk(s, from, shapes, a);
  }

  /** A reference to an object of the old space is one to the old space. */
  lemma OldRefers(s: State, from: nat, w: int)
    requires s.t.Valid() && ObjectsOk(s.t, s.objs) && Pointerp(w) && OldObject(s, from, Target(w))
    ensures Refers(s.t, from, w)
  {
    FirstInUse(s.t, s.objs, Target(w));
  }

  lemma WordKeptFrom(s: State, from: nat, whither: map<int, int>, m0: seq<int>, d: int, x: int)
    requires WordMirrors(s, from, m0, d, x) && !Todo(s, from, x) && s.t.InUse(x) && s.t.ps[x / PAGE].gen != from
    requires
      var a := Target(m0[x + d]);
      && (a in whither <==> OldObject(s, from, a) && Moved(s, a))
      && (a in whither ==> a + 1 < |s.m| && Pointerp(s.m[a + 1]) && whither[a] == Target(s.m[a + 1]))
      && (Pointerp(m0[x + d]) && OldObject(s, from, a) ==> Refers(s.t, from, m0[x + d]))
    ensures WordKept(s, whither, m0, d, x)
  {
    hide Refers, OldObject, Moved;
  }

  lemma MirroredKept(s: State, from: nat, shapes: map<int, Shape>, o: Origin, d: int, x: int)
    requires InvOk(s, from, shapes) && Mirrors(s, from, o) && NoneMovedAtFirst(o) && AllScavenged(s, from)
    requires WordMirrors(s, from, o.m, d, x) && s.t.InUse(x) && s.t.ps[x / PAGE].gen != from
    ensures WordKept(s, Whither(s, from, o), o.m, d, x)
  {
    hide InvOk, Mirrors, Traced, NoneMovedAtFirst, Refers, OldObject, Moved, Whither, RangeMirrors, Todo, WordKept;
    InvParts(s, from, shapes);
    var w0 := o.m[x + d];
    WhitherFacts(s, from, shapes, o, Target(w0));
    if Pointerp(w0) && OldObject(s, from, Target(w0)) {
      OldRefers(s, from, w0);
    }
    assert !Todo(s, from, x);
    WordKeptFrom(s, from, Whither(s, from, o), o.m, d, x);
  }

  /** The raw words that are not in the old space. */
  function RawLeft(t: Table, raw: set<int>, from: nat): set<int> {
    set x | x in raw && 0 <= x / PAGE < |t.ps| && t.ps[x / PAGE].gen != from
  }

  /** What freeing and lowering leave of the words that are not in the old space. */
  ghost predicate Finished(s: State, s2: State, from: nat) {
    && s2.objs == Others(s.t, s.objs, from) && |s2.t.ps| == |s.t.ps| && |s2.m| == |s.m|
    && s2.raw == RawLeft(s.t, s.raw, from)
    && (forall x {:trigger s2.t.InUse(x)} :: s2.t.InUse(x) <==> s.t.InUse(x) && s.t.ps[x / PAGE].gen != from)
    && (forall x {:trigger SameHere(s, s2, from, x)} ::
        0 <= x < |s.m| && s.t.InUse(x) && s.t.ps[x / PAGE].gen != from ==> SameHere(s, s2, from, x))
  }

  /** A word and its page are the same, except that the page may have left the temporary generation. */
  predicate SameHere(s: State, s2: State, from: nat, x: int) {
    && 0 <= x < |s.m| == |s2.m| && 0 <= x / PAGE < |s.t.ps| == |s2.t.ps| && s2.m[x] == s.m[x]
    && s2.t.ps[x / PAGE] == s.t.ps[x / PAGE].(gen := s2.t.ps[x / PAGE].gen)
    && (s2.t.ps[x / PAGE].gen == s.t.ps[x / PAGE].gen ||
        (s.t.ps[x / PAGE].gen == NUM_GENERATIONS && s2.t.ps[x / PAGE].gen == from))
  }

  lemma FinishedWords(s: State, s2: State, from: nat, shapes: map<int, Shape>, o: Origin, d: int, c: int)
    requires InvOk(s, from, shapes) && Flushed(s.t) && Mirrors(s, from, o) && NoneMovedAtFirst(o)
    requires AllScavenged(s, from) && Finished(s, s2, from)
    requires c in s2.objs && RangeMirrors(s, from, o.m, d, c, s.objs[c])
    ensures WordsKept(s2, Whither(s, from, o), o.m, d, c, s.objs[c])
  {
    hide InvOk, Mirrors, Traced, AllScavenged, NoneMovedAtFirst, Whither, WordMirrors, WordKept, ObjectsOk, PageOk,
      RegionOk;
    InvParts(s, from, shapes);
    forall x {:trigger WordKept(s2, Whither(s, from, o), o.m, d, x)} | c <= x < s.objs[c]
      ensures WordKept(s2, Whither(s, from, o), o.m, d, x)
    {
      SurvivingWord(s, from, c, x);
      assert WordMirrors(s, from, o.m, d, x);
      MirroredKept(s, from, shapes, o, d, x);
      KeptHere(s, s2, from, Whither(s, from, o), o.m, d, x);
    }
  }

  lemma KeptHere(s: State, s2: State, from: nat, whither: map<int, int>, m0: seq<int>, d: int, x: int)
    requires WordKept(s, whither, m0, d, x) && Finished(s, s2, from) && s.t.InUse(x) && s.t.ps[x / PAGE].gen != from
    ensures WordKept(s2, whither, m0, d, x)
  {
    assert SameHere(s, s2, from, x);
  }

  lemma SurvivingWord(s: State, from: nat, c: int, x: int)
    requires s.t.Valid() && Flushed(s.t) && ObjectsOk(s.t, s.objs) && c in Others(s.t, s.objs, from)
    requires c <= x < s.objs[c]
    requires |s.m| == (|s.t.ps| - 1) * PAGE
    ensures s.t.InUse(x) && s.t.ps[x / PAGE].gen != from && 0 <= x < |s.m|
  {
    hide PageOk, RegionOk;
    assert ObjectOk(s.t, c, s.objs[c]);
    assert s.t.InUse(x);
    ObjectGeneration(s.t, c, s.objs[c], x);
  }

  lemma MovedFinished(s: State, s2: State, from: nat, shapes: map<int, Shape>, o: Origin, a: int)
    requires InvOk(s, from, shapes) && Flushed(s.t) && Mirrors(s, from, o) && NoneMovedAtFirst(o)
    requires AllScavenged(s, from) && Finished(s, s2, from)
    requires a in Whither(s, from, o)
    ensures
      var b := Whither(s, from, o)[a];
      && a in o.objs && b in s2.objs && b !in o.objs && s2.objs[b] - b == o.objs[a] - a
      && (UnboxedAt(s2, b) <==> a in o.unboxed)
      && WordsKept(s2, Whither(s, from, o), o.m, a - b, b, s2.objs[b])
  {
    hide InvOk, Mirrors, Traced, AllScavenged, NoneMovedAtFirst, RangeMirrors, WordsKept, Whither, OldObject, PageOk,
      RegionOk, ObjectsOk, Refers;
    InvParts(s, from, shapes);
    WhitherFacts(s, from, shapes, o, a);
    CopySurvives(s, from, o, a);
    FinishedKind(s, s2, from, Whither(s, from, o)[a]);
    FinishedWords(s, s2, from, shapes, o, a - Whither(s, from, o)[a], Whither(s, from, o)[a]);
  }

  lemma StayedFinished(s: State, s2: State, from: nat, shapes: map<int, Shape>, o: Origin, a: int)
    requires InvOk(s, from, shapes) && Flushed(s.t) && Mirrors(s, from, o) && NoneMovedAtFirst(o)
    requires AllScavenged(s, from) && Finished(s, s2, from)
    requires a in o.objs && a in s2.objs
    ensures a !in Whither(s, from, o) && s2.objs[a] == o.objs[a] && (UnboxedAt(s2, a) <==> a in o.unboxed)
    ensures WordsKept(s2, Whither(s, from, o), o.m, 0, a, s2.objs[a])
  {
    hide InvOk, AllScavenged, NoneMovedAtFirst, RangeMirrors, WordsKept, Whither, ObjectMirrors;
    WhitherFacts(s, from, shapes, o, a);
    assert ObjectMirrors(s, from, o, a);
    StayedMirrors(s, from, o, a);
    InvParts(s, from, shapes);
    FinishedKind(s, s2, from, a);
    FinishedWords(s, s2, from, shapes, o, 0, a);
  }

  lemma FinishedKind(s: State, s2: State, from: nat, a: int)
    requires s.t.Valid() && ObjectsOk(s.t, s.objs) && Flushed(s.t) && |s.m| == (|s.t.ps| - 1) * PAGE
    requires Finished(s, s2, from) && a in s2.objs
    ensures UnboxedAt(s2, a) <==> UnboxedAt(s, a)
  {
    hide PageOk, RegionOk, ObjectsOk;
    ObjectNotEmpty(s.t, s.objs, a);
    SurvivingWord(s, from, a, a);
    assert SameHere(s, s2, from, a);
  }

  lemma GraphFinished(s: State, s2: State, from: nat, shapes: map<int, Shape>, o: Origin)
    requires InvOk(s, from, shapes) && Flushed(s.t) && Mirrors(s, from, o) && NoneMovedAtFirst(o)
    requires AllScavenged(s, from) && Finished(s, s2, from)
    ensures GraphKept(s2, o, Whither(s, from, o))
  {
    hide InvOk, AllScavenged, NoneMovedAtFirst, WordsKept, ObjectMirrors, Finished;
    var whither := Whither(s, from, o);
    forall a {:trigger a in whither} | a in whither
      ensures a in o.objs && whither[a] in s2.objs && whither[a] !in o.objs
      ensures s2.objs[whither[a]] - whither[a] == o.objs[a] - a
      ensures UnboxedAt(s2, whither[a]) <==> a in o.unboxed
      ensures WordsKept(s2, whither, o.m, a - whither[a], whither[a], s2.objs[whither[a]])
    {
      MovedFinished(s, s2, from, shapes, o, a);
    }
    forall a {:trigger a in o.objs} | a in o.objs && a in s2.objs
      ensures a !in whither && s2.objs[a] == o.objs[a] && (UnboxedAt(s2, a) <==> a in o.unboxed)
      ensures WordsKept(s2, whither, o.m, 0, a, s2.objs[a])
    {
      StayedFinished(s, s2, from, shapes, o, a);
    }
  }

  lemma StayedMirrors(s: State, from: nat, o: Origin, a: int)
    requires ObjectMirrors(s, from, o, a) && a in o.objs && !OldObject(s, from, a)
    ensures a in s.objs && s.objs[a] == o.objs[a] && RangeMirrors(s, from, o.m, 0, a, s.objs[a])
    ensures UnboxedAt(s, a) <==> a in o.unboxed
  {
  }

  /** The copy of an object is not in the old space. */
  lemma CopySurvives(s: State, from: nat, o: Origin, a: int)
    requires s.t.Valid() && ObjectsOk(s.t, s.objs) && a in o.objs && 0 <= a && a + 1 < |s.m|
    requires CopyMirrors(s, from, o, a)
    ensures Target(s.m[a + 1]) in Others(s.t, s.objs, from)
  {
    FirstInUse(s.t, s.objs, Target(s.m[a + 1]));
  }

  lemma RootFinished(s: State, s2: State, from: nat, shapes: map<int, Shape>, o: Origin, w0: int, w: int)
    requires InvOk(s, from, shapes) && Mirrors(s, from, o) && NoneMovedAtFirst(o) && RootDone(s, from, w0, w)
    requires Finished(s, s2, from)
    ensures RootMoved(Whither(s, from, o), w0, w) && WordOk(s2, w)
  {
    InvParts(s, from, shapes);
    WhitherFacts(s, from, shapes, o, Target(w0));
    if Pointerp(w0) && OldObject(s, from, Target(w0)) {
      OldRefers(s, from, w0);
    }
    if Dynamic(s.t, w) {
      FirstInUse(s.t, s.objs, Target(w));
    }
  }

  lemma FinishedWord(s: State, s2: State, from: nat, shapes: map<int, Shape>, x: int)
    requires InvOk(s, from, shapes) && AllScavenged(s, from) && Finished(s, s2, from)
    ensures RestWordOk(s2, x)
  {
    hide OldObjectOk, SlackZero, RawOk, RawApart, PageOk, RegionOk, Placed, Headed, Unprotected;
    if 0 <= x < |s2.m| && s2.t.InUse(x) {
      assert SameHere(s, s2, from, x) && NewWordOk(s, from, x) && !Todo(s, from, x);
      var w := s.m[x];
      if Tagged(s, from, x) && Dynamic(s.t, w) {
        var a := Target(w);
        FirstInUse(s.t, s.objs, a);
        ObjectNotEmpty(s.t, s.objs, a);
        TargetInHeap(s.t, s.m, a);
        assert SameHere(s, s2, from, a);
      }
    }
  }

  lemma TargetInHeap(t: Table, m: seq<int>, a: int)
    requires t.Valid() && t.InUse(a) && |m| == (|t.ps| - 1) * PAGE
    ensures 0 <= a < |m|
  {
  }

  lemma FinishedObjects(s: State, s2: State, from: nat, shapes: map<int, Shape>, a: int)
    requires InvOk(s, from, shapes) && Finished(s, s2, from) && a in s2.objs
    ensures !Moved(s2, a)
  {
    hide NewWordOk, SlackZero, RawOk, RawApart, PageOk, RegionOk, Unprotected;
    assert OldObjectOk(s, from, shapes, a);
    FirstInUse(s.t, s.objs, a);
    TargetInHeap(s.t, s.m, a);
    assert SameHere(s, s2, from, a);
  }

  lemma FinishedRest(s: State, s2: State, from: nat, shapes: map<int, Shape>)
    requires InvOk(s, from, shapes) && AllScavenged(s, from) && Finished(s, s2, from)
    requires s2.t.Valid() && ObjectsOk(s2.t, s2.objs) && SlackZero(s2.t, s2.objs, s2.m) && NoneTemporary(s2.t.ps)
    requires Flushed(s.t)
    ensures RestOk(s2)
  {
    InvParts(s, from, shapes);
    hide InvOk, AllScavenged, ObjectsOk, SlackZero, RawOk, RawApart, RestWordOk, Moved, PageOk, RegionOk;
    forall x ensures RestWordOk(s2, x) {
      FinishedWord(s, s2, from, shapes, x);
    }
    forall a {:trigger a in s2.objs} | a in s2.objs ensures !Moved(s2, a) {
      FinishedObjects(s, s2, from, shapes, a);
    }
    FinishedSizes(s, s2, from, shapes);
    FinishedRaw(s, s2, from, shapes);
  }

  /** What is left of the raw words are those of the objects that are left. */
  lemma FinishedRaw(s: State, s2: State, from: nat, shapes: map<int, Shape>)
    requires InvOk(s, from, shapes) && Flushed(s.t) && Finished(s, s2, from)
    ensures RawOk(s2.objs, s2.raw)
  {
    hide SlackZero, RawApart, NewWordOk, OldObjectOk, PageOk, RegionOk, Headed, AloneOk, SameHere, ObjectOk;
    LeftRaw(s.t, s.objs, s.raw, from);
  }

  lemma LeftRaw(t: Table, objs: map<int, int>, raw: set<int>, from: nat)
    requires t.Valid() && Flushed(t) && ObjectsOk(t, objs) && RawOk(objs, raw)
    ensures RawOk(Others(t, objs, from), RawLeft(t, raw, from))
  {
    hide PageOk, RegionOk, Headed, AloneOk, ObjectOk;
    var objs2, raw2 := Others(t, objs, from), RawLeft(t, raw, from);
    forall x {:trigger x in raw2} | x in raw2 ensures InSome(objs2, x) {
      var a :| a in objs && a <= x < objs[a];
      ObjectGeneration(t, a, objs[a], x);
      assert a in objs2;
    }
    forall a {:trigger a in objs2} | a in objs2 ensures OneKind(objs2, raw2, a) {
      assert OneKind(objs, raw, a);
      FirstInUse(t, objs, a);
      forall x {:trigger x in raw2} | a <= x < objs[a] ensures x in raw2 <==> a in raw2 {
        ObjectGeneration(t, a, objs[a], x);
        assert x in raw <==> a in raw;
      }
    }
  }

  lemma FinishedSizes(s: State, s2: State, from: nat, shapes: map<int, Shape>)
    requires InvOk(s, from, shapes) && Finished(s, s2, from)
    ensures SizesOk(s2.objs)
  {
    hide ObjectsOk, SlackZero, RawOk, RawApart, NewWordOk, OldObjectOk, PageOk, RegionOk, SameHere;
  }

  /** Freeing leaves the words of the other generations. */
  lemma FreeFinished(s: State, s1: State, from: nat)
    requires s.t.Valid() && Flushed(s.t) && Frees(s.t, s1.t, from) && Gc.Marks(s.t, s.m, s1.m, from)
    requires s1.objs == Others(s.t, s.objs, from) && s1.raw == RawLeft(s.t, s.raw, from)
    ensures Finished(s, s1, from)
  {
    hide PageOk, RegionOk;
    forall x {:trigger s1.t.InUse(x)} ensures s1.t.InUse(x) <==> s.t.InUse(x) && s.t.ps[x / PAGE].gen != from {
      FreeInUse(s.t, s1.t, from, x);
    }
    forall x {:trigger SameHere(s, s1, from, x)} | 0 <= x < |s.m| && s.t.InUse(x) && s.t.ps[x / PAGE].gen != from
      ensures SameHere(s, s1, from, x)
    {
      assert s1.t.ps[x / PAGE] == FreedPage(s.t.ps[x / PAGE], from);
      assert s1.m[x] == s1.m[x];
    }
  }

  /** Lowering changes generations only. */
  lemma LowerFinished(s: State, s1: State, s2: State, from: nat)
    requires Finished(s, s1, from) && Lowers(s1.t, s2.t, from) && s2 == s1.(t := s2.t)
    ensures Finished(s, s2, from)
  {
    forall x {:trigger s2.t.InUse(x)} ensures s2.t.InUse(x) <==> s1.t.InUse(x) {
      assert 0 <= x / PAGE < |s1.t.ps| ==> s2.t.ps[x / PAGE] == LoweredPage(s1.t.ps[x / PAGE], from);
    }
    forall x {:trigger SameHere(s, s2, from, x)} | 0 <= x < |s.m| && s.t.InUse(x) && s.t.ps[x / PAGE].gen != from
      ensures SameHere(s, s2, from, x)
    {
      assert SameHere(s, s1, from, x);
      assert s2.t.ps[x / PAGE] == LoweredPage(s1.t.ps[x / PAGE], from);
    }
  }

  lemma LowerSlack(t: Table, t2: Table, gen: nat, objs: map<int, int>, m: seq<int>)
    requires Lowers(t, t2, gen) && SlackZero(t, objs, m)
    ensures SlackZero(t2, objs, m)
  {
    forall x {:trigger m[x]} | 0 <= x < |m| && t2.InUse(x) && !InSome(objs, x) ensures m[x] == 0 {
      assert 0 <= x / PAGE < |t.ps| ==> t2.ps[x / PAGE] == LoweredPage(t.ps[x / PAGE], gen);
      assert t.InUse(x);
    }
  }

  /** Once the old space is gone there are only generations from the new space on, or it has been lowered. */
  lemma FreedGenerations(t: Table, t1: Table, from: nat)
    requires t.Valid() && Flushed(t) && Frees(t, t1, from) && NoneYounger(t.ps, from)
    ensures NoneYounger(t1.ps, from + 1)
    ensures NoneTemporary(t.ps) ==> NoneTemporary(t1.ps)
  {
    hide RegionOk;
    forall i {:trigger t1.ps[i]} | 0 <= i < |t1.ps| && t1.ps[i].alloc
      ensures t1.ps[i] == t.ps[i] && t.ps[i].gen != from
    {
      assert t1.ps[i] == FreedPage(t.ps[i], from) && PageOk(t.ps, i);
    }
  }

  lemma LoweredGenerations(t: Table, t2: Table, from: nat)
    requires t.Valid() && Flushed(t) && Lowers(t, t2, from) && NoneYounger(t.ps, from + 1)
    ensures NoneYounger(t2.ps, from) && NoneTemporary(t2.ps)
  {
    hide RegionOk;
    forall i {:trigger t2.ps[i]} | 0 <= i < |t2.ps| && t2.ps[i].alloc ensures from <= t2.ps[i].gen < NUM_GENERATIONS {
      assert t2.ps[i] == LoweredPage(t.ps[i], from) && PageOk(t.ps, i);
    }
  }

  /** No page has come into the temporary generation if that is not the new space. */
  lemma TemporaryStays(s: State, s2: State, from: nat)
    requires Onward(s, s2, from) && NoneTemporary(s.t.ps) && s.t.gen < NUM_GENERATIONS && from < NUM_GENERATIONS
    ensures NoneTemporary(s2.t.ps)
  {
    forall i {:trigger s2.t.ps[i]} | 0 <= i < |s2.t.ps| && s2.t.ps[i].alloc ensures s2.t.ps[i].gen < NUM_GENERATIONS {
      assert s.t.ps[i] == s.t.ps[i];
    }
  }

  // ---------- The collection ----------

  lemma NothingLeft(h: Heap, from: nat)
    requires forall x {:trigger h.mem[x]} ::
      0 <= x < h.mem.Length && Tagged(S(h), from, x) ==> !Refers(h.T(), from, h.mem[x])
    ensures AllScavenged(S(h), from)
  {
    hide Boxed, Refers;
    forall x {:trigger Todo(S(h), from, x)} ensures !Todo(S(h), from, x) {
      assert 0 <= x < h.mem.Length ==> S(h).m[x] == h.mem[x];
    }
  }

  /** The generations that have been scavenged, and the temporary one if there is nothing in it, are all but the old and
      the new space. */
  lemma CleanTemporary(h: Heap, from: nat, shapes: map<int, Shape>, o: Origin, s: State) returns (o2: Origin)
    requires Ready(h, from, shapes, o.(clean := Below(NUM_GENERATIONS, from, h.allocGen)))
    requires Onward(s, S(h), from) && s.t.gen == h.allocGen && from < NUM_GENERATIONS
    requires h.allocGen != NUM_GENERATIONS ==> NoneTemporary(s.t.ps)
    ensures Ready(h, from, shapes, o2) && o2 == o.(clean := o2.clean) && OtherGenerations(from, h.allocGen) <= o2.clean
  {
    hide HeapOk, InvOk, Mirrors, Traced, Onward, NoneTemporary, Clean;
    AllBelow(from, h.allocGen);
    var o1 := o.(clean := Below(NUM_GENERATIONS, from, h.allocGen));
    o2 := o1;
    if h.allocGen != NUM_GENERATIONS {
      TemporaryClean(s, S(h), from, o1);
      o2 := o1.(clean := o1.clean + {NUM_GENERATIONS});
      CleanMore(S(h), from, o1, o2.clean);
      CleanReady(h, from, shapes, o1, o2.clean);
    }
  }

  /** The middle of garbage_collect_generation: moves whatever can be reached out of the old space. */
  method Evacuate(h: Heap, from: nat, shapes: map<int, Shape>, ghost o: Origin, roots: array<int>)
        returns (ok: bool, ghost o2: Origin)
    requires Ready(h, from, shapes, o) && o.clean == {} && h.recording.Off? && roots != h.mem
    requires from < h.allocGen <= NUM_GENERATIONS
    requires NoneYounger(h.pages[..], from) && RootsOk(S(h), roots[..]) && RootsLive(S(h), from, o, roots[..])
    requires h.allocGen != NUM_GENERATIONS ==> NoneTemporary(h.pages[..])
    modifies h, h.pages, h.mem, h.gens, roots
    ensures h.Valid() && (ok ==> Ready(h, from, shapes, o2) && o2 == o.(clean := o2.clean) && AllScavenged(S(h), from))
    ensures !ok ==> OutOfMemory(h)
    ensures ok ==> Flushed(h.T()) && h.recording.Off? && h.allocGen == old(h.allocGen) && Onward(old(S(h)), S(h), from)
    ensures ok ==> RootsDone(S(h), from, old(roots[..]), roots[..])
  {
    hide OutOfMemory, Onward, HeapOk, InvOk, Mirrors, Traced, Clean, Unmoved, Below, RootsDone, WordOk,
      OtherGenerations, AllScavenged, PageOk, RegionOk;
    ghost var s, roots0 := S(h), roots[..];
    o2 := o;
    ok := ScavengeRoots(h, from, shapes, o, roots);
    if !ok {
      return;
    }
    ghost var s1 := S(h);
    YoungerStays(s, s1, from);
    ok := ScavengeOthers(h, from, shapes, o);
    if !ok {
      return;
    }
    ghost var s2 := S(h);
    OnwardTwice(s, s1, s2, from);
    RootsStay(s1, s2, from, roots0, roots[..]);
    o2 := CleanTemporary(h, from, shapes, o, s);
    ok := ScavengeNewspace(h, from, shapes, o2);
    if !ok {
      return;
    }
    NothingLeft(h, from);
    OnwardTwice(s, s2, S(h), from);
    RootsStay(s2, S(h), from, roots0, roots[..]);
  }

  /** The end of garbage_collect_generation: nothing is left of the old space, and what has not been raised gets its
      generation back. */
  method EndGeneration(h: Heap, from: nat, raise: bool, shapes: map<int, Shape>, ghost o: Origin) returns (freed: int)
    requires Ready(h, from, shapes, o) && AllScavenged(S(h), from) && Flushed(h.T()) && NoneYounger(h.pages[..], from)
    requires raise ==> NoneTemporary(h.pages[..])
    modifies h`bytesAllocated, h`objs, h`raw, h.pages, h.mem, h.gens
    ensures AtRest(h) && Flushed(h.T()) && Finished(old(S(h)), S(h), from)
    ensures NoneYounger(h.pages[..], if raise then from + 1 else from)
    ensures freed == old(h.gens[from].bytes) && h.bytesAllocated == old(h.bytesAllocated) - freed
    ensures SameOlder(old(h.pages[..]), h.pages[..], from + 1)
  {
    hide SameOlder, HeapOk, InvOk, Mirrors, Traced, Clean, AllScavenged, PageOk, RegionOk, Finished, Frees, Gc.Marks,
      Lowers, NoneYounger, NoneTemporary;
    ghost var s := S(h);
    HeapFacts(h.T(), h.objs, h.gens[..], h.bytesAllocated, h.mem[..]);
    var left := RawLeft(h.T(), h.raw, from);
    freed := Gc.FreeOldspace(h, from);
    h.raw := left;
    Gc.FreesFlushed(s.t, h.T(), from);
    ghost var s1 := S(h);
    FreeFinished(s, s1, from);
    FreedGenerations(s.t, s1.t, from);
    EndSlack(s, s1, from, shapes);
    FreedOlder(s.t, s1.t, from);
    if !raise {
      HeapFacts(h.T(), h.objs, h.gens[..], h.bytesAllocated, h.mem[..]);
      assert h.gens[from].bytes == 0;
      Gc.LowerGeneration(h, from);
      Gc.LowersFlushed(s1.t, h.T(), from);
      LowerFinished(s, s1, S(h), from);
      LowerSlack(s1.t, h.T(), from, h.objs, h.mem[..]);
      LoweredGenerations(s1.t, h.T(), from);
      LoweredOlder(s.t.ps, s1.t, h.T(), from);
    }
    ghost var s2, gs := S(h), h.gens[..];
    HeapFacts(h.T(), h.objs, gs, h.bytesAllocated, h.mem[..]);
    FinishedRest(s, s2, from, shapes);
    Gc.ResetStarts(h, from);
    Gc.ResetHeapOk(h.T(), h.objs, gs, h.gens[..], h.bytesAllocated, h.mem[..]);
  }

  lemma FreedOlder(t: Table, t1: Table, from: nat)
    requires Frees(t, t1, from)
    ensures SameOlder(t.ps, t1.ps, from + 1)
  {
    forall i {:trigger t1.ps[i]} | 0 <= i < |t.ps| ensures t1.ps[i] == FreedPage(t.ps[i], from) {
    }
  }

  lemma LoweredOlder(ps: seq<Page>, t1: Table, t2: Table, from: nat)
    requires SameOlder(ps, t1.ps, from + 1) && Lowers(t1, t2, from)
    ensures SameOlder(ps, t2.ps, from + 1)
  {
    forall i {:trigger t2.ps[i]} | 0 <= i < |t1.ps| ensures t2.ps[i] == LoweredPage(t1.ps[i], from) {
    }
  }

  lemma EndSlack(s: State, s1: State, from: nat, shapes: map<int, Shape>)
    requires InvOk(s, from, shapes) && Flushed(s.t) && Frees(s.t, s1.t, from) && Gc.Marks(s.t, s.m, s1.m, from)
    requires s1.objs == Others(s.t, s.objs, from)
    ensures SlackZero(s1.t, s1.objs, s1.m)
  {
    SlackFreed(s.t, s1.t, from, s.objs, s.m, s1.m);
  }

  // ---------- What is kept ----------

  /** Where the objects are that are left. */
  ghost function Located(s: State, o: Origin, whither: map<int, int>): map<int, int> {
    map a | a in o.objs && (a in whither || a in s.objs) :: if a in whither then whither[a] else a
  }

  /** An object is in the heap, so that a reference to it is one to the dynamic space. */
  lemma ObjectDynamic(s: State, w: int)
    requires s.t.Valid() && ObjectsOk(s.t, s.objs) && Pointerp(w) && Target(w) in s.objs
    ensures Dynamic(s.t, w)
  {
    FirstInUse(s.t, s.objs, Target(w));
  }

  lemma RoundWord(s0: State, s: State, whither: map<int, int>, a: int, b: int, x: int)
    requires RestOk(s0) && RestOk(s) && |s.t.ps| == |s0.t.ps|
    requires forall c {:trigger c in whither} :: c in whither ==> c in s0.objs && whither[c] in s.objs
    requires a in s0.objs && b in s.objs && s.objs[b] - b == s0.objs[a] - a && (UnboxedAt(s, b) <==> UnboxedAt(s0, a))
    requires b <= x < s.objs[b] && WordKept(s, whither, s0.m, a - b, x)
    ensures WordStays(s0, s, Located(s, Beginning(s0), whither), UnboxedAt(s0, a), a - b, x)
  {
    hide SlackZero, SizesOk, RestWordOk, ObjectsOk, RawOk, PageOk, RegionOk;
    if UnboxedAt(s0, a) {
      UnboxedWord(s, b, x);
    } else {
      BoxedWord(s0, a, x + (a - b));
      BoxedWord(s, b, x);
      var w0, w := s0.m[x + (a - b)], s.m[x];
      if Pointerp(w0) && Target(w0) in whither {
        ObjectDynamic(s0, w0);
        ObjectDynamic(s, w);
      }
    }
  }

  lemma RoundObject(s0: State, s: State, whither: map<int, int>, a: int)
    requires RestOk(s0) && RestOk(s) && |s.t.ps| == |s0.t.ps| && GraphKept(s, Beginning(s0), whither)
    requires a in Located(s, Beginning(s0), whither)
    ensures ObjectKept(s0, s, Located(s, Beginning(s0), whither), a)
  {
    hide RestOk, WordKept, WordStays;
    var o, loc := Beginning(s0), Located(s, Beginning(s0), whither);
    var b := loc[a];
    assert WordsKept(s, whither, o.m, a - b, b, s.objs[b]);
    assert UnboxedAt(s, b) <==> UnboxedAt(s0, a);
    forall x {:trigger WordStays(s0, s, loc, UnboxedAt(s0, a), a - b, x)} | b <= x < s.objs[b]
      ensures WordStays(s0, s, loc, UnboxedAt(s0, a), a - b, x)
    {
      assert WordKept(s, whither, o.m, a - b, x);
      RoundWord(s0, s, whither, a, b, x);
    }
  }

  /** What a collection of one generation keeps, if everything is as it should be before and after it. */
  lemma RoundKept(s0: State, s: State, whither: map<int, int>)
    requires RestOk(s0) && RestOk(s) && |s.t.ps| == |s0.t.ps| && GraphKept(s, Beginning(s0), whither)
    ensures Kept(s0, s, Located(s, Beginning(s0), whither))
  {
    hide RestOk, WordsKept, ObjectKept;
    var loc := Located(s, Beginning(s0), whither);
    forall a {:trigger a in loc} | a in loc ensures ObjectKept(s0, s, loc, a) {
      RoundObject(s0, s, whither, a);
    }
  }

  lemma RootFollows(s0: State, s: State, whither: map<int, int>, w0: int, w: int)
    requires RestOk(s0) && RestOk(s) && |s.t.ps| == |s0.t.ps| && GraphKept(s, Beginning(s0), whither)
    requires RootMoved(whither, w0, w) && WordOk(s0, w0) && WordOk(s, w)
    ensures WordFollows(s0, s, Located(s, Beginning(s0), whither), w0, w)
  {
    hide WordsKept, SlackZero, SizesOk, RestWordOk, ObjectsOk, RawOk;
    if Pointerp(w0) && Target(w0) in whither {
      ObjectDynamic(s0, w0);
      ObjectDynamic(s, w);
    }
  }

  lemma RoundRoots(s0: State, s: State, whither: map<int, int>, roots0: seq<int>, roots: seq<int>)
    requires RestOk(s0) && RestOk(s) && |s.t.ps| == |s0.t.ps| && GraphKept(s, Beginning(s0), whither)
    requires RootsOk(s0, roots0) && |roots| == |roots0|
    requires forall i {:trigger roots[i]} ::
      0 <= i < |roots| ==> RootMoved(whither, roots0[i], roots[i]) && WordOk(s, roots[i])
    ensures RootsKept(s0, s, Located(s, Beginning(s0), whither), roots0, roots) && RootsOk(s, roots)
  {
    hide RestOk, GraphKept, RootMoved, WordOk, WordFollows, Located;
    forall i {:trigger roots[i]} | 0 <= i < |roots|
      ensures WordFollows(s0, s, Located(s, Beginning(s0), whither), roots0[i], roots[i])
    {
      RootFollows(s0, s, whither, roots0[i], roots[i]);
    }
  }

  /** garbage_collect_generation: afterwards the heap is as the mutator needs it, the objects that are left are what
      they were, words and roots refer to where the objects are now, and what the control stack may refer to has
      stayed. */
  method CollectGeneration(h: Heap, from: nat, raise: bool, shapes: map<int, Shape>, stack: seq<StackWord>,
        roots: array<int>) returns (ok: bool, ghost loc: map<int, int>)
    requires AtRest(h) && Flushed(h.T()) && from < NUM_GENERATIONS && (from == NUM_GENERATIONS - 1 ==> !raise)
    requires h.recording.Off?
    requires NoneYounger(h.pages[..], from) && ShapesOk(S(h), shapes)
    requires roots != h.mem && RootsOk(S(h), roots[..])
    modifies h, h.pages, h.mem, h.gens, roots
    ensures h.Valid() && (ok ==> AtRest(h) && Flushed(h.T()))
    ensures ok ==> NoneYounger(h.pages[..], if raise then from + 1 else from)
    ensures !ok ==> OutOfMemory(h)
    ensures ok ==> h.recording.Off? && h.allocGen == (if raise then from + 1 else NUM_GENERATIONS)
    ensures ok ==> Kept(old(S(h)), S(h), loc) && RootsKept(old(S(h)), S(h), loc, old(roots[..]), roots[..])
    ensures ok ==> RootsOk(S(h), roots[..]) && StackKept(old(S(h)), stack, loc)
    ensures ok ==> OlderStays(old(S(h)), S(h), loc, if raise then from + 2 else from + 1)
    ensures ok ==> |WordsInUse(h.T())| <= |old(WordsInUse(h.T()))|
    ensures ok ==>
      OnlyReached(old(S(h)), S(h), loc, from, PinnedObjects(old(S(h)), from, stack), old(roots[..]))
  {
    hide OnlyReached, PinnedObjects, AllReached, Traced, RootsLive, SameOlder, OlderStays, WordsInUse, Weight, Begins,
      Onward, HeapOk, RestOk, InvOk, Mirrors, Clean, ShapesOk, AllScavenged, Finished, GraphKept, Whither,
      NoneMovedAtFirst, PageOk, RegionOk, WordOk, RootsDone, RootMoved, Kept, RootsKept, Located, KindsOk, StackKept,
      AllSaved;
    ghost var s0, roots0 := S(h), roots[..];
    loc := map[];
    RestPages(s0);
    NothingTemporary(h.T(), h.objs, h.gens[..], h.bytesAllocated, h.mem[..]);
    ghost var o := BeginGeneration(h, from, raise, shapes, stack, roots0);
    BeginRoots(s0, S(h), from, stack, roots0);
    BeginLength(s0, S(h), from);
    SameWordsOk(s0, S(h), roots[..]);
    ghost var s1 := S(h);
    ghost var o2;
    ok, o2 := Evacuate(h, from, shapes, o, roots);
    if !ok {
      return;
    }
    ghost var s := S(h);
    YoungerStays(s1, s, from);
    if raise {
      TemporaryStays(s1, s, from);
    }
    ReadyMirrors(h, from, shapes, o2);
    ReadyFacts(h, from, shapes, o2);
    ReadyTraced(h, from, shapes, o2);
    SameBeginning(o, o2);
    SameLength(s1, s, from);
    var freed := EndGeneration(h, from, raise, shapes, o2);
    GraphFinished(s, S(h), from, shapes, o2);
    ghost var whither := Whither(s, from, o2);
    GraphOrigin(S(h), o2, Beginning(s0), whither);
    RootsFinished(s, S(h), from, shapes, o2, roots0, roots[..]);
    FinishedLength(s, S(h), from);
    loc := Located(S(h), Beginning(s0), whither);
    RoundKept(s0, S(h), whither);
    RoundRoots(s0, S(h), whither, roots0, roots[..]);
    RoundOlder(s0, s1, s, S(h), from, shapes, o2, whither, if raise then from + 2 else from + 1);
    RoundReached(s0, s, S(h), from, shapes, o2, stack, roots0);
    RoundStack(s0, s1, s, S(h), from, shapes, o2, stack);
    RoundWeight(s0, s1, s, S(h), from, shapes);
  }

  /** What is older than the old and the new space is not touched. */
  lemma RoundOlder(s0: State, s1: State, s: State, s2: State, from: nat, shapes: map<int, Shape>, o: Origin,
        whither: map<int, int>, n: nat)
    requires RestOk(s0) && Begins(s0, s1, from) && Onward(s1, s, from)
    requires InvOk(s, from, shapes) && Onto(s, from, o) && o.objs == s0.objs
    requires Finished(s, s2, from) && SameOlder(s.t.ps, s2.t.ps, from + 1) && GraphKept(s2, Beginning(s0), whither)
    requires from < n && (s1.t.gen == NUM_GENERATIONS || s1.t.gen < n)
    ensures OlderStays(s0, s2, Located(s2, Beginning(s0), whither), n)
  {
    hide WordsKept, Weight, ForwardingStays, SameHere, SlackZero, SizesOk, RestWordOk, RawOk, ObjectsOk, PageOk,
      RegionOk, InvOk, NewObject;
    ForthOlder(s1, s, from, n);
    forall i {:trigger s2.t.ps[i]} | 0 <= i < |s0.t.ps| && (OfOlder(s0.t.ps[i], n) || OfOlder(s2.t.ps[i], n))
      ensures s2.t.ps[i] == s0.t.ps[i].(wp := s2.t.ps[i].wp, dontMove := s2.t.ps[i].dontMove)
    {
      assert Gc.BegunPage(s0.t.ps[i], s1.t.ps[i], from, s1.t.gen);
      assert s.t.ps[i] == s.t.ps[i];
    }
    forall a {:trigger InOlder(s0, n, a)} | InOlder(s0, n, a) ensures a in s2.objs {
      assert Gc.BegunPage(s0.t.ps[a / PAGE], s1.t.ps[a / PAGE], from, s1.t.gen);
      assert s2.t.ps[a / PAGE] == s2.t.ps[a / PAGE];
      assert s.t.ps[a / PAGE] == s.t.ps[a / PAGE];
      assert a in s1.objs;
    }
    forall a {:trigger InOlder(s2, n, a)} | InOlder(s2, n, a) ensures a in s0.objs {
      if a !in s0.objs {
        NewNotOlder(s, s2, from, shapes, o, n, a);
      }
    }
  }

  /** A new object is in the new space, or in the old one when that has its generation back. */
  lemma NewNotOlder(s: State, s2: State, from: nat, shapes: map<int, Shape>, o: Origin, n: nat, a: int)
    requires InvOk(s, from, shapes) && Finished(s, s2, from) && NewObject(s, from, o, a) && a in s2.objs
    requires from < n && (s.t.gen == NUM_GENERATIONS || s.t.gen < n)
    ensures !InOlder(s2, n, a)
  {
    InvParts(s, from, shapes);
    hide InvOk, PageOk, RegionOk, ObjectsOk;
    ObjectInUse(s, a);
    ObjectNotEmpty(s.t, s.objs, a);
    assert s.t.InUse(a);
    assert SameHere(s, s2, from, a);
  }

  lemma ReadyTraced(h: Heap, from: nat, shapes: map<int, Shape>, o: Origin)
    requires Ready(h, from, shapes, o)
    ensures Traced(S(h), from, o) && Onto(S(h), from, o)
  {
    hide Sound, Tracing, Onto;
  }

  /** What is left of the old space has been moved. */
  lemma LeftMoved(s: State, s2: State, from: nat, shapes: map<int, Shape>, o: Origin, a: int)
    requires InvOk(s, from, shapes) && Mirrors(s, from, o) && NoneMovedAtFirst(o) && Finished(s, s2, from)
    requires Tracing(s, from, o) && a in o.oldObjs && (a in Whither(s, from, o) || a in s2.objs)
    ensures a in o.live
  {
    hide InvOk, Mirrors, NoneMovedAtFirst, Whither, LiveClosed, Todo;
    WhitherFacts(s, from, shapes, o, a);
    assert a !in Unmoved(s, from);
  }

  /** Only what can be reached is left of the old space, and nothing has come into being but copies. */
  lemma RoundReached(s0: State, s: State, s2: State, from: nat, shapes: map<int, Shape>, o: Origin,
        stack: seq<StackWord>, roots: seq<int>)
    requires RestOk(s0) && NoneYounger(s0.t.ps, from) && InvOk(s, from, shapes) && Mirrors(s, from, o)
    requires NoneMovedAtFirst(o) && Traced(s, from, o) && Finished(s, s2, from)
    requires o == Tracked(s0, from, stack, roots).(clean := o.clean)
    requires GraphKept(s2, Beginning(s0), Whither(s, from, o))
    ensures OnlyReached(s0, s2, Located(s2, Beginning(s0), Whither(s, from, o)), from,
                        PinnedObjects(s0, from, stack), roots)
  {
    var whither := Whither(s, from, o);
    var loc, pinned := Located(s2, Beginning(s0), whither), PinnedObjects(s0, from, stack);
    hide InvOk, Mirrors, NoneMovedAtFirst, Tracing, Finished, PinnedObjects, Reached, RestOk, NoneYounger;
    RoundLocated(s0, s, s2, from, shapes, o);
    hide GraphKept, Onto, Whither;
    forall a {:trigger a in loc} | a in loc && Young(s0, from, a) ensures Reached(s0, from, pinned, roots, a) {
      YoungOld(s0, from, a);
      LeftMoved(s, s2, from, shapes, o, a);
    }
  }

  /** There are no younger objects than those of the old space. */
  lemma YoungOld(s: State, from: nat, a: int)
    requires RestOk(s) && NoneYounger(s.t.ps, from) && Young(s, from, a)
    ensures OldObject(s, from, a)
  {
    hide SlackZero, RestWordOk, RawOk, PageOk, RegionOk;
    FirstInUse(s.t, s.objs, a);
    assert s.t.ps[a / PAGE].alloc;
  }

  lemma RoundLocated(s0: State, s: State, s2: State, from: nat, shapes: map<int, Shape>, o: Origin)
    requires InvOk(s, from, shapes) && Mirrors(s, from, o) && NoneMovedAtFirst(o) && Onto(s, from, o)
    requires Finished(s, s2, from) && o.objs == s0.objs && GraphKept(s2, Beginning(s0), Whither(s, from, o))
    ensures AllLocated(s2, Located(s2, Beginning(s0), Whither(s, from, o)))
  {
    hide InvOk, Mirrors, NoneMovedAtFirst, WordsKept;
    var loc := Located(s2, Beginning(s0), Whither(s, from, o));
    forall b {:trigger b in s2.objs} | b in s2.objs ensures exists a {:trigger a in loc} :: a in loc && loc[a] == b {
      if b in s0.objs {
        assert b in loc && loc[b] == b;
      } else {
        assert NewObject(s, from, o, b);
        var a :| CopiedFrom(s, from, o, a, b);
        assert a in loc && loc[a] == b;
      }
    }
  }

  lemma ForthOlder(s1: State, s: State, from: nat, n: nat)
    requires Forth(s1, s, from) && from < n && (s1.t.gen == NUM_GENERATIONS || s1.t.gen < n)
    ensures SameOlder(s1.t.ps, s.t.ps, n)
  {
    hide ForwardingStays, Refers;
  }

  /** No more words are in use than before. */
  lemma RoundWeight(s0: State, s1: State, s: State, s2: State, from: nat, shapes: map<int, Shape>)
    requires RestOk(s0) && Begins(s0, s1, from) && Onward(s1, s, from) && InvOk(s, from, shapes)
    requires Finished(s, s2, from)
    ensures |WordsInUse(s2.t)| <= |WordsInUse(s0.t)|
  {
    hide Forth, Weight, SameHere, InvOk, SlackZero, SizesOk, RestWordOk, RawOk, ObjectsOk, PageOk, RegionOk;
    WeightAtFirst(s1, from);
    forall x | x in WordsInUse(s1.t) ensures x in WordsInUse(s0.t) {
      BegunInUse(s0, s1, from, x);
    }
    FewerWords(WordsInUse(s1.t), WordsInUse(s0.t));
    WeightAtEnd(s, s2, from, shapes);
  }

  /** What the control stack may refer to stays where it is. */
  lemma RoundStack(s0: State, s1: State, s: State, s2: State, from: nat, shapes: map<int, Shape>, o: Origin,
        stack: seq<StackWord>)
    requires RestOk(s0) && Begins(s0, s1, from) && AllSaved(s1.t.ps, s1.objs, from, stack, 0)
    requires Onward(s1, s, from) && InvOk(s, from, shapes) && Mirrors(s, from, o) && NoneMovedAtFirst(o)
    requires o.objs == s0.objs && Finished(s, s2, from)
    ensures StackKept(s0, stack, Located(s2, Beginning(s0), Whither(s, from, o)))
  {
    hide SlackZero, RawOk, RestWordOk, InvOk, Mirrors, Traced, Whither, Onward, Forth, Begins, Finished, AllSaved,
      NoneMovedAtFirst;
    forall a {:trigger Touched(s0.objs, stack, a)} | Touched(s0.objs, stack, a)
      ensures a in s2.objs && a !in Whither(s, from, o)
    {
      TouchedSaved(s0, s1, from, stack, a);
      SavedStaysNew(s0, s1, s, from, a);
      WhitherFacts(s, from, shapes, o, a);
      SavedLeft(s, s2, from, a);
    }
  }

  lemma TouchedSaved(s0: State, s1: State, from: nat, stack: seq<StackWord>, a: int)
    requires Begins(s0, s1, from) && AllSaved(s1.t.ps, s1.objs, from, stack, 0) && Touched(s0.objs, stack, a)
    ensures a in s1.objs && (0 <= a / PAGE < |s1.t.ps| ==> s1.t.ps[a / PAGE].gen != from)
  {
    hide Begins;
    BeginLength(s0, s1, from);
    var k :| 0 <= k < |stack| && stack[k].valid && a <= Target(stack[k].word) < s0.objs[a];
    assert Saved(s1.t.ps, s1.objs, from, Target(stack[k].word));
  }

  /** No object that is not in the old space comes into it. */
  lemma SavedStaysNew(s0: State, s1: State, s: State, from: nat, a: int)
    requires RestOk(s0) && Begins(s0, s1, from) && Onward(s1, s, from) && a in s1.objs
    requires 0 <= a / PAGE < |s1.t.ps| ==> s1.t.ps[a / PAGE].gen != from
    ensures a in s.objs && 0 <= a / PAGE < |s.t.ps| && s.t.ps[a / PAGE].gen != from
  {
    hide Onward, SlackZero, RestWordOk, RawOk, Begins, PageOk, RegionOk, ObjectsOk, RestOk;
    BeginLength(s0, s1, from);
    RestBounds(s0, a);
    NotRefers(s1, s, from, Pointer(a, 1));
  }

  lemma RestBounds(s: State, a: int)
    requires RestOk(s) && a in s.objs
    ensures 0 <= a && 0 <= a / PAGE < |s.t.ps| - 1
  {
    hide SlackZero, RestWordOk, RawOk, PageOk, RegionOk;
    ObjectInUse(s, a);
  }

  lemma NotRefers(s: State, s2: State, from: nat, w: int)
    requires Onward(s, s2, from) && !Refers(s.t, from, w)
    ensures !Refers(s2.t, from, w) && |s2.t.ps| == |s.t.ps|
    ensures Target(w) in s.objs ==> Target(w) in s2.objs
  {
    hide Refers, ForwardingStays;
  }

  lemma SavedLeft(s: State, s2: State, from: nat, a: int)
    requires Finished(s, s2, from) && a in s.objs && 0 <= a / PAGE < |s.t.ps| && s.t.ps[a / PAGE].gen != from
    ensures a in s2.objs && !OldObject(s, from, a)
  {
  }

  lemma SameLength(s: State, s2: State, from: nat)
    requires Onward(s, s2, from)
    ensures |s2.t.ps| == |s.t.ps|
  {
  }

  lemma FinishedLength(s: State, s2: State, from: nat)
    requires Finished(s, s2, from)
    ensures |s2.t.ps| == |s.t.ps|
  {
  }

  /** A generation without pages has no bytes. */
  lemma {:induction false} NoPagesNoBytes(ps: seq<Page>, g: int, n: nat)
    requires n <= |ps| && g != ALL && forall i {:trigger ps[i]} :: 0 <= i < n && ps[i].alloc ==> ps[i].gen != g
    ensures Sum(ps, g, n) == 0
  {
    if n > 0 {
      NoPagesNoBytes(ps, g, n - 1);
    }
  }

  lemma NothingTemporary(t: Table, objs: map<int, int>, gens: seq<Generation>, total: int, m: seq<int>)
    requires HeapOk(t, objs, gens, total, m) && NoneTemporary(t.ps)
    ensures gens[NUM_GENERATIONS].bytes == 0
  {
    hide PageOk, RegionOk, ObjectsOk, Zeroed;
    NoPagesNoBytes(t.ps, NUM_GENERATIONS, |t.ps|);
  }

  lemma SameWordsOk(s: State, s2: State, words: seq<int>)
    requires s2.objs == s.objs && |s2.t.ps| == |s.t.ps| && RootsOk(s, words)
    ensures RootsOk(s2, words)
  {
  }

  lemma SameBeginning(o: Origin, o2: Origin)
    requires NoneMovedAtFirst(o) && o2 == o.(clean := o2.clean)
    ensures NoneMovedAtFirst(o2)
  {
  }

  lemma GraphOrigin(s: State, o: Origin, o2: Origin, whither: map<int, int>)
    requires GraphKept(s, o, whither) && o2.m == o.m && o2.objs == o.objs && o2.unboxed == o.unboxed
    ensures GraphKept(s, o2, whither)
  {
    hide WordsKept;
  }

  lemma RootsFinished(s: State, s2: State, from: nat, shapes: map<int, Shape>, o: Origin, roots0: seq<int>,
        roots: seq<int>)
    requires InvOk(s, from, shapes) && Mirrors(s, from, o) && NoneMovedAtFirst(o) && RootsDone(s, from, roots0, roots)
    requires Finished(s, s2, from)
    ensures forall i {:trigger roots[i]} ::
      0 <= i < |roots| ==> RootMoved(Whither(s, from, o), roots0[i], roots[i]) && WordOk(s2, roots[i])
  {
    hide InvOk, Mirrors, Traced, NoneMovedAtFirst, RootDone, Finished, RootMoved, WordOk, Whither;
    forall i {:trigger roots[i]} | 0 <= i < |roots|
      ensures RootMoved(Whither(s, from, o), roots0[i], roots[i]) && WordOk(s2, roots[i])
    {
      RootFinished(s, s2, from, shapes, o, roots0[i], roots[i]);
    }
  }
}
