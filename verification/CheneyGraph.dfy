/** What a whole collection does to the object graph: the roots, the objects that can be reached from
    them, and how the heap afterwards mirrors the heap before. */
module CheneyGraph {
  import opened CheneyHeap

  /** Root words [first, last): interrupt contexts, handlers, the control and binding stacks, static space. */
  datatype Area = Area(first: nat, last: nat)

  ghost predicate AreaApart(h: Heap, r: Area) {
    && r.first <= r.last <= |h.words|
    && (r.last <= h.lo || h.lo + h.size <= r.first)
    && (r.last <= h.base || h.base + h.size <= r.first)
  }

  ghost predicate RootOk(h: Heap, r: Area)
    requires h.Valid()
  {
    && AreaApart(h, r)
    && Stream(h.words, r.first, r.last)
    && (forall p {:trigger p in Visits(h.words, r.first, r.last)} ::
          p in Visits(h.words, r.first, r.last) ==> h.RefOk(h.words[p]))
  }

  /** Roots lie outside the dynamic spaces, apart from one another, and their references are in order. */
  ghost predicate RootsOk(h: Heap, roots: seq<Area>)
    requires h.Valid()
  {
    && (forall j :: 0 <= j < |roots| ==> RootOk(h, roots[j]))
    && (forall i, j :: 0 <= i < j < |roots| ==> roots[i].last <= roots[j].first || roots[j].last <= roots[i].first)
  }

  // ---------- Reachability ----------

  ghost predicate RootsIn(h: Heap, r: Area, live: set<int>)
    requires r.last <= |h.words|
  {
    forall p {:trigger p in Visits(h.words, r.first, r.last)} ::
      p in Visits(h.words, r.first, r.last) ==> h.TargetIn(h.words[p], live)
  }

  /** A set of objects that holds what the roots refer to, and what its own members refer to. */
  ghost predicate Closed(h: Heap, roots: seq<Area>, live: set<int>)
    requires h.Valid() && RootsOk(h, roots)
  {
    && (forall j :: 0 <= j < |roots| ==> RootsIn(h, roots[j], live))
    && LiveClosed(h, live)
  }

  /** The least closed set of objects. */
  ghost function Reachable(h: Heap, roots: seq<Area>): set<int>
    requires h.Valid() && RootsOk(h, roots)
  {
    set a | a in h.objects && (forall s: set<int> :: Closed(h, roots, s) ==> a in s)
  }

  lemma ReachableLeast(h: Heap, roots: seq<Area>, live: set<int>)
    requires h.Valid() && RootsOk(h, roots) && Closed(h, roots, live)
    ensures Reachable(h, roots) <= live
  {
  }

  lemma ReachableClosed(h: Heap, roots: seq<Area>)
    requires h.Valid() && RootsOk(h, roots)
    ensures Closed(h, roots, Reachable(h, roots))
  {
    var live := Reachable(h, roots);
    forall j | 0 <= j < |roots| ensures RootsIn(h, roots[j], live) {
      var r := roots[j];
      forall p | p in Visits(h.words, r.first, r.last) ensures h.TargetIn(h.words[p], live) {
        assert RootOk(h, r) && h.RefOk(h.words[p]);
        forall s: set<int> | Closed(h, roots, s) ensures h.TargetIn(h.words[p], s) {
          assert RootsIn(h, r, s);
        }
      }
    }
    forall a | a in live && a in h.objects ensures h.ClosedAt(a, live) {
      forall i: nat | i < h.objects[a] && !IsRaw(h.words[a]) ensures h.TargetIn(h.Slot(a, i), live) {
        assert h.SlotOk(a, i);
        forall s: set<int> | Closed(h, roots, s) ensures h.TargetIn(h.Slot(a, i), s) {
          assert a in s && h.ClosedAt(a, s);
        }
      }
    }
  }

  // ---------- The heap afterwards ----------

  function WeakValue(h: Heap, fwd: map<int, int>, nil: Word, value: Word): Word {
    if value.Pointer? && h.lo <= value.addr < h.hi then
      if value.addr in fwd then Pointer(value.tag, fwd[value.addr]) else nil
    else value
  }

  function WeakBroken(h: Heap, fwd: map<int, int>, tee: Word, value: Word, broken: Word): Word {
    if value.Pointer? && h.lo <= value.addr < h.hi && value.addr !in fwd then tee else broken
  }

  /** What word i of the copy of object a must be: a weak pointer keeps its value exactly when the value
      was copied; the other slots hold what their originals refer to, moved. */
  ghost predicate WordMirrors(h: Heap, t: Trace, nil: Word, tee: Word, a: int, i: nat, w: Word)
    requires 0 <= a && a + i < |h.words| && (IsWeak(h.words[a]) ==> a + 3 < |h.words|)
  {
    if IsWeak(h.words[a]) then
      && (i == 0 ==> w == h.words[a])
      && (i == 1 ==> w == WeakValue(h, t.fwd, nil, h.Slot(a, 1)))
      && (i == 2 ==> w == WeakBroken(h, t.fwd, tee, h.Slot(a, 1), h.Slot(a, 2)))
      && (i == 3 ==> w.Link?)
    else if IsRaw(h.words[a]) then w == h.Slot(a, i)
    else Scavenged(h, t, h.Slot(a, i), w)
  }

  ghost predicate CopyMirrors(h: Heap, t: Trace, nil: Word, tee: Word, m: seq<Word>, k: nat)
    requires h.Valid() && h.SizesOk() && k < |t.owner| && OwnerOk(h, t, k) && h.base + k < |m|
  {
    var a := t.owner[k];
    assert h.objects[a] == Size(h.words[a], h.words[a + 1]);
    WordMirrors(h, t, nil, tee, a, Index(h, t, k), m[h.base + k])
  }

  /** New space mirrors the objects copied. */
  ghost predicate Mirrored(h: Heap, t: Trace, nil: Word, tee: Word, m: seq<Word>) {
    && h.Valid() && h.SizesOk() && TraceOk(h, t) && |m| == |h.words| && |t.owner| <= h.size
    && (forall k :: 0 <= k < |t.owner| ==> CopyMirrors(h, t, nil, tee, m, k))
  }

  /** A copy starts at b. */
  ghost predicate StartsAt(h: Heap, t: Trace, b: int) {
    && h.base <= b < h.base + |t.owner|
    && t.owner[b - h.base] in t.fwd && t.owner[b - h.base] in h.objects && t.fwd[t.owner[b - h.base]] == b
  }

  /** The objects of new space. */
  ghost function NewObjects(h: Heap, t: Trace): (objects: map<int, nat>) {
    map b | h.base <= b < h.base + |t.owner| && StartsAt(h, t, b) :: h.objects[t.owner[b - h.base]]
  }

  /** Different objects are copied to different places. */
  lemma SamePlace(h: Heap, t: Trace, a: int, c: int)
    requires h.Valid() && TraceOk(h, t) && a in t.fwd && c in t.fwd && t.fwd[a] == t.fwd[c]
    ensures a == c
  {
    assert t.owner[t.fwd[a] - h.base] == a && t.owner[t.fwd[c] - h.base] == c;
  }

  lemma NewObject(h: Heap, t: Trace, a: int)
    requires h.Valid() && TraceOk(h, t) && a in t.fwd
    ensures t.fwd[a] in NewObjects(h, t) && NewObjects(h, t)[t.fwd[a]] == h.objects[a]
  {
    assert t.owner[t.fwd[a] - h.base] == a && StartsAt(h, t, t.fwd[a]);
  }

  /** The heap once the spaces have been flipped. */
  ghost function NewHeap(h: Heap, t: Trace, m: seq<Word>): Heap {
    Heap(m, NewObjects(h, t), h.base, h.base + |t.owner|, h.lo, h.size)
  }

  lemma NewHeapWords(h: Heap, t: Trace, m: seq<Word>)
    ensures NewHeap(h, t, m).words == m
  {
  }

  /** A word that leads into neither dynamic space. */
  ghost predicate Static(h: Heap, w: Word) {
    w.Pointer? ==> !(h.lo <= w.addr < h.lo + h.size) && !(h.base <= w.addr < h.base + h.size)
  }

  /** A word of the new heap, from its object's point of view. */
  lemma MirrorWord(h: Heap, t: Trace, nil: Word, tee: Word, m: seq<Word>, a: int, i: nat)
    requires Mirrored(h, t, nil, tee, m) && a in t.fwd && a in h.objects && i < h.objects[a]
    ensures 0 <= t.fwd[a] && t.fwd[a] + i < |m| && 0 <= a && a + i < |h.words|
    ensures IsWeak(h.words[a]) ==> h.objects[a] == WEAK_POINTER_WORDS
    ensures WordMirrors(h, t, nil, tee, a, i, m[t.fwd[a] + i])
  {
    var k := t.fwd[a] + i - h.base;
    assert OwnerOk(h, t, k) && t.owner[k] == a && CopyMirrors(h, t, nil, tee, m, k);
    assert h.objects[a] == Size(h.words[a], h.words[a + 1]);
  }

  /** The first word of a copy is of the same kind as the original's. */
  lemma MirrorFirst(h: Heap, t: Trace, nil: Word, tee: Word, m: seq<Word>, a: int)
    requires Mirrored(h, t, nil, tee, m) && a in t.fwd && a in h.objects
    ensures 0 <= t.fwd[a] && t.fwd[a] + 1 < |m| && 0 <= a && a + 1 < |h.words|
    ensures TagOf(m[t.fwd[a]]) == TagOf(h.words[a]) && IsRaw(m[t.fwd[a]]) == IsRaw(h.words[a])
    ensures IsWeak(m[t.fwd[a]]) == IsWeak(h.words[a])
    ensures Size(m[t.fwd[a]], m[t.fwd[a] + 1]) == h.objects[a]
    ensures m[t.fwd[a]].Header? && m[t.fwd[a]].kind.SimpleVector? <==>
        h.words[a].Header? && h.words[a].kind.SimpleVector?
  {
    MirrorWord(h, t, nil, tee, m, a, 0);
    MirrorWord(h, t, nil, tee, m, a, 1);
    assert h.SlotOk(a, 1) && h.Slot(a, 0) == h.words[a] && h.Slot(a, 1) == h.words[a + 1];
    assert h.objects[a] == Size(h.words[a], h.words[a + 1]);
  }

  /** A reference that has been moved leads to the copy. */
  lemma MovedRef(h: Heap, t: Trace, nil: Word, tee: Word, m: seq<Word>, o: Word)
    requires Mirrored(h, t, nil, tee, m) && h.RefOk(o) && h.TargetIn(o, t.fwd.Keys)
    ensures NewHeap(h, t, m).SpacesOk() && NewHeap(h, t, m).RefOk(Scav(t.fwd, o))
  {
    if o.Pointer? && o.addr in t.fwd {
      NewObject(h, t, o.addr);
      MirrorFirst(h, t, nil, tee, m, o.addr);
    }
  }

  /** The slots of a copied weak pointer are in order. */
  lemma NewWeakSlotOk(h: Heap, t: Trace, nil: Word, tee: Word, m: seq<Word>, a: int, i: nat)
    requires Mirrored(h, t, nil, tee, m) && Static(h, nil) && Static(h, tee)
    requires a in t.fwd && a in h.objects && i < h.objects[a] && IsWeak(h.words[a])
    ensures NewHeap(h, t, m).SpacesOk() && 0 <= t.fwd[a] && t.fwd[a] + i < |m|
    ensures NewHeap(h, t, m).SlotOk(t.fwd[a], i)
  {
    MirrorWord(h, t, nil, tee, m, a, i);
    MirrorFirst(h, t, nil, tee, m, a);
    assert h.SlotOk(a, 1) && h.SlotOk(a, 2);
    var v := h.Slot(a, 1);
    if h.TargetIn(v, t.fwd.Keys) {
      MovedRef(h, t, nil, tee, m, v);
    }
  }

  lemma NewSlotOk(h: Heap, t: Trace, nil: Word, tee: Word, m: seq<Word>, a: int, i: nat)
    requires Mirrored(h, t, nil, tee, m) && Static(h, nil) && Static(h, tee)
    requires a in t.fwd && a in h.objects && i < h.objects[a]
    ensures NewHeap(h, t, m).SpacesOk() && 0 <= t.fwd[a] && t.fwd[a] + i < |m|
    ensures NewHeap(h, t, m).SlotOk(t.fwd[a], i)
  {
    if IsWeak(h.words[a]) {
      NewWeakSlotOk(h, t, nil, tee, m, a, i);
    } else {
      MirrorWord(h, t, nil, tee, m, a, i);
      MirrorFirst(h, t, nil, tee, m, a);
      if !IsRaw(h.words[a]) {
        assert h.SlotOk(a, i);
        MovedRef(h, t, nil, tee, m, h.Slot(a, i));
      }
    }
  }

  lemma NewObjectsApart(h: Heap, t: Trace, b: int, c: int)
    requires h.Valid() && TraceOk(h, t) && StartsAt(h, t, b) && StartsAt(h, t, c) && b < c
    ensures b + h.objects[t.owner[b - h.base]] <= c
  {
    var x, y := t.owner[b - h.base], t.owner[c - h.base];
    assert x in t.fwd;
    assert c < b + h.objects[x] ==> y == x;
  }

  lemma NewSpaces(h: Heap, t: Trace, nil: Word, tee: Word, m: seq<Word>)
    requires Mirrored(h, t, nil, tee, m)
    ensures h.Valid() && TraceOk(h, t) && NewHeap(h, t, m).SpacesOk()
    ensures forall b {:trigger b in NewHeap(h, t, m).objects} :: b in NewHeap(h, t, m).objects ==> StartsAt(h, t, b)
  {
  }

  lemma NewObjectsIn(h: Heap, t: Trace, nil: Word, tee: Word, m: seq<Word>, b: int)
    requires Mirrored(h, t, nil, tee, m) && StartsAt(h, t, b)
    ensures b + 1 < |m| && 2 <= h.objects[t.owner[b - h.base]]
    ensures b + h.objects[t.owner[b - h.base]] <= h.base + |t.owner|
    ensures h.objects[t.owner[b - h.base]] == Size(m[b], m[b + 1])
  {
    MirrorFirst(h, t, nil, tee, m, t.owner[b - h.base]);
  }

  /** The heap after a collection is in order, so that it can be collected in turn. */
  lemma NewHeapOk(h: Heap, t: Trace, nil: Word, tee: Word, m: seq<Word>)
    requires Mirrored(h, t, nil, tee, m) && Static(h, nil) && Static(h, tee)
    ensures NewHeap(h, t, m).Valid() && NewHeap(h, t, m).SizesOk()
  {
    hide Mirrored, TraceOk, Heap.SlotOk, StartsAt, Size;
    var h2 := NewHeap(h, t, m);
    NewSpaces(h, t, nil, tee, m);
    forall b {:trigger b in h2.objects} | b in h2.objects
      ensures h2.lo <= b && b + 1 < |m| && 2 <= h2.objects[b] && b + h2.objects[b] <= h2.hi
      ensures h2.objects[b] == Size(m[b], m[b + 1])
    {
      NewObjectsIn(h, t, nil, tee, m, b);
    }
    forall b, c {:trigger b in h2.objects, c in h2.objects} | b in h2.objects && c in h2.objects && b < c
      ensures b + h2.objects[b] <= c
    {
      NewObjectsApart(h, t, b, c);
    }
    forall b, i: nat {:trigger h2.SlotOk(b, i)} | b in h2.objects && i < h2.objects[b] ensures h2.SlotOk(b, i) {
      NewSlotOkAt(h, t, nil, tee, m, b, i);
    }
  }

  lemma NewSlotOkAt(h: Heap, t: Trace, nil: Word, tee: Word, m: seq<Word>, b: int, i: nat)
    requires Mirrored(h, t, nil, tee, m) && Static(h, nil) && Static(h, tee)
    requires StartsAt(h, t, b) && i < h.objects[t.owner[b - h.base]]
    ensures NewHeap(h, t, m).SpacesOk() && b + i < |m| && NewHeap(h, t, m).SlotOk(b, i)
  {
    NewSlotOk(h, t, nil, tee, m, t.owner[b - h.base], i);
  }

  // ---------- The roots afterwards ----------

  /** Words have changed only where the walk from p to e stops, and there to their scavenged form. */
  ghost predicate Walked(fwd: map<int, int>, m0: seq<Word>, m: seq<Word>, p: nat, e: nat)
    requires e <= |m0| == |m|
  {
    && (forall q {:trigger m[q]} :: q in Visits(m0, p, e) ==> m[q] == Scav(fwd, m0[q]))
    && (forall q {:trigger m[q]} :: p <= q < e && q !in Visits(m0, p, e) ==> m[q] == m0[q])
  }

  /** Such a change does not make the next walk stop anywhere else. */
  lemma {:induction false} WalkAgain(fwd: map<int, int>, m0: seq<Word>, m: seq<Word>, p: nat, e: nat)
    requires e <= |m0| == |m| && Stream(m0, p, e) && Walked(fwd, m0, m, p, e)
    ensures Stream(m, p, e) && Visits(m, p, e) == Visits(m0, p, e)
    decreases e - p
  {
    if p < e {
      var next := p + Skip(m0, p);
      StreamStep(m0, p, e);
      assert m[p] == Scav(fwd, m0[p]);
      if IsRaw(m0[p]) {
        assert p + 1 < next <= e && p + 1 !in Visits(m0, next, e) && p + 1 !in Visits(m0, p, e);
        assert m[p + 1] == m0[p + 1];
      }
      assert Skip(m, p) == Skip(m0, p);
      assert Walked(fwd, m0, m, next, e) by {
        forall q {:trigger m[q]} | next <= q < e && q !in Visits(m0, next, e) ensures m[q] == m0[q] {
          assert q !in Visits(m0, p, e);
        }
      }
      WalkAgain(fwd, m0, m, next, e);
      assert Visits(m, p, e) == {p} + Visits(m, next, e);
    }
  }

  /** A root area has been scavenged. */
  ghost predicate RootMoved(h: Heap, t: Trace, m: seq<Word>, r: Area)
    requires r.last <= |m| == |h.words|
  {
    && AllScavenged(h, t, h.words, m, Visits(h.words, r.first, r.last))
    && (forall q {:trigger m[q]} :: r.first <= q < r.last && q !in Visits(h.words, r.first, r.last) ==>
        m[q] == h.words[q])
  }

  lemma NewRootOk(h: Heap, t: Trace, nil: Word, tee: Word, m: seq<Word>, r: Area)
    requires Mirrored(h, t, nil, tee, m) && NewHeap(h, t, m).Valid() && RootOk(h, r) && RootMoved(h, t, m, r)
    ensures RootOk(NewHeap(h, t, m), r)
  {
    var h2 := NewHeap(h, t, m);
    WalkAgain(t.fwd, h.words, m, r.first, r.last);
    forall p {:trigger p in Visits(m, r.first, r.last)} | p in Visits(m, r.first, r.last) ensures h2.RefOk(m[p]) {
      assert p in Visits(h.words, r.first, r.last);
      assert h.RefOk(h.words[p]) && Scavenged(h, t, h.words[p], m[p]);
      MovedRef(h, t, nil, tee, m, h.words[p]);
    }
  }

  ghost predicate RootsMoved(h: Heap, t: Trace, m: seq<Word>, roots: seq<Area>)
    requires h.Valid() && RootsOk(h, roots) && |m| == |h.words|
  {
    forall j :: 0 <= j < |roots| ==> RootMoved(h, t, m, roots[j])
  }

  /** The set of copied objects is closed, once the roots and the copies have all been scavenged. */
  lemma CopiedClosed(h: Heap, t: Trace, nil: Word, tee: Word, m: seq<Word>, roots: seq<Area>)
    requires Mirrored(h, t, nil, tee, m) && RootsOk(h, roots) && RootsMoved(h, t, m, roots)
    ensures Closed(h, roots, t.fwd.Keys)
  {
    forall j | 0 <= j < |roots| ensures RootsIn(h, roots[j], t.fwd.Keys) {
      var r := roots[j];
      forall p {:trigger p in Visits(h.words, r.first, r.last)} | p in Visits(h.words, r.first, r.last)
        ensures h.TargetIn(h.words[p], t.fwd.Keys)
      {
        assert RootMoved(h, t, m, r) && Scavenged(h, t, h.words[p], m[p]);
      }
    }
    forall a | a in t.fwd.Keys && a in h.objects ensures h.ClosedAt(a, t.fwd.Keys) {
      forall i: nat | i < h.objects[a] && !IsRaw(h.words[a]) ensures h.TargetIn(h.Slot(a, i), t.fwd.Keys) {
        MirrorWord(h, t, nil, tee, m, a, i);
      }
    }
  }

  /** What a collection achieves: exactly the reachable objects have been copied, each reference among them
      and in the roots leads to the copy of what it led to, and the copies are all there is in the new heap. */
  ghost predicate Collected(h: Heap, h2: Heap, t: Trace, nil: Word, tee: Word, roots: seq<Area>) {
    && Mirrored(h, t, nil, tee, h2.words)
    && h2 == NewHeap(h, t, h2.words)
    && RootsOk(h, roots) && RootsMoved(h, t, h2.words, roots)
    && t.fwd.Keys == Reachable(h, roots)
  }

  /** A collected heap is a heap with the same roots, no larger than before. */
  lemma CollectedOk(h: Heap, h2: Heap, t: Trace, nil: Word, tee: Word, roots: seq<Area>)
    requires Collected(h, h2, t, nil, tee, roots) && Static(h, nil) && Static(h, tee)
    ensures h2.Valid() && h2.SizesOk() && RootsOk(h2, roots)
    ensures h2.lo == h.base && h2.base == h.lo && h2.size == h.size && h2.hi == h.base + |t.owner|
    ensures Static(h2, nil) && Static(h2, tee)
    ensures h2.hi - h2.lo <= h.hi - h.lo
  {
    NewHeapOk(h, t, nil, tee, h2.words);
    CopiesFit(h, t);
    forall j | 0 <= j < |roots| ensures RootOk(h2, roots[j]) {
      NewRootOk(h, t, nil, tee, h2.words, roots[j]);
    }
  }

  /** Renaming objects by the forwarding map is one to one, onto the objects of the new heap, and keeps sizes. */
  lemma SameObject(h: Heap, h2: Heap, t: Trace, nil: Word, tee: Word, roots: seq<Area>, a: int, c: int, b: int)
    requires Collected(h, h2, t, nil, tee, roots) && a in t.fwd && c in t.fwd
    ensures t.fwd[a] == t.fwd[c] ==> a == c
    ensures a in h.objects && t.fwd[a] in h2.objects && h2.objects[t.fwd[a]] == h.objects[a]
    ensures b in h2.objects <==> exists d :: d in t.fwd && t.fwd[d] == b
  {
    hide Closed, RootsMoved, RootsOk, WordMirrors;
    if t.fwd[a] == t.fwd[c] {
      SamePlace(h, t, a, c);
    }
    NewObject(h, t, a);
    if b in h2.objects {
      assert StartsAt(h, t, b);
    } else if d :| d in t.fwd && t.fwd[d] == b {
      NewObject(h, t, d);
    }
  }

  /** Following a reference and moving to the new heap commute. */
  lemma SameReference(h: Heap, h2: Heap, t: Trace, nil: Word, tee: Word, roots: seq<Area>, a: int, i: nat)
    requires Collected(h, h2, t, nil, tee, roots)
    requires a in t.fwd && a in h.objects && i < h.objects[a] && !IsRaw(h.words[a])
    requires h.Slot(a, i).Pointer? && h.lo <= h.Slot(a, i).addr < h.hi
    ensures 0 <= t.fwd[a] && t.fwd[a] + i < |h2.words| && h.Slot(a, i).addr in t.fwd
    ensures h2.Slot(t.fwd[a], i) == Pointer(h.Slot(a, i).tag, t.fwd[h.Slot(a, i).addr])
  {
    MirrorWord(h, t, nil, tee, h2.words, a, i);
  }

  lemma {:induction false} StreamSame(m0: seq<Word>, m: seq<Word>, p: nat, e: nat)
    requires e <= |m0| == |m| && Stream(m0, p, e)
    requires forall q {:trigger m[q]} :: p <= q < e ==> m[q] == m0[q]
    ensures Stream(m, p, e) && Visits(m, p, e) == Visits(m0, p, e)
    decreases e - p
  {
    if p < e {
      assert m[p] == m0[p] && (p + 1 < e ==> m[p + 1] == m0[p + 1]);
      StreamSame(m0, m, p + Skip(m0, p), e);
    }
  }

  /** A root area that has not been touched yet can be scavenged. */
  lemma RootArea(h: Heap, t: Trace, live: set<int>, m: seq<Word>, r: Area)
    requires Copying(h, t, m) && RootOk(h, r) && RootsIn(h, r, live)
    requires forall q {:trigger m[q]} :: r.first <= q < r.last ==> m[q] == h.words[q]
    ensures AreaOk(h, t, live, m, r.first, r.last) && Visits(m, r.first, r.last) == Visits(h.words, r.first, r.last)
  {
    StreamSame(h.words, m, r.first, r.last);
    forall p {:trigger p in Visits(m, r.first, r.last)} | p in Visits(m, r.first, r.last)
      ensures Traceable(h, live, m[p]) && (IsRaw(m[p]) || SlotAt(h, t, p))
    {
      assert p in Visits(h.words, r.first, r.last) && m[p] == h.words[p];
      assert h.RefOk(h.words[p]) && h.TargetIn(h.words[p], live);
    }
  }

  /** A root area that has been scavenged stays so. */
  lemma RootMovedStays(h: Heap, t0: Trace, t: Trace, m0: seq<Word>, m: seq<Word>, r: Area)
    requires Copying(h, t0, m0) && Copying(h, t, m) && Extends(t0, t)
    requires r.last <= |m0| && RootMoved(h, t0, m0, r)
    requires forall q {:trigger m[q]} :: r.first <= q < r.last ==> m[q] == m0[q]
    ensures RootMoved(h, t, m, r)
  {
    AllScavengedGrows(h, t0, t, h.words, m0, m, Visits(h.words, r.first, r.last));
  }

  ghost predicate InRoots(roots: seq<Area>, j: nat, c: int)
    requires j <= |roots|
  {
    exists i :: 0 <= i < j && roots[i].first <= c < roots[i].last
  }

  /** The first j root areas have been scavenged, and no other word outside the spaces has changed. */
  ghost predicate RootsUpTo(h: Heap, t: Trace, m: seq<Word>, roots: seq<Area>, j: nat) {
    && h.Valid() && RootsOk(h, roots) && |m| == |h.words| && j <= |roots|
    && (forall i :: 0 <= i < j ==> RootMoved(h, t, m, roots[i]))
    && (forall c {:trigger m[c]} | 0 <= c < |m| && !(h.lo <= c < h.hi) && !(h.base <= c < h.base + |t.owner|)
          && !InRoots(roots, j, c) :: m[c] == h.words[c])
  }

  lemma RootsUpToNone(h: Heap, t: Trace, m: seq<Word>, roots: seq<Area>)
    requires h.Valid() && RootsOk(h, roots) && h.words == m
    ensures RootsUpTo(h, t, m, roots, 0)
  {
  }

  lemma RootPending(h: Heap, t: Trace, m: seq<Word>, roots: seq<Area>, j: nat)
    requires RootsUpTo(h, t, m, roots, j) && j < |roots| && |t.owner| <= h.size
    ensures forall q {:trigger m[q]} :: roots[j].first <= q < roots[j].last ==> m[q] == h.words[q]
  {
    assert RootOk(h, roots[j]);
    forall q {:trigger m[q]} | roots[j].first <= q < roots[j].last ensures m[q] == h.words[q] {
      assert !InRoots(roots, j, q);
    }
  }

  lemma RootsStep(h: Heap, t0: Trace, t: Trace, m0: seq<Word>, m: seq<Word>, roots: seq<Area>, j: nat)
    requires Copying(h, t0, m0) && Copying(h, t, m) && Extends(t0, t)
    requires RootsUpTo(h, t0, m0, roots, j) && j < |roots|
    requires AllScavenged(h, t, m0, m, Visits(h.words, roots[j].first, roots[j].last))
    requires forall c {:trigger m[c]} | 0 <= c < |m| && c !in Visits(h.words, roots[j].first, roots[j].last)
               && !(h.lo <= c < h.hi) && !(h.base + |t0.owner| <= c < h.base + |t.owner|) :: m[c] == m0[c]
    ensures RootsUpTo(h, t, m, roots, j + 1)
  {
    RootPending(h, t0, m0, roots, j);
    forall i | 0 <= i < j + 1 ensures RootMoved(h, t, m, roots[i]) {
      assert RootOk(h, roots[i]) && RootOk(h, roots[j]);
      if i < j {
        RootMovedStays(h, t0, t, m0, m, roots[i]);
      } else {
        forall p {:trigger m[p]} | p in Visits(h.words, roots[j].first, roots[j].last)
          ensures Scavenged(h, t, h.words[p], m[p])
        {
          assert m0[p] == h.words[p];
        }
      }
    }
    forall c {:trigger m[c]} | 0 <= c < |m| && !(h.lo <= c < h.hi) && !(h.base <= c < h.base + |t.owner|) &&
        !InRoots(roots, j + 1, c)
      ensures m[c] == h.words[c]
    {
      assert !InRoots(roots, j, c) && !(roots[j].first <= c < roots[j].last);
      assert m[c] == m0[c];
    }
  }

  /** What happens in the spaces leaves the roots scavenged. */
  lemma RootsStay(h: Heap, t0: Trace, t: Trace, m0: seq<Word>, m: seq<Word>, roots: seq<Area>)
    requires h.Valid() && TraceOk(h, t) && |t.owner| <= h.size && Extends(t0, t)
    requires RootsUpTo(h, t0, m0, roots, |roots|) && |m| == |m0|
    requires forall c {:trigger m[c]} ::
      0 <= c < |m| && !(h.lo <= c < h.hi) && !(h.base <= c < h.base + |t.owner|) ==> m[c] == m0[c]
    ensures RootsUpTo(h, t, m, roots, |roots|)
  {
    forall i | 0 <= i < |roots| ensures RootMoved(h, t, m, roots[i]) {
      assert RootOk(h, roots[i]) && RootMoved(h, t0, m0, roots[i]);
      AllScavengedGrows(h, t0, t, h.words, m0, m, Visits(h.words, roots[i].first, roots[i].last));
    }
  }

  // ---------- Weak pointers ----------

  /** The j-th weak pointer copy has been given its final value. */
  ghost predicate WeakFixed(h: Heap, t: Trace, nil: Word, tee: Word, m0: seq<Word>, m: seq<Word>, j: nat)
    requires j < |t.weaks|
  {
    var p := t.weaks[j];
    && 0 <= p && p + 3 < |m0| == |m|
    && m[p] == m0[p] && m[p + 3] == m0[p + 3]
    && m[p + 1] == WeakValue(h, t.fwd, nil, m0[p + 1])
    && m[p + 2] == WeakBroken(h, t.fwd, tee, m0[p + 1], m0[p + 2])
  }

  /** The value slots and broken flags of the first j weak pointer copies. */
  ghost predicate WeakSlots(t: Trace, j: nat, c: int)
    requires j <= |t.weaks|
  {
    exists i :: 0 <= i < j && t.weaks[i] < c < t.weaks[i] + 3
  }

  /** A weak pointer copy holds its words 0 to 3, and no other object's. */
  lemma WeakPlace(h: Heap, t: Trace, m: seq<Word>, j: nat, i: nat)
    requires Copying(h, t, m) && j < |t.weaks| && i < WEAK_POINTER_WORDS
    ensures h.base <= t.weaks[j] && t.weaks[j] + i < h.base + |t.owner| && t.weaks[j] + WEAK_POINTER_WORDS <= |m|
    ensures OwnerOk(h, t, t.weaks[j] + i - h.base) && Index(h, t, t.weaks[j] + i - h.base) == i
    ensures t.owner[t.weaks[j] + i - h.base] == t.owner[t.weaks[j] - h.base]
    ensures IsWeak(h.words[t.owner[t.weaks[j] - h.base]])
    ensures i < 3 ==> m[t.weaks[j] + i] == h.Slot(t.owner[t.weaks[j] - h.base], i)
    ensures m[t.weaks[j] + 3] == Link(if j + 1 < |t.weaks| then t.weaks[j + 1] else 0)
  {
    assert WeakAt(h, t, m, j);
    var k := t.weaks[j] - h.base;
    assert t.owner[k] in t.fwd && t.owner[k + i] == t.owner[k];
    assert OwnerOk(h, t, k + i) && CopyAt(h, t, m, k + i);
  }

  lemma WeakSlotsInside(h: Heap, t: Trace, m: seq<Word>, c: int)
    requires Copying(h, t, m)
    ensures WeakSlots(t, |t.weaks|, c) ==> h.base <= c < h.base + |t.owner|
  {
    if i :| 0 <= i < |t.weaks| && t.weaks[i] < c < t.weaks[i] + 3 {
      assert WeakAt(h, t, m, i);
    }
  }

  lemma WeaksApart(h: Heap, t: Trace, m: seq<Word>, i: nat, j: nat)
    requires Copying(h, t, m) && i < j < |t.weaks|
    ensures t.weaks[i] + WEAK_POINTER_WORDS <= t.weaks[j] || t.weaks[j] + WEAK_POINTER_WORDS <= t.weaks[i]
  {
    assert WeakAt(h, t, m, i) && WeakAt(h, t, m, j);
    var a, b := t.owner[t.weaks[i] - h.base], t.owner[t.weaks[j] - h.base];
    assert a in t.fwd && b in t.fwd && t.weaks[i] != t.weaks[j];
  }

  /** The first j weak pointer copies have their final values, and nothing else has changed. */
  ghost predicate WeaksFixed(h: Heap, t: Trace, nil: Word, tee: Word, m0: seq<Word>, m: seq<Word>, j: nat) {
    && j <= |t.weaks| && |m| == |m0|
    && (forall i :: 0 <= i < j ==> WeakFixed(h, t, nil, tee, m0, m, i))
    && (forall c {:trigger m[c]} :: 0 <= c < |m| && !WeakSlots(t, j, c) ==> m[c] == m0[c])
  }

  /** A first word in from space is a pointer into new space exactly when the object has been copied. */
  lemma FirstWord(h: Heap, t: Trace, m: seq<Word>, a: int)
    requires Copying(h, t, m) && a in h.objects
    ensures 0 <= a < |m|
    ensures m[a].Pointer? && h.base <= m[a].addr < h.base + |t.owner| <==> a in t.fwd
    ensures a in t.fwd ==> m[a] == Pointer(TagOf(h.words[a]), t.fwd[a])
  {
    assert h.SlotOk(a, 0) && m[a] == if a in t.fwd then Pointer(TagOf(h.words[a]), t.fwd[a]) else h.words[a];
  }

  /** The next weak pointer copy is still as scavenging left it. */
  lemma WeakNext(h: Heap, t: Trace, nil: Word, tee: Word, m0: seq<Word>, m: seq<Word>, j: nat)
    requires Copying(h, t, m0) && WeaksFixed(h, t, nil, tee, m0, m, j) && j < |t.weaks|
    ensures 0 < t.weaks[j] && h.base <= t.weaks[j] && t.weaks[j] + WEAK_POINTER_WORDS <= h.base + |t.owner| <= |m|
    ensures forall c {:trigger m[c]} :: t.weaks[j] <= c < t.weaks[j] + WEAK_POINTER_WORDS ==> m[c] == m0[c]
    ensures m[t.weaks[j] + 3] == Link(if j + 1 < |t.weaks| then t.weaks[j + 1] else 0)
    ensures h.RefOk(m[t.weaks[j] + 1])
  {
    var p := t.weaks[j];
    WeakPlace(h, t, m0, j, 1);
    assert WeakAt(h, t, m0, j);
    forall c {:trigger m[c]} | p <= c < p + WEAK_POINTER_WORDS ensures m[c] == m0[c] {
      forall k | 0 <= k < j ensures !(t.weaks[k] < c < t.weaks[k] + 3) {
        WeaksApart(h, t, m0, k, j);
      }
    }
    assert m[p + 1] == m0[p + 1] && t.owner[p - h.base] in t.fwd;
    assert h.SlotOk(t.owner[p - h.base], 1);
  }

  /** What a weak pointer's value leads to tells whether it has been copied. */
  lemma WeakTarget(h: Heap, t: Trace, nil: Word, tee: Word, m0: seq<Word>, m: seq<Word>, j: nat, a: int)
    requires Copying(h, t, m0) && WeaksFixed(h, t, nil, tee, m0, m, j) && a in h.objects
    ensures 0 <= a < |m|
    ensures m[a].Pointer? && h.base <= m[a].addr < h.base + |t.owner| <==> a in t.fwd
    ensures a in t.fwd ==> m[a] == Pointer(TagOf(h.words[a]), t.fwd[a])
  {
    FirstWord(h, t, m0, a);
    forall k | 0 <= k < j ensures !(t.weaks[k] < a < t.weaks[k] + 3) {
      assert WeakAt(h, t, m0, k);
    }
    assert !WeakSlots(t, j, a);
  }

  lemma WeakStep(h: Heap, t: Trace, nil: Word, tee: Word, m0: seq<Word>, m: seq<Word>, m2: seq<Word>, j: nat)
    requires Copying(h, t, m0) && WeaksFixed(h, t, nil, tee, m0, m, j) && j < |t.weaks| && |m2| == |m|
    requires 0 < t.weaks[j] && t.weaks[j] + WEAK_POINTER_WORDS <= |m|
    requires forall c {:trigger m[c]} :: t.weaks[j] <= c < t.weaks[j] + WEAK_POINTER_WORDS ==> m[c] == m0[c]
    requires m2[t.weaks[j] + 1] == WeakValue(h, t.fwd, nil, m[t.weaks[j] + 1])
    requires m2[t.weaks[j] + 2] == WeakBroken(h, t.fwd, tee, m[t.weaks[j] + 1], m[t.weaks[j] + 2])
    requires forall c {:trigger m2[c]} :: 0 <= c < |m| && !(t.weaks[j] < c < t.weaks[j] + 3) ==> m2[c] == m[c]
    ensures WeaksFixed(h, t, nil, tee, m0, m2, j + 1)
  {
    var p := t.weaks[j];
    assert m[p] == m0[p] && m[p + 1] == m0[p + 1] && m[p + 2] == m0[p + 2] && m[p + 3] == m0[p + 3];
    assert m2[p] == m[p] && m2[p + 3] == m[p + 3];
    forall i | 0 <= i < j + 1 ensures WeakFixed(h, t, nil, tee, m0, m2, i) {
      if i < j {
        assert WeakFixed(h, t, nil, tee, m0, m, i);
        WeaksApart(h, t, m0, i, j);
        var q := t.weaks[i];
        assert m2[q] == m[q] && m2[q + 1] == m[q + 1] && m2[q + 2] == m[q + 2] && m2[q + 3] == m[q + 3];
      }
    }
    forall c {:trigger m2[c]} | 0 <= c < |m2| && !WeakSlots(t, j + 1, c) ensures m2[c] == m0[c] {
      assert !(t.weaks[j] < c < t.weaks[j] + 3);
      assert !WeakSlots(t, j, c);
      assert m2[c] == m[c];
    }
  }

  lemma WeakCopyMirrors(h: Heap, t: Trace, nil: Word, tee: Word, m0: seq<Word>, m: seq<Word>, j: nat, i: nat)
    requires Copying(h, t, m0) && h.SizesOk() && |m| == |m0| && j < |t.weaks| && i < WEAK_POINTER_WORDS
    requires WeakFixed(h, t, nil, tee, m0, m, j)
    ensures h.base <= t.weaks[j] && t.weaks[j] + i < h.base + |t.owner| && h.base + |t.owner| <= |m|
    ensures OwnerOk(h, t, t.weaks[j] + i - h.base) && CopyMirrors(h, t, nil, tee, m, t.weaks[j] + i - h.base)
  {
    hide Copying;
    CopyingBounds(h, t, m0);
    WeakPlace(h, t, m0, j, 0);
    WeakPlace(h, t, m0, j, 1);
    WeakPlace(h, t, m0, j, 2);
    WeakPlace(h, t, m0, j, i);
  }

  lemma PlainCopyMirrors(h: Heap, t: Trace, nil: Word, tee: Word, m0: seq<Word>, m: seq<Word>, k: nat)
    requires Copying(h, t, m0) && h.SizesOk() && |m| == |m0| && AllDone(h, t, m0, |t.owner|) && k < |t.owner|
    requires OwnerOk(h, t, k) && !IsWeak(h.words[t.owner[k]]) && m[h.base + k] == m0[h.base + k]
    ensures CopyMirrors(h, t, nil, tee, m, k)
  {
    assert CopyAt(h, t, m0, k) && DoneAt(h, t, m0, k);
  }

  /** Scavenging and the scan of the weak pointers together leave new space a mirror of what was copied. */
  lemma WeakScanMirrors(h: Heap, t: Trace, nil: Word, tee: Word, m0: seq<Word>, m: seq<Word>, k: nat)
    requires Copying(h, t, m0) && h.SizesOk() && |m| == |m0| && AllDone(h, t, m0, |t.owner|) && k < |t.owner|
    requires forall j :: 0 <= j < |t.weaks| ==> WeakFixed(h, t, nil, tee, m0, m, j)
    requires forall c :: 0 <= c < |m| && !WeakSlots(t, |t.weaks|, c) ==> m[c] == m0[c]
    ensures OwnerOk(h, t, k) && CopyMirrors(h, t, nil, tee, m, k)
  {
    hide AllDone, CopiesOk, FromSpaceOk, CopyMirrors;
    assert OwnerOk(h, t, k);
    var a, i := t.owner[k], Index(h, t, k);
    assert a in t.fwd && h.objects[a] == Size(h.words[a], h.words[a + 1]);
    if IsWeak(h.words[a]) {
      var j :| 0 <= j < |t.weaks| && t.weaks[j] == t.fwd[a];
      WeakCopyMirrors(h, t, nil, tee, m0, m, j, i);
    } else {
      if WeakSlots(t, |t.weaks|, h.base + k) {
        var j :| 0 <= j < |t.weaks| && t.weaks[j] < h.base + k < t.weaks[j] + 3;
        WeakPlace(h, t, m0, j, h.base + k - t.weaks[j]);
      }
      PlainCopyMirrors(h, t, nil, tee, m0, m, k);
    }
  }

  // ---------- The end of a collection ----------

  /** Everything has been copied, scavenged and fixed; from space is still there. */
  ghost predicate Traced(h: Heap, t: Trace, nil: Word, tee: Word, m: seq<Word>, roots: seq<Area>) {
    && Mirrored(h, t, nil, tee, m)
    && RootsUpTo(h, t, m, roots, |roots|)
    && t.fwd.Keys <= Reachable(h, roots)
  }

  lemma TracedBounds(h: Heap, t: Trace, nil: Word, tee: Word, m: seq<Word>, roots: seq<Area>)
    requires Traced(h, t, nil, tee, m, roots)
    ensures h.Valid() && h.SpacesOk() && |m| == |h.words|
  {
  }

  /** Zeroing the old space and flipping ends the collection. */
  lemma Flip(h: Heap, t: Trace, nil: Word, tee: Word, m0: seq<Word>, m: seq<Word>, roots: seq<Area>)
    requires Traced(h, t, nil, tee, m0, roots) && |m| == |m0|
    requires forall c {:trigger m[c]} :: 0 <= c < |m| && !(h.lo <= c < h.lo + h.size) ==> m[c] == m0[c]
    ensures Collected(h, NewHeap(h, t, m), t, nil, tee, roots)
    ensures forall c {:trigger m[c]} | 0 <= c < |m| && !InRoots(roots, |roots|, c)
              && !(h.lo <= c < h.lo + h.size) && !(h.base <= c < h.base + h.size) :: m[c] == h.words[c]
  {
    forall k | 0 <= k < |t.owner| ensures CopyMirrors(h, t, nil, tee, m, k) {
      assert CopyMirrors(h, t, nil, tee, m0, k) && OwnerOk(h, t, k) && m[h.base + k] == m0[h.base + k];
    }
    forall j | 0 <= j < |roots| ensures RootMoved(h, t, m, roots[j]) {
      assert RootOk(h, roots[j]) && RootMoved(h, t, m0, roots[j]);
      forall q {:trigger m[q]} | roots[j].first <= q < roots[j].last ensures m[q] == m0[q] {
      }
    }
    CopiedClosed(h, t, nil, tee, m, roots);
    ReachableLeast(h, roots, t.fwd.Keys);
  }
}
