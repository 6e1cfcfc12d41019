/** What a stop-and-copy collection does to the words of objects and roots, said for each header type of src/lisp/gc.c
    by itself: which types hold references, and how long objects of each type are. */
module CheneyFields {
  import opened CheneyHeap
  import opened CheneyGraph

  // ---------- Header types ----------

  /** Conses, instances, boxed objects and simple vectors hold references. */
  predicate HoldsReferences(first: Word) {
    match first
    case Header(kind, _) => kind == Instance || kind == Boxed || kind == SimpleVector
    case _ => true
  }

  /** Numbers and specialized vectors hold none. */
  predicate HoldsData(first: Word) {
    match first
    case Header(kind, _) => kind == Unboxed || kind.SpecializedVector?
    case _ => false
  }

  /** The bits of one element. */
  function Bits(e: Element): nat {
    match e
    case Character => 16
    case Bits1 => 1
    case Bits2 => 2
    case Bits4 => 4
    case Bits8 => 8
    case Bits16 => 16
    case Bits32 => 32
    case Bits64 => 64
    case Bits128 => 128
  }

  /** A vector has the least number of words that hold its elements, in a string one more than its length. */
  lemma DataWordsLeast(e: Element, length: nat)
    ensures
      var bits := Bits(e) * (if e == Character then length + 1 else length);
      bits <= 32 * DataWords(e, length) < bits + 32
  {
  }

  /** n words and what is needed to make them an even number. */
  predicate Aligned(n: nat, size: nat) {
    size % 2 == 0 && n <= size < n + 2
  }

  /** The size of an object of each type: the header and its words; header, length and elements; four words of a weak
      pointer; two words of a cons. */
  lemma SizeByKind(first: Word, second: Word)
    ensures first.Header? && first.kind in {Instance, Boxed, Unboxed} ==> Aligned(1 + first.count, Size(first, second))
    ensures first.Header? && first.kind == SimpleVector && second.Immediate? && second.value >= 0 ==>
              Aligned(2 + second.value, Size(first, second))
    ensures first.Header? && first.kind.SpecializedVector? && second.Immediate? && second.value >= 0 ==>
              Aligned(2 + DataWords(first.kind.element, second.value), Size(first, second))
    ensures first.Header? && first.kind == WeakPtr ==> Size(first, second) == 4
    ensures !first.Header? ==> Size(first, second) == 2
  {
  }

  /** The scavenger steps over an object as a whole exactly if it holds data or is a weak pointer. */
  lemma SkipByKind(m: seq<Word>, p: nat)
    requires p + 1 < |m|
    ensures Skip(m, p) == if HoldsData(m[p]) || (m[p].Header? && m[p].kind == WeakPtr) then Size(m[p], m[p + 1]) else 1
  {
  }

  // ---------- The words of objects ----------

  /** Word w of before is w2 now: a reference into the old space refers to the copy of what it referred to, the header
      of a vector that is a valid hash table says that it has to be rehashed, and anything else is the same. */
  ghost predicate Follows(h: Heap, fwd: map<int, int>, w: Word, w2: Word) {
    match w
    case Pointer(tag, c) => if h.lo <= c < h.hi then c in fwd && w2 == Pointer(tag, fwd[c]) else w2 == w
    case Header(kind, count) => w2 == if kind == SimpleVector && count == 2 then Header(SimpleVector, 3) else w
    case _ => w2 == w
  }

  /** What word i of the copy of object a is, by the type of a. */
  ghost predicate FieldMoved(h: Heap, m: seq<Word>, fwd: map<int, int>, a: int, i: nat) {
    a in fwd && 0 <= a && a + i < |h.words| && 0 <= fwd[a] && fwd[a] + i < |m| &&
    (if HoldsReferences(h.words[a]) then Follows(h, fwd, h.words[a + i], m[fwd[a] + i])
     else HoldsData(h.words[a]) ==> m[fwd[a] + i] == h.words[a + i])
  }

  /** After a collection every word of the copy of an object that holds references is what the original word refers to,
      moved, and every word of one that holds data is the original word. */
  ghost predicate FieldsMoved(h: Heap, m: seq<Word>, fwd: map<int, int>) {
    forall a, i: nat {:trigger FieldMoved(h, m, fwd, a, i)} ::
      a in fwd && a in h.objects && i < h.objects[a] ==> FieldMoved(h, m, fwd, a, i)
  }

  lemma CollectedFields(h: Heap, h2: Heap, t: Trace, nil: Word, tee: Word, roots: seq<Area>)
    requires Collected(h, h2, t, nil, tee, roots)
    ensures FieldsMoved(h, h2.words, t.fwd)
  {
    forall a, i: nat {:trigger FieldMoved(h, h2.words, t.fwd, a, i)} | a in t.fwd && a in h.objects && i < h.objects[a]
      ensures FieldMoved(h, h2.words, t.fwd, a, i)
    {
      MirrorWord(h, t, nil, tee, h2.words, a, i);
      CopiedPart(h, t, nil, tee, h2.words, a, i);
    }
  }

  lemma CopiedPart(h: Heap, t: Trace, nil: Word, tee: Word, m: seq<Word>, a: int, i: nat)
    requires Mirrored(h, t, nil, tee, m) && a in t.fwd && a in h.objects && i < h.objects[a]
    requires 0 <= t.fwd[a] && t.fwd[a] + i < |m| && 0 <= a && a + i < |h.words|
    requires IsWeak(h.words[a]) ==> a + 3 < |h.words|
    requires WordMirrors(h, t, nil, tee, a, i, m[t.fwd[a] + i])
    ensures FieldMoved(h, m, t.fwd, a, i)
  {
    assert forall c :: c in t.fwd ==> c in h.objects && h.lo <= c < h.hi;
  }

  /** The copy of the weak pointer at a: its value has followed its object if that has been copied, and the weak pointer
      is broken otherwise. */
  ghost predicate WeakMoved(h: Heap, m: seq<Word>, fwd: map<int, int>, nil: Word, tee: Word, a: int) {
    a in fwd && 0 <= a && a + 4 <= |h.words| && 0 <= fwd[a] && fwd[a] + 4 <= |m| && m[fwd[a]] == h.words[a] &&
    var value, value2, broken, broken2 := h.words[a + 1], m[fwd[a] + 1], h.words[a + 2], m[fwd[a] + 2];
    if !(value.Pointer? && h.lo <= value.addr < h.hi) then value2 == value && broken2 == broken
    else if value.addr in fwd then value2 == Pointer(value.tag, fwd[value.addr]) && broken2 == broken
    else value2 == nil && broken2 == tee
  }

  ghost predicate WeaksMoved(h: Heap, m: seq<Word>, fwd: map<int, int>, nil: Word, tee: Word) {
    forall a {:trigger a in fwd} ::
      a in fwd && 0 <= a < |h.words| && h.words[a].Header? && h.words[a].kind == WeakPtr ==>
        WeakMoved(h, m, fwd, nil, tee, a)
  }

  lemma CollectedWeaks(h: Heap, h2: Heap, t: Trace, nil: Word, tee: Word, roots: seq<Area>)
    requires Collected(h, h2, t, nil, tee, roots)
    ensures WeaksMoved(h, h2.words, t.fwd, nil, tee)
  {
    hide Reachable, RootsMoved, RootsOk;
    forall a {:trigger a in t.fwd} |
      a in t.fwd && 0 <= a < |h.words| && h.words[a].Header? && h.words[a].kind == WeakPtr
      ensures WeakMoved(h, h2.words, t.fwd, nil, tee, a)
    {
      MovedWeak(h, t, nil, tee, h2.words, a);
    }
  }

  lemma MovedWeak(h: Heap, t: Trace, nil: Word, tee: Word, m: seq<Word>, a: int)
    requires Mirrored(h, t, nil, tee, m) && a in t.fwd && 0 <= a < |h.words|
    requires h.words[a].Header? && h.words[a].kind == WeakPtr
    ensures WeakMoved(h, m, t.fwd, nil, tee, a)
  {
    assert forall c :: c in t.fwd ==> c in h.objects && h.lo <= c < h.hi;
    assert h.objects[a] == Size(h.words[a], h.words[a + 1]);
    hide CopyMirrors;
    MirrorWord(h, t, nil, tee, m, a, 0);
    MirrorWord(h, t, nil, tee, m, a, 1);
    MirrorWord(h, t, nil, tee, m, a, 2);
    MirrorWord(h, t, nil, tee, m, a, 3);
    assert h.SlotOk(a, 1);
  }

  // ---------- Roots ----------

  predicate SteppedOver(first: Word) {
    HoldsData(first) || (first.Header? && first.kind == WeakPtr)
  }

  /** Word p belongs to an object that is stepped over as a whole, but is not the first word of it. */
  ghost predicate Inside(m: seq<Word>, first: nat, last: nat, p: int)
    requires last <= |m|
  {
    exists q {:trigger q in Visits(m, first, last)} ::
      q in Visits(m, first, last) && SteppedOver(m[q]) && q < p < q + Size(m[q], if q + 1 < |m| then m[q + 1] else NULL)
  }

  lemma {:induction false} StopOrInside(m: seq<Word>, first: nat, last: nat, p: int)
    requires last <= |m| && Stream(m, first, last) && first <= p < last
    ensures p in Visits(m, first, last) || Inside(m, first, last, p)
    decreases last - first
  {
    var next := first + Skip(m, first);
    StreamStep(m, first, last);
    if next <= p {
      StopOrInside(m, next, last, p);
      if Inside(m, next, last, p) {
        var q :| q in Visits(m, next, last) && SteppedOver(m[q]) &&
          q < p < q + Size(m[q], if q + 1 < |m| then m[q + 1] else NULL);
        assert q in Visits(m, first, last);
      }
    }
  }

  /** A root has followed its object, unless it is part of an object of data in the static space. */
  ghost predicate RootFollowed(h: Heap, m: seq<Word>, fwd: map<int, int>, r: Area, p: int) {
    r.last <= |h.words| && 0 <= p < |h.words| == |m| &&
    (if Inside(h.words, r.first, r.last, p) && p !in Visits(h.words, r.first, r.last) then m[p] == h.words[p]
     else Follows(h, fwd, h.words[p], m[p]))
  }

  ghost predicate RootsFollowed(h: Heap, m: seq<Word>, fwd: map<int, int>, roots: seq<Area>) {
    forall j, p {:trigger RootFollowed(h, m, fwd, roots[j], p)} ::
      0 <= j < |roots| && roots[j].first <= p < roots[j].last
      ==> RootFollowed(h, m, fwd, roots[j], p)
  }

  lemma CollectedRoots(h: Heap, h2: Heap, t: Trace, nil: Word, tee: Word, roots: seq<Area>)
    requires Collected(h, h2, t, nil, tee, roots)
    ensures RootsFollowed(h, h2.words, t.fwd, roots)
  {
    forall j, p {:trigger RootFollowed(h, h2.words, t.fwd, roots[j], p)} |
      0 <= j < |roots| && roots[j].first <= p < roots[j].last ensures RootFollowed(h, h2.words, t.fwd, roots[j], p)
    {
      CollectedRoot(h, h2, t, nil, tee, roots, j, p);
    }
  }

  lemma CollectedRoot(h: Heap, h2: Heap, t: Trace, nil: Word, tee: Word, roots: seq<Area>, j: nat, p: nat)
    requires Collected(h, h2, t, nil, tee, roots) && j < |roots| && roots[j].first <= p < roots[j].last
    ensures RootFollowed(h, h2.words, t.fwd, roots[j], p)
  {
    hide Heap.SizesOk, Closed, CopyMirrors, Reachable, Stream, Visits, Inside, RootFollowed;
    assert RootOk(h, roots[j]) && RootMoved(h, t, h2.words, roots[j]);
    MovedRoot(h, t, h2.words, roots[j], p);
  }

  lemma MovedRoot(h: Heap, t: Trace, m: seq<Word>, r: Area, p: nat)
    requires h.Valid() && TraceOk(h, t) && RootOk(h, r) && |m| == |h.words| && RootMoved(h, t, m, r)
    requires r.first <= p < r.last
    ensures RootFollowed(h, m, t.fwd, r, p)
  {
    hide Stream, Visits, Inside, Heap.SlotOk;
    StopOrInside(h.words, r.first, r.last, p);
    if p in Visits(h.words, r.first, r.last) {
      assert Scavenged(h, t, h.words[p], m[p]);
      assert forall c :: c in t.fwd ==> c in h.objects && h.lo <= c < h.hi;
    }
  }

  // ---------- Nothing else is copied ----------

  /** The set has what object a refers to, by the type of a. */
  ghost predicate HasFields(h: Heap, live: set<int>, a: int) {
    a in h.objects && 0 <= a && a + h.objects[a] <= |h.words| && h.objects[a] >= 2 &&
    (HoldsReferences(h.words[a]) ==> forall x {:trigger h.words[x]} :: a <= x < a + h.objects[a] ==>
        (h.words[x].Pointer? && h.lo <= h.words[x].addr < h.hi ==> h.words[x].addr in live))
  }

  ghost predicate HasRoots(h: Heap, r: Area, live: set<int>) {
    r.last <= |h.words| && forall p {:trigger h.words[p]} ::
      (p in Visits(h.words, r.first, r.last) && h.words[p].Pointer? && h.lo <= h.words[p].addr < h.hi) ==>
          h.words[p].addr in live
  }

  /** The set has what the roots refer to, and with each object what that refers to. */
  ghost predicate HasReached(h: Heap, roots: seq<Area>, live: set<int>) {
    && (forall j {:trigger roots[j]} :: 0 <= j < |roots| ==> HasRoots(h, roots[j], live))
    && (forall a {:trigger a in live} :: a in live && a in h.objects ==> HasFields(h, live, a))
  }

  /** The objects copied are in every such set. */
  ghost predicate OnlyReached(h: Heap, roots: seq<Area>, copied: set<int>) {
    forall live: set<int> {:trigger HasReached(h, roots, live)} :: HasReached(h, roots, live) ==> copied <= live
  }

  lemma CollectedReached(h: Heap, h2: Heap, t: Trace, nil: Word, tee: Word, roots: seq<Area>)
    requires Collected(h, h2, t, nil, tee, roots)
    ensures OnlyReached(h, roots, t.fwd.Keys)
  {
    hide CopyMirrors, RootsMoved, HasReached, Closed;
    forall live: set<int> {:trigger HasReached(h, roots, live)} | HasReached(h, roots, live)
      ensures t.fwd.Keys <= live
    {
      ReachedClosed(h, roots, live);
      ReachableLeast(h, roots, live);
    }
  }

  lemma ReachedClosed(h: Heap, roots: seq<Area>, live: set<int>)
    requires h.Valid() && RootsOk(h, roots) && HasReached(h, roots, live)
    ensures Closed(h, roots, live)
  {
    forall j | 0 <= j < |roots| ensures RootsIn(h, roots[j], live) {
      assert RootOk(h, roots[j]) && HasRoots(h, roots[j], live);
    }
    forall a {:trigger a in h.objects} | a in live && a in h.objects ensures h.ClosedAt(a, live) {
      assert HasFields(h, live, a);
    }
  }
}
