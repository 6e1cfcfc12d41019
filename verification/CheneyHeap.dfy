/** Words, objects and heaps as the stop-and-copy collector of src/lisp/gc.c sees them, together
    with the account of a collection in progress: which from-space objects have been copied, where
    to, and what every word of memory must therefore hold.

    A lispobj is modelled by what its tag bits say about it.  Memory is word-addressed.  Every
    object is referenced with one lowtag, the one its first word determines. */
module CheneyHeap {

  datatype Lowtag = ListTag | InstanceTag | OtherTag

  /** Element types of the specialized vectors, by width; a string holds one character more than
      its length slot says. */
  datatype Element = Character | Bits1 | Bits2 | Bits4 | Bits8 | Bits16 | Bits32 | Bits64 | Bits128

  /** The header types, grouped by the scavenging and transport functions gc_init gives them. */
  datatype HeaderKind =
    | Instance
    | Boxed
    | SimpleVector
    | Unboxed
    | SpecializedVector(element: Element)
    | WeakPtr

  /** `Link` is an untagged C pointer, which the collector takes for a fixnum. */
  datatype Word =
    | Immediate(value: int)
    | Link(target: int)
    | Pointer(tag: Lowtag, addr: int)
    | Header(kind: HeaderKind, count: nat)

  const VALID_HASHING := 2
  const MUST_REHASH := 3
  const WEAK_POINTER_WORDS := 4
  const NULL := Link(0)

  // ---------- Objects ----------

  function Ceil2(n: nat): (r: nat)
    ensures r % 2 == 0 && n <= r <= n + 1
  {
    (n + 1) / 2 * 2
  }

  function FixnumValue(w: Word): nat {
    if w.Immediate? && w.value >= 0 then w.value else 0
  }

  /** The 32-bit words that `length` elements take. */
  function DataWords(e: Element, length: nat): nat {
    match e
    case Character => (length + 1 + 1) / 2
    case Bits1 => (length + 31) / 32
    case Bits2 => (length + 15) / 16
    case Bits4 => (length + 7) / 8
    case Bits8 => (length + 3) / 4
    case Bits16 => (length + 1) / 2
    case Bits32 => length
    case Bits64 => length * 2
    case Bits128 => length * 4
  }

  /** The number of words of an object, from its first two words. */
  function Size(first: Word, second: Word): (n: nat)
    ensures n >= 2 && n % 2 == 0
  {
    match first
    case Header(SimpleVector, _) => Ceil2(FixnumValue(second) + 2)
    case Header(SpecializedVector(e), _) => Ceil2(DataWords(e, FixnumValue(second)) + 2)
    case Header(WeakPtr, _) => WEAK_POINTER_WORDS
    case Header(_, count) => Ceil2(count + 1)
    case _ => 2
  }

  function TagOf(first: Word): Lowtag {
    if !first.Header? then ListTag
    else if first.kind.Instance? then InstanceTag
    else OtherTag
  }

  /** Objects the scavenger steps over as one block. */
  predicate IsRaw(first: Word) {
    first.Header? && (first.kind.Unboxed? || first.kind.SpecializedVector? || first.kind.WeakPtr?)
  }

  predicate IsWeak(first: Word) {
    first.Header? && first.kind.WeakPtr?
  }

  // ---------- Heaps ----------

  /** The heap before a collection: `objects` gives the first word and the size of every object; they
      lie in [lo, hi), the allocated part of the current space [lo, lo + size); the other space is
      [base, base + size). */
  datatype Heap = Heap(words: seq<Word>, objects: map<int, nat>, lo: int, hi: int, base: int, size: nat)
  {
    ghost predicate SpacesOk() {
      && 0 < lo <= hi <= lo + size <= |words|
      && 0 < base && base + size <= |words|
      && (lo + size <= base || base + size <= lo)
    }

    function Slot(a: int, i: nat): Word
      requires 0 <= a + i < |words|
    {
      words[a + i]
    }

    /** A pointer into the current space leads to an object, with that object's lowtag; nothing
        leads into the other space. */
    ghost predicate RefOk(w: Word)
      requires SpacesOk()
    {
      w.Pointer? ==>
        && !(base <= w.addr < base + size)
        && (lo <= w.addr < lo + size ==> w.addr in objects && w.addr < hi && w.tag == TagOf(words[w.addr]))
    }

    ghost predicate SlotOk(a: int, i: nat)
      requires SpacesOk() && 0 <= a && a + i < |words|
    {
      && (IsWeak(words[a]) || !IsRaw(words[a]) ==> RefOk(Slot(a, i)))
      && (IsWeak(words[a]) && i == 2 && Slot(a, i).Pointer? ==> !(lo <= Slot(a, i).addr < lo + size))
      && (!IsRaw(words[a]) && i > 0 ==> !Slot(a, i).Header?)
      && (words[a].Header? && words[a].kind.SimpleVector? && i == 1 ==> Slot(a, i).Immediate?)
    }

    /** Objects lie apart in the allocated part of the current space, and their references are in order. */
    ghost predicate Valid() {
      && SpacesOk()
      && (forall a {:trigger a in objects} :: a in objects ==> lo <= a && 2 <= objects[a] && a + objects[a] <= hi)
      && (forall a, b {:trigger a in objects, b in objects} ::
            a in objects && b in objects && a < b ==> a + objects[a] <= b)
      && (forall a, i: nat {:trigger SlotOk(a, i)} :: a in objects && i < objects[a] ==> SlotOk(a, i))
    }

    /** Every object is as long as its first two words say. */
    ghost predicate SizesOk()
      requires Valid()
    {
      forall a :: a in objects ==> objects[a] == Size(words[a], words[a + 1])
    }

    ghost predicate TargetIn(w: Word, live: set<int>) {
      w.Pointer? && lo <= w.addr < hi ==> w.addr in live
    }

    /** The objects a set must contain once it contains `a`: those the scanned slots of `a` refer to. */
    ghost predicate ClosedAt(a: int, live: set<int>)
      requires Valid() && a in objects
    {
      !IsRaw(words[a]) ==> forall i: nat :: i < objects[a] ==> TargetIn(Slot(a, i), live)
    }
  }

  // ---------- What scavenging makes of a word ----------

  /** A pointer to a copied object becomes the pointer to the copy; the header of a valid hashing
      vector becomes one that must be rehashed; nothing else changes. */
  function Scav(fwd: map<int, int>, w: Word): Word {
    match w
    case Pointer(tag, a) => if a in fwd then Pointer(tag, fwd[a]) else w
    case Header(SimpleVector, VALID) => if VALID == VALID_HASHING then Header(SimpleVector, MUST_REHASH) else w
    case _ => w
  }

  // ---------- The stream of words a scavenge call walks ----------

  function Skip(m: seq<Word>, p: nat): (n: nat)
    requires p < |m|
    ensures n >= 1
  {
    if IsRaw(m[p]) then Size(m[p], if p + 1 < |m| then m[p + 1] else NULL) else 1
  }

  /** The walk from p meets e exactly. */
  ghost predicate Stream(m: seq<Word>, p: nat, e: nat)
    requires e <= |m|
    decreases e - p
  {
    p == e || (p < e && p + Skip(m, p) <= e && Stream(m, p + Skip(m, p), e))
  }

  /** The words the walk from p stops at. */
  ghost function Visits(m: seq<Word>, p: nat, e: nat): (s: set<int>)
    requires e <= |m|
    ensures forall q :: q in s ==> p <= q < e
    decreases e - p
  {
    if p >= e then {} else {p} + Visits(m, p + Skip(m, p), e)
  }

  lemma StreamStep(m: seq<Word>, p: nat, e: nat)
    requires p < e <= |m| && Stream(m, p, e)
    ensures p in Visits(m, p, e) && p + Skip(m, p) <= e && Stream(m, p + Skip(m, p), e)
    ensures Visits(m, p, e) == {p} + Visits(m, p + Skip(m, p), e)
  {
  }

  lemma StreamEnd(m: seq<Word>, e: nat)
    requires e <= |m|
    ensures Visits(m, e, e) == {}
  {
  }

  // ---------- A collection in progress ----------

  /** `owner` says of each word of new space in use which object it is part of the copy of, `fwd`
      where each copied object went, and `weaks` the weak pointer copies, latest first. */
  datatype Trace = Trace(owner: seq<int>, fwd: map<int, int>, weaks: seq<int>)

  const EMPTY_TRACE := Trace([], map[], [])

  /** The copies lie side by side in new space, in the order they were made. */
  ghost predicate TraceOk(h: Heap, t: Trace)
    requires h.Valid()
  {
    && (forall a {:trigger a in t.fwd} :: a in t.fwd ==>
          a in h.objects && h.base <= t.fwd[a] && t.fwd[a] + h.objects[a] <= h.base + |t.owner|)
    && (forall k :: 0 <= k < |t.owner| ==> OwnerOk(h, t, k))
    && (forall a, k {:trigger a in t.fwd, t.owner[k]} ::
          a in t.fwd && 0 <= k < |t.owner| && t.fwd[a] <= h.base + k < t.fwd[a] + h.objects[a] ==> t.owner[k] == a)
  }

  ghost predicate OwnerOk(h: Heap, t: Trace, k: nat)
    requires k < |t.owner|
  {
    var a := t.owner[k];
    a in t.fwd && a in h.objects && t.fwd[a] <= h.base + k < t.fwd[a] + h.objects[a]
  }

  /** Which word of its object the k-th word of new space is. */
  ghost function Index(h: Heap, t: Trace, k: nat): nat
    requires k < |t.owner| && OwnerOk(h, t, k)
  {
    h.base + k - t.fwd[t.owner[k]]
  }

  /** What the k-th word of new space was before the collection. */
  ghost function Original(h: Heap, t: Trace, k: nat): Word
    requires h.Valid() && k < |t.owner| && OwnerOk(h, t, k)
  {
    h.Slot(t.owner[k], Index(h, t, k))
  }

  /** A copied word is the original until it has been scavenged; the link slot of a weak pointer is
      the collector's own. */
  ghost predicate CopyOk(h: Heap, t: Trace, k: nat, w: Word)
    requires h.Valid() && k < |t.owner| && OwnerOk(h, t, k)
  {
    var first := h.words[t.owner[k]];
    || w == Original(h, t, k)
    || (!IsRaw(first) && w == Scav(t.fwd, Original(h, t, k)))
    || (IsWeak(first) && Index(h, t, k) == 3)
  }

  ghost predicate CopyAt(h: Heap, t: Trace, m: seq<Word>, k: nat)
    requires h.Valid() && k < |t.owner| && OwnerOk(h, t, k) && h.base + k < |m|
  {
    CopyOk(h, t, k, m[h.base + k])
  }

  /** The j-th weak pointer copy, whose link leads to the next. */
  ghost predicate WeakAt(h: Heap, t: Trace, m: seq<Word>, j: nat)
    requires j < |t.weaks| && h.Valid()
  {
    var p := t.weaks[j];
    && h.base <= p && p + WEAK_POINTER_WORDS <= h.base + |t.owner| && p + 3 < |m|
    && OwnerOk(h, t, p - h.base) && t.fwd[t.owner[p - h.base]] == p && IsWeak(h.words[t.owner[p - h.base]])
    && h.objects[t.owner[p - h.base]] == WEAK_POINTER_WORDS
    && m[p + 3] == Link(if j + 1 < |t.weaks| then t.weaks[j + 1] else 0)
  }

  ghost predicate WeakChainOk(h: Heap, t: Trace, m: seq<Word>)
    requires h.Valid() && TraceOk(h, t)
  {
    && (forall j :: 0 <= j < |t.weaks| ==> WeakAt(h, t, m, j))
    && (forall i, j :: 0 <= i < j < |t.weaks| ==> t.weaks[i] != t.weaks[j])
    && (forall a {:trigger a in t.fwd} :: a in t.fwd && IsWeak(h.words[a]) ==> t.fwd[a] in t.weaks)
  }

  /** From space is as it was, but for a forwarding pointer in the first word of each copied object. */
  ghost predicate FromSpaceOk(h: Heap, t: Trace, m: seq<Word>)
    requires h.Valid() && |m| == |h.words|
  {
    forall c {:trigger m[c]} :: h.lo <= c < h.hi ==>
      m[c] == if c in t.fwd then Pointer(TagOf(h.words[c]), t.fwd[c]) else h.words[c]
  }

  ghost predicate CopiesOk(h: Heap, t: Trace, m: seq<Word>)
    requires h.Valid() && TraceOk(h, t) && |m| == |h.words| && |t.owner| <= h.size
  {
    forall k :: 0 <= k < |t.owner| ==> CopyAt(h, t, m, k)
  }

  /** The memory m agrees with the account t of copying out of h. */
  ghost predicate Copying(h: Heap, t: Trace, m: seq<Word>) {
    && h.Valid()
    && TraceOk(h, t)
    && |m| == |h.words|
    && |t.owner| <= h.size
    && FromSpaceOk(h, t, m)
    && CopiesOk(h, t, m)
    && WeakChainOk(h, t, m)
  }

  lemma CopyingBounds(h: Heap, t: Trace, m: seq<Word>)
    requires Copying(h, t, m)
    ensures h.Valid() && h.SpacesOk() && TraceOk(h, t)
    ensures |m| == |h.words| && |t.owner| <= h.size && h.base + h.size <= |m|
  {
  }

  /** t2 continues t. */
  ghost predicate Extends(t: Trace, t2: Trace) {
    && |t.owner| <= |t2.owner|
    && (forall k {:trigger t2.owner[k]} :: 0 <= k < |t.owner| ==> t2.owner[k] == t.owner[k])
    && (forall a {:trigger a in t2.fwd} {:trigger a in t.fwd} :: a in t.fwd ==> a in t2.fwd && t2.fwd[a] == t.fwd[a])
  }

  lemma ExtendsSelf(t: Trace)
    ensures Extends(t, t)
  {
  }

  lemma NothingCopied(h: Heap)
    requires h.Valid()
    ensures Copying(h, EMPTY_TRACE, h.words) && h.SpacesOk()
  {
  }

  // ---------- Copying one object ----------

  ghost function Repeat(a: int, n: nat): (s: seq<int>)
    ensures |s| == n && forall i :: 0 <= i < n ==> s[i] == a
  {
    if n == 0 then [] else Repeat(a, n - 1) + [a]
  }

  ghost function Copy(h: Heap, t: Trace, a: int): Trace
    requires h.Valid() && a in h.objects
  {
    var to := h.base + |t.owner|;
    Trace(t.owner + Repeat(a, h.objects[a]), t.fwd[a := to], if IsWeak(h.words[a]) then [to] + t.weaks else t.weaks)
  }

  lemma CopyTrace(h: Heap, t: Trace, a: int)
    requires h.Valid() && TraceOk(h, t) && a in h.objects && a !in t.fwd
    ensures TraceOk(h, Copy(h, t, a)) && Extends(t, Copy(h, t, a))
  {
    var t2 := Copy(h, t, a);
    forall k | 0 <= k < |t2.owner| ensures OwnerOk(h, t2, k) {
      assert k < |t.owner| ==> OwnerOk(h, t, k);
    }
  }

  /** Distinct words below a bound are no more than the bound. */
  lemma {:induction false} DistinctBounded(s: seq<int>, lo: int, hi: int)
    requires lo <= hi
    requires forall k :: 0 <= k < |s| ==> lo <= s[k] < hi
    requires forall i, j :: 0 <= i < j < |s| ==> s[i] != s[j]
    ensures |s| <= hi - lo
    decreases hi - lo
  {
    if |s| > 0 {
      assert lo <= s[0];
      if k :| 0 <= k < |s| && s[k] == hi - 1 {
        DistinctBounded(s[..k] + s[k + 1..], lo, hi - 1);
      } else {
        DistinctBounded(s, lo, hi - 1);
      }
    }
  }

  /** New space holds no more than from space did. */
  lemma CopiesFit(h: Heap, t: Trace)
    requires h.Valid() && TraceOk(h, t)
    ensures |t.owner| <= h.hi - h.lo
  {
    var s := seq(|t.owner|, k requires 0 <= k < |t.owner| =>
      assert OwnerOk(h, t, k); t.owner[k] + Index(h, t, k));
    forall k | 0 <= k < |s| ensures h.lo <= s[k] < h.hi {
      assert OwnerOk(h, t, k);
    }
    forall i, j | 0 <= i < j < |s| ensures s[i] != s[j] {
      assert OwnerOk(h, t, i) && OwnerOk(h, t, j);
      var x, y := t.owner[i], t.owner[j];
      assert x in h.objects && y in h.objects;
    }
    DistinctBounded(s, h.lo, h.hi);
  }

  ghost function WeakHead(t: Trace): int {
    if t.weaks == [] then 0 else t.weaks[0]
  }

  /** The i-th word of the copy of a, before it is scavenged. */
  ghost function CopiedWord(h: Heap, t: Trace, a: int, i: nat): Word
    requires 0 <= a + i < |h.words| && 0 <= a < |h.words|
  {
    if IsWeak(h.words[a]) && i == 3 then Link(WeakHead(t)) else h.Slot(a, i)
  }

  /** m2 is m after copying object a to the end of new space and leaving a forwarding pointer; a weak
      pointer's copy is also pushed on the list of weak pointers. */
  ghost predicate CopiedInto(h: Heap, t: Trace, a: int, m: seq<Word>, m2: seq<Word>)
    requires h.Valid() && a in h.objects && |m| == |h.words|
  {
    var to, n := h.base + |t.owner|, h.objects[a];
    && |m2| == |m| && to + n <= |m2|
    && (forall i: nat :: i < n ==> m2[to + i] == CopiedWord(h, t, a, i))
    && m2[a] == Pointer(TagOf(h.words[a]), to)
    && (forall c {:trigger m2[c]} :: 0 <= c < |m| && c != a && !(to <= c < to + n) ==> m2[c] == m[c])
  }

  /** m2 is m after the copying, before the forwarding pointer. */
  ghost predicate TransportedInto(h: Heap, t: Trace, a: int, m: seq<Word>, m2: seq<Word>)
    requires h.Valid() && a in h.objects && |m| == |h.words|
  {
    var to, n := h.base + |t.owner|, h.objects[a];
    && |m2| == |m| && to + n <= |m2|
    && (forall i: nat :: i < n ==> m2[to + i] == CopiedWord(h, t, a, i))
    && (forall c {:trigger m2[c]} :: 0 <= c < |m| && !(to <= c < to + n) ==> m2[c] == m[c])
  }

  lemma CopyWeakAt(h: Heap, t: Trace, a: int, m: seq<Word>, m2: seq<Word>, j: nat)
    requires Copying(h, t, m) && a in h.objects && a !in t.fwd
    requires CopiedInto(h, t, a, m, m2) && (IsWeak(h.words[a]) ==> h.objects[a] == WEAK_POINTER_WORDS)
    requires TraceOk(h, Copy(h, t, a)) && j < |Copy(h, t, a).weaks|
    ensures WeakAt(h, Copy(h, t, a), m2, j)
  {
    var t2, to := Copy(h, t, a), h.base + |t.owner|;
    if IsWeak(h.words[a]) && j == 0 {
      assert t2.owner[|t.owner|] == a;
      assert m2[to + 3] == CopiedWord(h, t, a, 3);
    } else {
      var i := if IsWeak(h.words[a]) then j - 1 else j;
      var p := t.weaks[i];
      assert WeakAt(h, t, m, i) && t2.weaks[j] == p;
      assert a in h.objects && m2[p + 3] == m[p + 3];
      assert t2.owner[p - h.base] == t.owner[p - h.base];
    }
  }

  lemma CopyWeakChain(h: Heap, t: Trace, a: int, m: seq<Word>, m2: seq<Word>)
    requires Copying(h, t, m) && a in h.objects && a !in t.fwd
    requires CopiedInto(h, t, a, m, m2) && (IsWeak(h.words[a]) ==> h.objects[a] == WEAK_POINTER_WORDS)
    requires TraceOk(h, Copy(h, t, a))
    ensures WeakChainOk(h, Copy(h, t, a), m2)
  {
    var t2 := Copy(h, t, a);
    var shift := if IsWeak(h.words[a]) then 1 else 0;
    forall j | 0 <= j < |t2.weaks| ensures WeakAt(h, t2, m2, j) {
      CopyWeakAt(h, t, a, m, m2, j);
    }
    forall i, j | 0 <= i < j < |t2.weaks| ensures t2.weaks[i] != t2.weaks[j] {
      assert WeakAt(h, t, m, j - shift);
    }
    forall b | b in t2.fwd && IsWeak(h.words[b]) ensures t2.fwd[b] in t2.weaks {
      if b != a {
        assert t.fwd[b] in t.weaks;
        assert forall x :: x in t.weaks ==> x in t2.weaks;
      }
    }
  }

  lemma CopyCells(h: Heap, t: Trace, a: int, m: seq<Word>, m2: seq<Word>, k: nat)
    requires Copying(h, t, m) && a in h.objects && a !in t.fwd
    requires CopiedInto(h, t, a, m, m2)
    requires TraceOk(h, Copy(h, t, a)) && k < |t.owner| + h.objects[a] <= h.size
    ensures CopyAt(h, Copy(h, t, a), m2, k)
  {
    var t2, n := Copy(h, t, a), |t.owner|;
    assert OwnerOk(h, t2, k);
    if k < n {
      assert t2.owner[k] == t.owner[k] && CopyAt(h, t, m, k);
      assert m2[h.base + k] == m[h.base + k];
      assert Original(h, t2, k) == Original(h, t, k);
      var o := Original(h, t, k);
      assert Scav(t2.fwd, o) == Scav(t.fwd, o) || Scav(t.fwd, o) == o;
    } else {
      assert t2.owner[k] == a && Index(h, t2, k) == k - n;
      assert m2[h.base + n + (k - n)] == CopiedWord(h, t, a, k - n);
    }
  }

  /** Copying one object keeps the account. */
  lemma CopyStep(h: Heap, t: Trace, a: int, m: seq<Word>, m2: seq<Word>)
    requires Copying(h, t, m) && a in h.objects && a !in t.fwd
    requires CopiedInto(h, t, a, m, m2) && (IsWeak(h.words[a]) ==> h.objects[a] == WEAK_POINTER_WORDS)
    ensures Copying(h, Copy(h, t, a), m2) && Extends(t, Copy(h, t, a))
  {
    var t2 := Copy(h, t, a);
    CopyTrace(h, t, a);
    CopiesFit(h, t2);
    forall k | 0 <= k < |t2.owner| ensures CopyAt(h, t2, m2, k) {
      CopyCells(h, t, a, m, m2, k);
    }
    CopyWeakChain(h, t, a, m, m2);
    assert FromSpaceOk(h, t2, m2) by {
      forall c | h.lo <= c < h.hi
        ensures m2[c] == if c in t2.fwd then Pointer(TagOf(h.words[c]), t2.fwd[c]) else h.words[c]
      {
        assert c != a ==> m2[c] == m[c];
      }
    }
  }

  /** The same, for a copy that has yet to be forwarded. */
  lemma ForwardStep(h: Heap, t: Trace, a: int, m: seq<Word>, m2: seq<Word>)
    requires Copying(h, t, m) && h.SizesOk() && a in h.objects && a !in t.fwd
    requires TransportedInto(h, t, a, m, m2)
    ensures Copying(h, Copy(h, t, a), m2[a := Pointer(TagOf(h.words[a]), h.base + |t.owner|)])
    ensures Extends(t, Copy(h, t, a))
  {
    var to, n := h.base + |t.owner|, h.objects[a];
    var m3 := m2[a := Pointer(TagOf(h.words[a]), to)];
    CopyTrace(h, t, a);
    CopiesFit(h, Copy(h, t, a));
    assert n == Size(h.words[a], h.words[a + 1]);
    forall i: nat | i < n ensures m3[to + i] == CopiedWord(h, t, a, i) {
      assert m2[to + i] == CopiedWord(h, t, a, i);
    }
    CopyStep(h, t, a, m, m3);
  }

  // ---------- Scavenging one word ----------

  /** A word the scavenger may meet: if it points into the heap being collected, to an object, with
      that object's lowtag, and one that must survive. */
  ghost predicate Traceable(h: Heap, live: set<int>, w: Word)
    requires h.Valid()
  {
    w.Pointer? && h.lo <= w.addr < h.hi ==>
      w.addr in h.objects && w.addr in live && w.tag == TagOf(h.words[w.addr])
  }

  /** w is what scavenging made of o, and o's target has been copied. */
  ghost predicate Scavenged(h: Heap, t: Trace, o: Word, w: Word) {
    w == Scav(t.fwd, o) && h.TargetIn(o, t.fwd.Keys)
  }

  lemma ScavengedGrows(h: Heap, t: Trace, t2: Trace, o: Word, w: Word)
    requires Scavenged(h, t, o, w) && Extends(t, t2)
    requires h.Valid() && TraceOk(h, t2)
    ensures Scavenged(h, t2, o, w)
  {
    assert o.Pointer? && o.addr in t2.fwd ==> o.addr in h.objects;
  }

  ghost predicate AllScavenged(h: Heap, t: Trace, m0: seq<Word>, m: seq<Word>, stops: set<int>) {
    forall p {:trigger p in stops} {:trigger m[p]} :: p in stops ==>
      0 <= p < |m| && p < |m0| && Scavenged(h, t, m0[p], m[p])
  }

  lemma AllScavengedGrows(h: Heap, t: Trace, t2: Trace, m0: seq<Word>, m: seq<Word>, m2: seq<Word>, stops: set<int>)
    requires h.Valid() && TraceOk(h, t2) && Extends(t, t2) && AllScavenged(h, t, m0, m, stops)
    requires |m2| == |m| && forall p :: p in stops && 0 <= p < |m| ==> m2[p] == m[p]
    ensures AllScavenged(h, t2, m0, m2, stops)
  {
    forall p | p in stops ensures 0 <= p < |m2| && p < |m0| && Scavenged(h, t2, m0[p], m2[p]) {
      ScavengedGrows(h, t, t2, m0[p], m[p]);
    }
  }

  /** A forwarded pointer leads out of from space. */
  lemma ForwardsOut(h: Heap, t: Trace, o: Word)
    requires h.Valid() && TraceOk(h, t) && |t.owner| <= h.size
    ensures o.Pointer? && o.addr in t.fwd ==> h.lo <= o.addr < h.hi && !(h.lo <= t.fwd[o.addr] < h.hi)
    ensures o.Pointer? && o.addr in t.fwd ==> t.fwd[o.addr] !in t.fwd
  {
    assert o.Pointer? && o.addr in t.fwd ==> o.addr in h.objects;
    if o.Pointer? && o.addr in t.fwd {
      var b := t.fwd[o.addr];
      assert b in t.fwd ==> b in h.objects;
    }
  }

  /** Replacing a word by its scavenged form keeps the account. */
  lemma WriteStep(h: Heap, t: Trace, m: seq<Word>, p: nat, w: Word)
    requires Copying(h, t, m) && p < |m| && w == Scav(t.fwd, m[p]) && !(h.lo <= p < h.hi)
    requires h.base <= p < h.base + |t.owner| ==>
      w == m[p] || (OwnerOk(h, t, p - h.base) && !IsRaw(h.words[t.owner[p - h.base]]))
    ensures Copying(h, t, m[p := w])
  {
    var m2 := m[p := w];
    assert FromSpaceOk(h, t, m2) by {
      forall c {:trigger m2[c]} | h.lo <= c < h.hi ensures m2[c] == m[c] {
      }
    }
    forall k | 0 <= k < |t.owner| ensures CopyAt(h, t, m2, k) {
      assert OwnerOk(h, t, k) && CopyAt(h, t, m, k);
      if h.base + k == p {
        ForwardsOut(h, t, Original(h, t, k));
      }
    }
    forall j | 0 <= j < |t.weaks| ensures WeakAt(h, t, m2, j) {
      WeakNotWritten(h, t, m, p, w, j);
    }
  }

  lemma WeakNotWritten(h: Heap, t: Trace, m: seq<Word>, p: nat, w: Word, j: nat)
    requires h.Valid() && TraceOk(h, t) && p < |m| && j < |t.weaks| && WeakAt(h, t, m, j)
    requires h.base <= p < h.base + |t.owner| ==>
      w == m[p] || (OwnerOk(h, t, p - h.base) && !IsRaw(h.words[t.owner[p - h.base]]))
    ensures WeakAt(h, t, m[p := w], j)
  {
    var q := t.weaks[j] - h.base;
    assert t.owner[q] in t.fwd && t.owner[q + 3] == t.owner[q];
  }

  /** The word at p lies outside from space and outside the free part of new space; in a copied object
      it is not a raw word. */
  ghost predicate SlotAt(h: Heap, t: Trace, p: int) {
    && !(h.lo <= p < h.hi) && !(h.base + |t.owner| <= p < h.base + h.size)
    && (h.base <= p < h.base + |t.owner| ==>
          OwnerOk(h, t, p - h.base) && t.owner[p - h.base] < |h.words| && 0 <= t.owner[p - h.base]
          && !IsRaw(h.words[t.owner[p - h.base]]))
  }

  lemma SlotAtGrows(h: Heap, t: Trace, t2: Trace, p: int)
    requires h.Valid() && TraceOk(h, t2) && |t2.owner| <= h.size && Extends(t, t2) && SlotAt(h, t, p)
    ensures SlotAt(h, t2, p)
  {
    if h.base <= p < h.base + |t.owner| {
      assert t2.owner[p - h.base] == t.owner[p - h.base];
    }
  }

  /** The words from s to e can be scavenged: the walk meets e, and stops at nothing but block headers
      and slots with references in order. */
  ghost predicate AreaOk(h: Heap, t: Trace, live: set<int>, m: seq<Word>, s: nat, e: nat)
    requires h.Valid()
  {
    && s <= e <= |m| && Stream(m, s, e)
    && (e <= h.lo || h.hi <= s) && (e <= h.base + |t.owner| || h.base + h.size <= s)
    && (forall p {:trigger p in Visits(m, s, e)} :: p in Visits(m, s, e) ==>
          Traceable(h, live, m[p]) && (IsRaw(m[p]) || SlotAt(h, t, p)))
  }

  /** What the next stop of the scavenger needs to know: the area from `here` on is as it was. */
  lemma NextStop(h: Heap, t0: Trace, t: Trace, live: set<int>, m0: seq<Word>, m: seq<Word>, s: nat, here: nat, e: nat)
    requires Copying(h, t, m) && |m| == |m0| && Extends(t0, t) && AreaOk(h, t0, live, m0, s, e)
    requires s <= here < e && Stream(m0, here, e) && here in Visits(m0, s, e)
    requires forall c :: here <= c < e ==> m[c] == m0[c]
    ensures Traceable(h, live, m[here]) && (IsRaw(m[here]) || SlotAt(h, t, here))
    ensures Skip(m, here) == Skip(m0, here)
  {
    if !IsRaw(m0[here]) {
      SlotAtGrows(h, t0, t, here);
    } else if here + 1 < e {
      assert m[here + 1] == m0[here + 1];
    }
  }

  lemma AreaBounds(h: Heap, t: Trace, live: set<int>, m: seq<Word>, s: nat, e: nat)
    requires h.Valid() && AreaOk(h, t, live, m, s, e)
    ensures s <= e <= |m|
  {
  }

  // ---------- The stream of copied words ----------

  /** The k-th word of new space starts a copied object, or is the end. */
  ghost predicate Boundary(h: Heap, t: Trace, k: nat) {
    k == |t.owner| || (k < |t.owner| && OwnerOk(h, t, k) && Index(h, t, k) == 0)
  }

  /** The scavenger stops at the k-th word of new space. */
  ghost predicate ScanPos(h: Heap, t: Trace, k: nat)
    requires h.Valid() && k < |t.owner| && OwnerOk(h, t, k)
  {
    !IsRaw(h.words[t.owner[k]]) || Index(h, t, k) == 0
  }

  /** Past the last word of a copy there is a boundary; before it there is none. */
  lemma NextBoundary(h: Heap, t: Trace, k: nat, j: nat)
    requires h.Valid() && TraceOk(h, t) && k < |t.owner| && OwnerOk(h, t, k)
    requires Index(h, t, k) + j <= h.objects[t.owner[k]]
    ensures k + j <= |t.owner|
    ensures Index(h, t, k) + j == h.objects[t.owner[k]] ==> Boundary(h, t, k + j)
    ensures Index(h, t, k) + j < h.objects[t.owner[k]] ==>
              k + j < |t.owner| && t.owner[k + j] == t.owner[k] && OwnerOk(h, t, k + j) &&
                  Index(h, t, k + j) == Index(h, t, k) + j
  {
    var a := t.owner[k];
    assert a in t.fwd;
    if Index(h, t, k) + j < h.objects[a] {
      assert OwnerOk(h, t, k + j) && t.owner[k + j] == a;
    } else if k + j < |t.owner| {
      assert OwnerOk(h, t, k + j);
      var b := t.owner[k + j];
      assert b in t.fwd && a in h.objects && h.objects[a] >= 2;
      assert k + j > 0 && t.fwd[a] <= h.base + (k + j - 1) < t.fwd[a] + h.objects[a];
      assert t.owner[k + j - 1] == a;
    }
  }

  /** Where new space ended is a boundary from then on. */
  lemma EndBoundary(h: Heap, t0: Trace, t: Trace)
    requires h.Valid() && TraceOk(h, t0) && TraceOk(h, t) && Extends(t0, t)
    ensures Boundary(h, t, |t0.owner|)
  {
    var n := |t0.owner|;
    if n == 0 {
      if 0 < |t.owner| {
        assert OwnerOk(h, t, 0) && t.owner[0] in t.fwd;
      }
    } else {
      assert OwnerOk(h, t0, n - 1) && t0.owner[n - 1] in t0.fwd;
      assert t.owner[n - 1] == t0.owner[n - 1] && OwnerOk(h, t, n - 1);
      NextBoundary(h, t, n - 1, 1);
    }
  }

  /** How far the scavenger steps at the k-th word of new space. */
  lemma SkipCopy(h: Heap, t: Trace, m: seq<Word>, k: nat)
    requires Copying(h, t, m) && h.SizesOk() && k < |t.owner| && OwnerOk(h, t, k) && ScanPos(h, t, k)
    ensures Skip(m, h.base + k) == if IsRaw(h.words[t.owner[k]]) then h.objects[t.owner[k]] else 1
  {
    var a := t.owner[k];
    assert CopyAt(h, t, m, k) && a in t.fwd;
    assert h.SlotOk(a, Index(h, t, k));
    if IsRaw(h.words[a]) {
      NextBoundary(h, t, k, 1);
      assert CopyAt(h, t, m, k + 1);
    }
  }

  /** A step of the scavenger in new space ends at another of its stops, no later than the next boundary. */
  lemma CopyStride(h: Heap, t: Trace, m: seq<Word>, k: nat, n: nat)
    requires Copying(h, t, m) && h.SizesOk() && k < n <= |t.owner|
    requires OwnerOk(h, t, k) && ScanPos(h, t, k) && Boundary(h, t, n)
    ensures k + Skip(m, h.base + k) <= n
    ensures k + Skip(m, h.base + k) < |t.owner| ==>
              OwnerOk(h, t, k + Skip(m, h.base + k)) && ScanPos(h, t, k + Skip(m, h.base + k))
    ensures forall j :: k < j < k + Skip(m, h.base + k) && j < |t.owner| && OwnerOk(h, t, j) ==> !ScanPos(h, t, j)
  {
    var step, ahead: nat := Skip(m, h.base + k), n - k;
    SkipCopy(h, t, m, k);
    NextBoundary(h, t, k, step);
    if ahead < step {
      NextBoundary(h, t, k, ahead);
    }
    forall j | k < j < k + step && j < |t.owner| && OwnerOk(h, t, j) ensures !ScanPos(h, t, j) {
      NextBoundary(h, t, k, j - k);
    }
  }

  lemma {:induction false} CopyStream(h: Heap, t: Trace, m: seq<Word>, k: nat, n: nat)
    requires Copying(h, t, m) && h.SizesOk() && k <= n <= |t.owner|
    requires k < |t.owner| ==> OwnerOk(h, t, k) && ScanPos(h, t, k)
    requires Boundary(h, t, n)
    ensures Stream(m, h.base + k, h.base + n)
    decreases n - k
  {
    if k < n {
      CopyStride(h, t, m, k, n);
      CopyStream(h, t, m, k + Skip(m, h.base + k), n);
    }
  }

  lemma {:induction false} CopyVisited(h: Heap, t: Trace, m: seq<Word>, k: nat, n: nat, j: nat)
    requires Copying(h, t, m) && h.SizesOk() && k <= j < n <= |t.owner|
    requires OwnerOk(h, t, k) && ScanPos(h, t, k) && Boundary(h, t, n)
    requires OwnerOk(h, t, j) && ScanPos(h, t, j)
    ensures h.base + j in Visits(m, h.base + k, h.base + n)
    decreases n - k
  {
    if k < j {
      CopyStride(h, t, m, k, n);
      CopyVisited(h, t, m, k + Skip(m, h.base + k), n, j);
    }
  }

  /** The scavenger stops only at slots and block headers. */
  lemma {:induction false} CopyVisits(h: Heap, t: Trace, m: seq<Word>, k: nat, n: nat, p: int)
    requires Copying(h, t, m) && h.SizesOk() && k <= n <= |t.owner|
    requires k < |t.owner| ==> OwnerOk(h, t, k) && ScanPos(h, t, k)
    requires Boundary(h, t, n) && p in Visits(m, h.base + k, h.base + n)
    ensures h.base + k <= p < h.base + n && OwnerOk(h, t, p - h.base) && ScanPos(h, t, p - h.base)
    decreases n - k
  {
    if p != h.base + k {
      CopyStride(h, t, m, k, n);
      CopyVisits(h, t, m, k + Skip(m, h.base + k), n, p);
    }
  }

  ghost predicate LiveClosed(h: Heap, live: set<int>)
    requires h.Valid()
  {
    forall a {:trigger a in h.objects} :: a in live && a in h.objects ==> h.ClosedAt(a, live)
  }

  /** A word of new space where the scavenger stops can be scavenged. */
  lemma CopyTraceable(h: Heap, t: Trace, live: set<int>, m: seq<Word>, k: nat)
    requires Copying(h, t, m) && t.fwd.Keys <= live && LiveClosed(h, live)
    requires k < |t.owner| && OwnerOk(h, t, k) && ScanPos(h, t, k)
    ensures Traceable(h, live, m[h.base + k])
    ensures IsRaw(m[h.base + k]) || SlotAt(h, t, h.base + k)
  {
    var a, i := t.owner[k], Index(h, t, k);
    assert CopyAt(h, t, m, k) && a in t.fwd;
    assert h.SlotOk(a, i) && h.ClosedAt(a, live);
    if !IsRaw(h.words[a]) {
      assert h.TargetIn(h.Slot(a, i), live);
      ForwardsOut(h, t, h.Slot(a, i));
    }
  }

  /** New space from one boundary to another is an area that can be scavenged. */
  lemma CopyArea(h: Heap, t: Trace, live: set<int>, m: seq<Word>, k: nat, n: nat)
    requires Copying(h, t, m) && h.SizesOk() && t.fwd.Keys <= live && LiveClosed(h, live)
    requires k <= n <= |t.owner| && Boundary(h, t, k) && Boundary(h, t, n)
    ensures AreaOk(h, t, live, m, h.base + k, h.base + n)
  {
    hide Copying, TraceOk, Heap.Valid, LiveClosed, Traceable, SlotAt, Stream, Visits;
    CopyingBounds(h, t, m);
    var s, e := h.base + k, h.base + n;
    CopyStream(h, t, m, k, n);
    forall p {:trigger p in Visits(m, s, e)} | p in Visits(m, s, e)
      ensures Traceable(h, live, m[p]) && (IsRaw(m[p]) || SlotAt(h, t, p))
    {
      CopyVisits(h, t, m, k, n, p);
      CopyTraceable(h, t, live, m, p - h.base);
    }
  }

  /** Scavenging has dealt with the k-th word of new space. */
  ghost predicate DoneAt(h: Heap, t: Trace, m: seq<Word>, k: nat)
    requires h.Valid() && k < |t.owner| && OwnerOk(h, t, k) && h.base + k < |m|
  {
    !IsRaw(h.words[t.owner[k]]) ==> Scavenged(h, t, Original(h, t, k), m[h.base + k])
  }

  ghost predicate AllDone(h: Heap, t: Trace, m: seq<Word>, n: nat)
    requires h.Valid() && TraceOk(h, t) && n <= |t.owner| && h.base + |t.owner| <= |m|
  {
    forall k :: 0 <= k < n ==> DoneAt(h, t, m, k)
  }

  lemma DoneAtGrows(h: Heap, t0: Trace, t: Trace, m0: seq<Word>, m: seq<Word>, k: nat)
    requires Copying(h, t0, m0) && h.Valid() && TraceOk(h, t) && Extends(t0, t) && |t.owner| <= h.size && |m| == |m0|
    requires k < |t0.owner|
    requires DoneAt(h, t0, m0, k) && m[h.base + k] == m0[h.base + k]
    ensures OwnerOk(h, t, k) && DoneAt(h, t, m, k)
  {
    assert t.owner[k] == t0.owner[k] && OwnerOk(h, t, k) && OwnerOk(h, t0, k);
    assert t0.owner[k] in t0.fwd;
    assert Original(h, t, k) == Original(h, t0, k);
    if !IsRaw(h.words[t.owner[k]]) {
      ScavengedGrows(h, t0, t, Original(h, t0, k), m0[h.base + k]);
    }
  }

  lemma DoneAtStop(h: Heap, t0: Trace, t: Trace, m0: seq<Word>, m: seq<Word>, k: nat)
    requires Copying(h, t0, m0) && h.Valid() && TraceOk(h, t) && Extends(t0, t) && |t.owner| <= h.size && |m| == |m0|
    requires k < |t0.owner| && OwnerOk(h, t0, k)
    requires Scavenged(h, t, m0[h.base + k], m[h.base + k])
    ensures OwnerOk(h, t, k) && DoneAt(h, t, m, k)
  {
    assert t.owner[k] == t0.owner[k] && OwnerOk(h, t, k);
    assert t0.owner[k] in t0.fwd && CopyAt(h, t0, m0, k);
    var o := Original(h, t0, k);
    assert Original(h, t, k) == o;
    if m0[h.base + k] != o && !IsRaw(h.words[t.owner[k]]) {
      ForwardsOut(h, t0, o);
      if o.Pointer? {
        NotInFwd(h, t, t.fwd[o.addr]);
      }
    }
  }

  lemma NotInFwd(h: Heap, t: Trace, a: int)
    requires h.Valid() && TraceOk(h, t) && !(h.lo <= a < h.hi)
    ensures a !in t.fwd
  {
    assert a in t.fwd ==> a in h.objects;
  }

  /** What one pass over new space from a boundary to another has achieved. */
  lemma PassDone(h: Heap, t0: Trace, t: Trace, m0: seq<Word>, m: seq<Word>, k: nat, n: nat)
    requires Copying(h, t0, m0) && h.SizesOk() && Copying(h, t, m) && Extends(t0, t)
    requires k <= n <= |t0.owner| && Boundary(h, t0, k) && Boundary(h, t0, n) && AllDone(h, t0, m0, k)
    requires AllScavenged(h, t, m0, m, Visits(m0, h.base + k, h.base + n))
    requires forall c :: h.base <= c < h.base + k ==> m[c] == m0[c]
    ensures AllDone(h, t, m, n)
  {
    forall j | 0 <= j < n ensures DoneAt(h, t, m, j) {
      assert OwnerOk(h, t0, j) && t.owner[j] == t0.owner[j] && OwnerOk(h, t, j);
      if j < k {
        assert DoneAt(h, t0, m0, j);
        DoneAtGrows(h, t0, t, m0, m, j);
      } else if !IsRaw(h.words[t0.owner[j]]) {
        CopyVisited(h, t0, m0, k, n, j);
        DoneAtStop(h, t0, t, m0, m, j);
      }
    }
  }
}
