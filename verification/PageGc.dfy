/** What a collection of a generation does to whole pages, src/lisp/gencgc.c: pinning by conservative roots,
    promoting and cutting large objects, freeing the old space and lowering the new one. */
module PageGc {
  import opened PageTable
  import opened PageObjects
  import opened PageBlocks
  import opened PageHeap
  import NewAreas
  import opened PageGrowth

  /** The counters after lost words have been taken from generation from and gained words given to generation to. */
  ghost predicate BytesMoved(gens: seq<Generation>, gens2: seq<Generation>, from: nat, lost: int, to: nat,
        gained: int)
  {
    && |gens2| == |gens|
    && (forall g {:trigger gens2[g]} :: 0 <= g < |gens| ==>
          gens2[g].bytes == gens[g].bytes - (if g == from then lost else 0) + (if g == to then gained else 0))
  }

  /** Behind the end of a large object there are only zeros on its pages, even if the object has been made smaller. */
  ghost predicate TailZero(ps: seq<Page>, objs: map<int, int>, m: seq<int>) {
    forall x {:trigger m[x]} :: 0 <= x < |m| && x / PAGE < |ps| && InTail(ps, objs, x) ==> m[x] == 0
  }

  predicate InTail(ps: seq<Page>, objs: map<int, int>, x: int)
    requires 0 <= x / PAGE < |ps|
  {
    var i := x / PAGE;
    ps[i].alloc && ps[i].large && Head(ps, i) in objs && objs[Head(ps, i)] <= x
  }

  lemma PinHeapOk(t: Table, t2: Table, from: nat, first: int, last: int, objs: map<int, int>, gens: seq<Generation>,
        gens2: seq<Generation>,
                  total: int, m: seq<int>)
    requires HeapOk(t, objs, gens, total, m) && Flushed(t) && from != t.gen && Block(t.ps, from, first, last)
    requires Pins(t, t2, first, last)
    requires BytesMoved(gens, gens2, from, last * PAGE + t.ps[last].used - first * PAGE, t.gen,
        last * PAGE + t.ps[last].used - first * PAGE)
    ensures HeapOk(t2, objs, gens2, total, m)
  {
    var n := last * PAGE + t.ps[last].used - first * PAGE;
    hide ObjectsOk, PageOk, RegionOk, Block;
    PinOk(t, t2, from, first, last);
    PinObjects(t, t2, first, last, objs);
    PinZeroed(t, t2, first, last, m);
    forall g: int
      ensures Bytes(t2.ps, g) == Bytes(t.ps, g) - (if Counted(from, g) then n else 0) +
          (if Counted(t.gen, g) then n else 0)
    {
      PinSum(t, t2, from, first, last, g);
    }
  }

  lemma PinZeroed(t: Table, t2: Table, first: int, last: int, m: seq<int>)
    requires Pins(t, t2, first, last) && |m| == (|t.ps| - 1) * PAGE && Zeroed(t, m)
    ensures Zeroed(t2, m)
  {
    forall x {:trigger ZeroAt(t2, m, x)} {:trigger m[x]} | 0 <= x < |m| ensures ZeroAt(t2, m, x) {
      PinInUse(t, t2, first, last, x);
      assert ZeroAt(t, m, x);
      assert t2.ps[x / PAGE] == PinnedPage(t.ps[x / PAGE], x / PAGE, first, last, t.gen);
    }
  }

  lemma ResizeCounters(t: Table, t2: Table, from: nat, first: int, last: int, n: int, gen: nat, unboxed: bool,
                       gens: seq<Generation>, gens2: seq<Generation>, total: int)
    requires t.Valid() && LargeBlock(t, from, first, last) && Resizes(t, t2, first, last, n, gen, unboxed)
    requires CountersOk(t.ps, gens, total)
    requires BytesMoved(gens, gens2, from, (last - first) * PAGE + t.ps[last].used, gen, n)
    ensures CountersOk(t2.ps, gens2, total - (last - first) * PAGE - t.ps[last].used + n)
  {
    var lost := (last - first) * PAGE + t.ps[last].used;
    hide PageOk, RegionOk, LargeBlock, Resizes;
    forall g: int
      ensures Bytes(t2.ps, g) == Bytes(t.ps, g) - (if Counted(from, g) then lost else 0) +
          (if Counted(gen, g) then n else 0)
    {
      ResizeSum(t, t2, from, first, last, n, gen, unboxed, g);
    }
  }

  lemma ResizeHeapOk(t: Table, t2: Table, from: nat, first: int, last: int, n: int, gen: nat, unboxed: bool,
        objs: map<int, int>,
                     gens: seq<Generation>, gens2: seq<Generation>, total: int, m: seq<int>)
    requires HeapOk(t, objs, gens, total, m) && LargeBlock(t, from, first, last)
    requires Resizes(t, t2, first, last, n, gen, unboxed)
    requires first * PAGE in objs && objs[first * PAGE] == first * PAGE + n && TailZero(t.ps, objs, m)
    requires BytesMoved(gens, gens2, from, (last - first) * PAGE + t.ps[last].used, gen, n)
    ensures HeapOk(t2, objs, gens2, total - (last - first) * PAGE - t.ps[last].used + n, m)
  {
    hide ObjectsOk, PageOk, RegionOk, LargeBlock, TailZero, CountersOk, BytesMoved;
    ResizeOk(t, t2, from, first, last, n, gen, unboxed);
    ResizeObjects(t, t2, from, first, last, n, gen, unboxed, objs);
    ResizeZeroed(t, t2, from, first, last, n, gen, unboxed, objs, m);
    ResizeCounters(t, t2, from, first, last, n, gen, unboxed, gens, gens2, total);
  }

  lemma ResizeZeroed(t: Table, t2: Table, from: nat, first: int, last: int, n: int, gen: nat, unboxed: bool,
        objs: map<int, int>, m: seq<int>)
    requires t.Valid() && LargeBlock(t, from, first, last) && Resizes(t, t2, first, last, n, gen, unboxed)
    requires first * PAGE in objs && objs[first * PAGE] == first * PAGE + n && TailZero(t.ps, objs, m)
    requires |m| == (|t.ps| - 1) * PAGE && Zeroed(t, m)
    ensures Zeroed(t2, m)
  {
    hide PageOk, RegionOk;
    forall x {:trigger ZeroAt(t2, m, x)} {:trigger m[x]} | 0 <= x < |m| ensures ZeroAt(t2, m, x) {
      ResizeInUse(t, t2, from, first, last, n, gen, unboxed, x);
      assert ZeroAt(t, m, x);
      assert t2.ps[x / PAGE] == ResizedPage(t.ps[x / PAGE], x / PAGE, first, last, first * PAGE + n, gen, unboxed);
      if first <= x / PAGE <= last {
        assert LargePage(t.ps[x / PAGE], t.ps[first], from, first - x / PAGE);
      }
    }
  }

  /** Freed pages are marked in their first words. */
  ghost predicate Marks(t: Table, m: seq<int>, m2: seq<int>, from: nat) {
    && |m2| == |m| == (|t.ps| - 1) * PAGE
    && (forall x {:trigger m2[x]} :: 0 <= x < |m| ==>
          m2[x] == (if x == x / PAGE * PAGE && t.ps[x / PAGE].alloc &&
              t.ps[x / PAGE].gen == from then MARKER else m[x]))
  }

  lemma FreeZeroed(t: Table, t2: Table, from: nat, m: seq<int>, m2: seq<int>)
    requires t.Valid() && Flushed(t) && Frees(t, t2, from) && Marks(t, m, m2, from) && Zeroed(t, m)
    ensures Zeroed(t2, m2)
  {
    hide RegionOk;
    forall x {:trigger ZeroAt(t2, m2, x)} {:trigger m2[x]} | 0 <= x < |m| ensures ZeroAt(t2, m2, x) {
      FreeInUse(t, t2, from, x);
      assert ZeroAt(t, m, x);
      var i := x / PAGE;
      assert t2.ps[i] == FreedPage(t.ps[i], from) && PageOk(t.ps, i);
      var y := i * PAGE;
      assert y / PAGE == i;
      assert m2[y] == MARKER || m2[y] == m[y];
      assert t.ps[i].alloc ==> t.ps[i].used > 0;
    }
  }

  lemma FreeHeapOk(t: Table, t2: Table, from: nat, objs: map<int, int>, gens: seq<Generation>, gens2: seq<Generation>,
        total: int,
                   m: seq<int>, m2: seq<int>)
    requires HeapOk(t, objs, gens, total, m) && Flushed(t) && Frees(t, t2, from) && Marks(t, m, m2, from)
    requires from <= NUM_GENERATIONS
    requires BytesMoved(gens, gens2, from, gens[from].bytes, from, 0)
    ensures HeapOk(t2, Others(t, objs, from), gens2, total - gens[from].bytes, m2)
  {
    hide ObjectsOk, PageOk, RegionOk, FreedPage;
    FreeOk(t, t2, from);
    FreeObjects(t, t2, from, objs);
    FreeZeroed(t, t2, from, m, m2);
    forall g: int
      ensures Bytes(t2.ps, g) == (if g == from then 0 else Bytes(t.ps, g)) - (if g == ALL then Bytes(t.ps, from) else 0)
    {
      FreeSum(t, t2, from, g, |t.ps|);
    }
  }

  lemma LowerHeapOk(t: Table, t2: Table, gen: nat, objs: map<int, int>, gens: seq<Generation>, gens2: seq<Generation>,
        total: int, m: seq<int>)
    requires HeapOk(t, objs, gens, total, m) && Flushed(t) && Lowers(t, t2, gen) && gens[gen].bytes == 0
    requires BytesMoved(gens, gens2, NUM_GENERATIONS, gens[NUM_GENERATIONS].bytes, gen, gens[NUM_GENERATIONS].bytes)
    ensures HeapOk(t2, objs, gens2, total, m)
  {
    hide ObjectsOk, PageOk, RegionOk;
    LowerOk(t, t2, gen);
    LowerObjects(t, t2, gen, objs);
    forall x {:trigger ZeroAt(t2, m, x)} {:trigger m[x]} | 0 <= x < |m| ensures ZeroAt(t2, m, x) {
      assert ZeroAt(t, m, x);
      assert t2.ps[x / PAGE] == LoweredPage(t.ps[x / PAGE], gen);
    }
    forall g: int ensures Bytes(t2.ps, g) == (if g == NUM_GENERATIONS then 0 else Bytes(t.ps, g)) +
                                             (if g == gen then Bytes(t.ps, NUM_GENERATIONS) else 0) {
      LowerSum(t, t2, gen, g, |t.ps|);
    }
  }

  // ---------- Large objects ----------

  /** A page that passes the test for another page of the object is one. */
  lemma ContinuesLarge(t: Table, from: nat, first: int, i: int)
    requires t.Valid() && Unprotected(t.ps, from) && 0 <= first < i < |t.ps|
    requires LargePage(t.ps[i - 1], t.ps[first], from, first - (i - 1)) && Continues(t.ps, from, first, i)
    ensures LargePage(t.ps[i], t.ps[first], from, first - i) && i < |t.ps| - 1
  {
    assert PageOk(t.ps, i);
    if t.boxed.Covers(i) || t.unboxed.Covers(i) {
      assert RegionPage(t.ps[i], t.unboxed.Covers(i), t.gen);
    }
  }

  /** What the pages of a large object become, up to page next. */
  ghost predicate Resizing(ps: seq<Page>, ps2: seq<Page>, first: int, next: int, n: int, gen: nat, unboxed: bool) {
    && |ps2| == |ps|
    && (forall i {:trigger ps2[i]} :: 0 <= i < |ps| ==>
          ps2[i] == (if i < next then ResizedPage(ps[i], i, first, next - 1, first * PAGE + n, gen,
              unboxed) else ps[i]))
  }

  /** The first loop of copy_large_object and its like: gives the full pages of the object to generation gen. */
  method KeepLarge(h: Heap, from: nat, first: int, n: int, gen: nat, unboxed: bool) returns (next: int, remaining: int)
    requires h.pages.Length > 0 && h.T().Valid() && from != h.allocGen && Unprotected(h.pages[..], from)
    requires gen <= NUM_GENERATIONS
    requires 0 <= first < h.pages.Length && h.pages[first].large && h.pages[first].gen == from
    requires h.pages[first].offset == 0
    requires n > 0 && ObjectOk(h.T(), first * PAGE, first * PAGE + n)
    modifies h.pages
    ensures first <= next < h.pages.Length - 1 && remaining == first * PAGE + n - next * PAGE && 0 < remaining <= PAGE
    ensures LargePage(old(h.pages[next]), old(h.pages[first]), from, first - next)
    ensures forall i ::
      first <= i < next ==>
        LargePage(old(h.pages[i]), old(h.pages[first]), from, first - i) && old(h.pages[i]).used == PAGE
    ensures old(h.pages[next]).used >= remaining
    ensures Resizing(old(h.pages[..]), h.pages[..], first, next, n, gen, unboxed)
  {
    hide RegionOk, PageOk, ObjectOk;
    ghost var t, e := h.T(), first * PAGE + n;
    next, remaining := first, n;
    LargeExtent(t, from, first, e, first);
    while remaining > PAGE
      invariant first <= next < h.pages.Length && remaining == e - next * PAGE > 0
      invariant forall i {:trigger t.ps[i]} ::
        first <= i < next ==> LargePage(t.ps[i], t.ps[first], from, first - i) && t.ps[i].used == PAGE
      invariant forall i {:trigger h.pages[i]} :: 0 <= i < h.pages.Length ==>
                  h.pages[i] == (if first <= i < next then t.ps[i].(gen := gen, unboxed := unboxed) else t.ps[i])
    {
      LargeExtent(t, from, first, e, next);
      LargeExtent(t, from, first, e, next + 1);
      assert h.pages[next] == t.ps[next] && LargePage(h.pages[next], t.ps[first], from, first - next) &&
          h.pages[next].used == PAGE;
      h.pages[next] := h.pages[next].(gen := gen, unboxed := unboxed, wp := false);
      remaining := remaining - PAGE;
      next := next + 1;
    }
    LargeExtent(t, from, first, e, next);
    LargeEnd(t, from, first, e, next);
  }

  lemma UsedBound(t: Table, i: int)
    requires t.Valid() && 0 <= i < |t.ps|
    ensures 0 <= t.ps[i].used <= PAGE
  {
    assert PageOk(t.ps, i);
  }

  /** The last loop of copy_large_object and its like: frees the pages that the object does not need any more. */
  method FreeTail(h: Heap, from: nat, first: int, kept: int, n: int, gen: nat, unboxed: bool, boxed: bool, oldUsed: int,
        ghost t: Table)
      returns (freed: int, ghost last: int)
    requires t.Valid() && Unprotected(t.ps, from) && 0 <= first <= kept < |t.ps| - 1
    requires kept * PAGE < first * PAGE + n <= (kept + 1) * PAGE
    requires forall i {:trigger t.ps[i]} :: first <= i <= kept ==> LargePage(t.ps[i], t.ps[first], from, first - i)
    requires forall i {:trigger t.ps[i]} :: first <= i < kept ==> t.ps[i].used == PAGE
    requires Resizing(t.ps, h.pages[..], first, kept + 1, n, gen, unboxed)
    requires oldUsed == t.ps[kept].used && (boxed ==> !t.ps[first].unboxed)
    modifies h.pages
    ensures LargeBlock(t, from, first, last) && kept <= last
    ensures freed == (last - kept) * PAGE + t.ps[last].used - oldUsed
    ensures Resizing(t.ps, h.pages[..], first, last + 1, n, gen, unboxed)
  {
    hide RegionOk, PageOk;
    var used, next := oldUsed, kept + 1;
    freed := 0;
    while used == PAGE && Continues(h.pages[..], from, first, next) && (boxed ==> !h.pages[next].unboxed)
      invariant kept < next < h.pages.Length == |t.ps| && used == t.ps[next - 1].used
      invariant freed == (next - 1 - kept) * PAGE + used - oldUsed
      invariant forall i {:trigger t.ps[i]} :: first <= i < next ==> LargePage(t.ps[i], t.ps[first], from, first - i)
      invariant forall i {:trigger t.ps[i]} :: first <= i < next - 1 ==> t.ps[i].used == PAGE
      invariant Resizing(t.ps, h.pages[..], first, next, n, gen, unboxed)
      decreases h.pages.Length - next
    {
      assert h.pages[next] == t.ps[next];
      ContinuesLarge(t, from, first, next);
      assert !h.pages[next].wp;
      used := h.pages[next].used;
      h.pages[next] := h.pages[next].(alloc := false, used := 0);
      freed := freed + used;
      next := next + 1;
    }
    last := next - 1;
    UsedBound(t, last);
    assert h.pages[next] == t.ps[next];
    if used == PAGE && Continues(t.ps, from, first, next) {
      ContinuesLarge(t, from, first, next);
    }
  }

  /** What copy_large_object, copy_large_unboxed_object and maybe_adjust_large_object do to the pages of a large
      object. */
  method ResizeLarge(h: Heap, from: nat, first: int, n: int, gen: nat, unboxed: bool, boxed: bool)
        returns (freed: int, ghost last: int)
    requires h.pages.Length > 0 && h.T().Valid() && from != h.allocGen && Unprotected(h.pages[..], from)
    requires gen <= NUM_GENERATIONS
    requires 0 <= first < h.pages.Length && h.pages[first].large && h.pages[first].gen == from
    requires h.pages[first].offset == 0
    requires n > 0 && ObjectOk(h.T(), first * PAGE, first * PAGE + n) && (boxed ==> !h.pages[first].unboxed)
    modifies h.pages
    ensures LargeBlock(old(h.T()), from, first, last) && Resizes(old(h.T()), h.T(), first, last, n, gen, unboxed)
    ensures freed == (last - first) * PAGE + old(h.T()).ps[last].used - n
  {
    hide RegionOk, PageOk, ObjectOk;
    ghost var t := h.T();
    var next, remaining := KeepLarge(h, from, first, n, gen, unboxed);
    ghost var kept := next;
    assert h.pages[next] == t.ps[next];
    assert h.pages[next].used >= remaining;
    var oldUsed := h.pages[next].used;
    h.pages[next] := h.pages[next].(gen := gen, unboxed := unboxed);
    h.pages[next] := h.pages[next].(used := remaining);
    assert Resizing(t.ps, h.pages[..], first, kept + 1, n, gen, unboxed);
    var more;
    more, last := FreeTail(h, from, first, next, n, gen, unboxed, boxed, oldUsed, t);
    freed := oldUsed - remaining + more;
  }

  method MoveBytes(h: Heap, from: nat, lost: int, to: nat, gained: int)
    requires h.Shaped() && from < h.gens.Length && to < h.gens.Length
    modifies h`bytesAllocated, h.gens
    ensures h.Shaped() && BytesMoved(old(h.gens[..]), h.gens[..], from, lost, to, gained)
    ensures h.bytesAllocated == old(h.bytesAllocated) - lost + gained
  {
    h.gens[from] := h.gens[from].(bytes := h.gens[from].bytes - lost);
    h.gens[to] := h.gens[to].(bytes := h.gens[to].bytes + gained);
    h.bytesAllocated := h.bytesAllocated - lost + gained;
  }

  /** What all operations on an object of the old space demand: it is there, and large only if it is the only one on its
      pages. */
  ghost predicate Movable(h: Heap, from: nat, a: int, n: int)
    reads h, h.pages, h.mem, h.gens
  {
    && h.Valid() && from < NUM_GENERATIONS && from != h.allocGen && Unprotected(h.pages[..], from)
    && a in h.objs && h.objs[a] == a + n && n > 0
    && 0 <= a / PAGE < h.pages.Length && h.pages[a / PAGE].alloc && h.pages[a / PAGE].gen == from
    && TailZero(h.pages[..], h.objs, h.mem[..])
  }

  lemma LargeObjectPage(t: Table, objs: map<int, int>, gens: seq<Generation>, total: int, m: seq<int>, a: int)
    requires HeapOk(t, objs, gens, total, m) && a in objs && 0 <= a / PAGE < |t.ps|
    ensures ObjectOk(t, a, objs[a]) && t.Valid()
    ensures t.ps[a / PAGE].large ==> a == a / PAGE * PAGE && t.ps[a / PAGE].offset == 0
  {
    hide PageOk, RegionOk;
    assert AloneOk(t, a);
  }

  /** copy_large_object and copy_large_unboxed_object for an object on pages of its own: it changes generation where it
      is. */
  method PromoteLarge(h: Heap, from: nat, a: int, n: int, kind: bool) returns (ghost last: int)
    requires Movable(h, from, a, n) && h.pages[a / PAGE].large && (kind || !h.pages[a / PAGE].unboxed)
    modifies h`bytesAllocated, h`areas, h.pages, h.gens
    ensures h.Valid() && a == a / PAGE * PAGE
    ensures LargeBlock(old(h.T()), from, a / PAGE, last)
    ensures Resizes(old(h.T()), h.T(), a / PAGE, last, n, h.allocGen, kind)
    ensures h.bytesAllocated == old(h.bytesAllocated) - ((last - a / PAGE) * PAGE + old(h.T()).ps[last].used - n)
    ensures if kind then h.areas == old(h.areas) else NewAreas.Records(old(h.areas), h.areas, h.recording,
        NewAreas.Area(a / PAGE, 0, n))
  {
    hide RegionOk, PageOk, ObjectOk, TailZero, HeapOk, Unprotected;
    ghost var t, gs, total, m := h.T(), h.gens[..], h.bytesAllocated, h.mem[..];
    var first := a / PAGE;
    LargeObjectPage(t, h.objs, gs, total, m, a);
    assert t.gen <= NUM_GENERATIONS && a == first * PAGE;
    var freed;
    freed, last := ResizeLarge(h, from, first, n, h.allocGen, kind, !kind);
    MoveBytes(h, from, n + freed, h.allocGen, n);
    if !kind {
      h.AddNewArea(first, 0, n);
    }
    hide LargeBlock, Resizes;
    ResizeHeapOk(t, h.T(), from, first, last, n, h.allocGen, kind, h.objs, gs, h.gens[..], total, m);
  }

  lemma WrittenZeroed(t: Table, m: seq<int>, m2: seq<int>)
    requires t.Valid() && |m2| == |m| == (|t.ps| - 1) * PAGE && Zeroed(t, m)
    requires forall x {:trigger m2[x]} :: 0 <= x < |m| && !t.InUse(x) ==> m2[x] == m[x]
    ensures Zeroed(t, m2)
  {
    forall x {:trigger ZeroAt(t, m2, x)} {:trigger m2[x]} | 0 <= x < |m| ensures ZeroAt(t, m2, x) {
      assert ZeroAt(t, m, x);
      var y := x / PAGE * PAGE;
      assert y / PAGE == x / PAGE;
      assert t.InUse(y) || m2[y] == m[y];
    }
  }

  /** Copies the words of an object to new words, two at a time. */
  method CopyWords(h: Heap, a: int, b: int, n: int)
    requires h.Valid() && 0 <= n && n % 2 == 0 && 0 <= a && a + n <= h.mem.Length && 0 <= b && b + n <= h.mem.Length
    requires a + n <= b || b + n <= a
    requires forall x {:trigger h.T().InUse(x)} :: b <= x < b + n ==> h.T().InUse(x)
    modifies h.mem
    ensures h.Valid() && forall x {:trigger h.mem[x]} :: b <= x < b + n ==> h.mem[x] == old(h.mem[a + x - b])
    ensures forall x {:trigger h.mem[x]} :: 0 <= x < h.mem.Length && !(b <= x < b + n) ==> h.mem[x] == old(h.mem[x])
  {
    hide RegionOk, PageOk, ObjectsOk, CountersOk, Zeroed;
    ghost var m := h.mem[..];
    var i := 0;
    while i < n
      invariant 0 <= i <= n && i % 2 == 0
      invariant forall x {:trigger h.mem[x]} ::
        0 <= x < h.mem.Length ==> h.mem[x] == (if b <= x < b + i then m[a + x - b] else m[x])
    {
      h.mem[b + i] := h.mem[a + i];
      h.mem[b + i + 1] := h.mem[a + i + 1];
      i := i + 2;
    }
    WrittenZeroed(h.T(), m, h.mem[..]);
  }

  /** The n words at a are also at b now, where there was nothing; nothing else in use has changed. */
  twostate predicate Copies(h: Heap, a: int, b: int, n: int, kind: bool)
    reads h, h.pages, h.mem
  {
    && h.Grows(b, b + n, kind)
    && 0 <= a && a + n <= h.mem.Length && 0 <= b && b + n <= h.mem.Length
    && b !in old(h.objs) && h.objs == old(h.objs)[b := b + n] && Gains(old(h.T()), h.T(), b, b + n)
    && (forall x {:trigger h.mem[x]} :: b <= x < b + n ==> h.mem[x] == old(h.mem[a + x - b]))
    && (forall x {:trigger h.mem[x]} :: 0 <= x < h.mem.Length && old(h.T()).InUse(x) ==> h.mem[x] == old(h.mem[x]))
  }

  /** The large object at a has become part of the generation allocated to, and has given back the pages it does not
      need. */
  twostate predicate Promotes(h: Heap, from: nat, a: int, n: int, kind: bool)
    reads h, h.pages, h.mem
  {
    && a == a / PAGE * PAGE && h.objs == old(h.objs) && h.mem[..] == old(h.mem[..]) && h.recording == old(h.recording)
    && (if kind then h.areas == old(h.areas)
        else NewAreas.Records(old(h.areas), h.areas, h.recording, NewAreas.Area(a / PAGE, 0, n)))
    && exists last ::
         LargeBlock(old(h.T()), from, a / PAGE, last) && Resizes(old(h.T()), h.T(), a / PAGE, last, n, h.allocGen, kind)
  }

  predicate OnLargePage(h: Heap, a: int)
    reads h, h.pages
  {
    0 <= a / PAGE < h.pages.Length && h.pages[a / PAGE].large
  }

  /** copy_large_object and copy_large_unboxed_object: an object on pages of its own stays where it is and changes
      generation, and other objects are copied. */
  method CopyLargeObject(h: Heap, from: nat, a: int, n: int, kind: bool) returns (r: Allocation)
    requires Movable(h, from, a, n) && n % 2 == 0 && (kind || !h.pages[a / PAGE].unboxed)
    modifies h, h.pages, h.mem, h.gens
    ensures h.Valid() && !r.NoRoom?
    ensures if old(OnLargePage(h, a)) then r == At(a) && Promotes(h, from, a, n, kind) else r.At? ==>
      Copies(h, a, r.addr, n, kind)
  {
    hide RegionOk, PageOk, HeapOk, TailZero, Unprotected;
    ghost var t, m := h.T(), h.mem[..];
    LargeObjectPage(t, h.objs, h.gens[..], h.bytesAllocated, m, a);
    if h.pages[a / PAGE].large {
      ghost var last := PromoteLarge(h, from, a, n, kind);
      return At(a);
    }
    ObjectBounds(t, h.objs, h.gens[..], h.bytesAllocated, m, a);
    r := CopySmall(h, a, n, kind, true);
  }

  method CopySmall(h: Heap, a: int, n: int, kind: bool, large: bool) returns (r: Allocation)
    requires h.Valid() && n > 0 && n % 2 == 0 && 0 <= a && a + n <= h.mem.Length && ObjectOk(h.T(), a, a + n)
    modifies h, h.pages, h.mem, h.gens
    ensures h.Valid() && !r.NoRoom? && (r.At? ==> Copies(h, a, r.addr, n, kind))
    ensures r.Overflow? ==> h.Exhausted(n, kind) && Grew(old(h.objs), h.objs)
  {
    hide RegionOk, PageOk, HeapOk, ObjectOk, Evolves, Fresh, Recorded;
    ghost var t, m := h.T(), h.mem[..];
    r := h.QuickAlloc(n, kind, large);
    if !r.At? {
      return;
    }
    var b := r.addr;
    ghost var t1, m1 := h.T(), h.mem[..];
    GainedInUse(t, t1, b, b + n);
    Disjoint(t, a, a + n, t1, b, b + n);
    CopyWords(h, a, b, n);
    assert h.T() == t1;
    forall x {:trigger h.mem[x]} | b <= x < b + n ensures h.mem[x] == m[a + x - b] {
      ObjectWord(t, a, a + n, a + x - b);
      assert m1[a + x - b] == m[a + x - b];
    }
    forall x {:trigger h.mem[x]} | 0 <= x < h.mem.Length && t.InUse(x) ensures h.mem[x] == m[x] {
      assert m1[x] == m[x] && !(b <= x < b + n);
    }
  }

  lemma ObjectWord(t: Table, a: int, e: int, x: int)
    requires ObjectOk(t, a, e) && a <= x < e
    ensures t.InUse(x)
  {
  }

  lemma ObjectBounds(t: Table, objs: map<int, int>, gens: seq<Generation>, total: int, m: seq<int>, a: int)
    requires HeapOk(t, objs, gens, total, m) && a in objs
    ensures 0 <= a < objs[a] <= |m| && ObjectOk(t, a, objs[a])
  {
    hide PageOk, RegionOk;
    assert ObjectOk(t, a, objs[a]);
    assert t.InUse(objs[a] - 1);
  }

  lemma Disjoint(t: Table, a: int, e: int, t2: Table, b: int, f: int)
    requires ObjectOk(t, a, e) && Gains(t, t2, b, f) && b < f
    ensures e <= b || f <= a
  {
    assert t.InUse(a) && (a <= b < e ==> t.InUse(b));
    assert b <= a < f ==> !t.InUse(a);
  }

  // ---------- Conservative roots ----------

  /** What the first words of an object say: its kind, as far as maybe_adjust_large_object looks at it, and its size. */
  datatype Sort = Vector | UnboxedArray | Other

  datatype Header = Header(sort: Sort, words: int)

  predicate SortOk(sort: Sort, unboxed: bool) {
    (sort == Vector ==> !unboxed) && (sort == UnboxedArray ==> unboxed)
  }

  /** The sizes and kinds in the headers of large objects are right. */
  ghost predicate Sized(ps: seq<Page>, objs: map<int, int>, raw: set<int>, header: int -> Header) {
    forall a {:trigger a in objs} :: a in objs && 0 <= a / PAGE < |ps| && ps[a / PAGE].large ==>
        header(a).words == objs[a] - a && SortOk(header(a).sort, IsUnboxed(ps, raw, a))
  }

  /** What has been pinned is in the new space. */
  ghost predicate PinnedIn(ps: seq<Page>, gen: nat) {
    forall i {:trigger ps[i]} :: 0 <= i < |ps| && ps[i].alloc && ps[i].dontMove ==> ps[i].gen == gen
  }

  /** A collection of generation from is under way, and the regions are flushed. */
  ghost predicate Pinnable(h: Heap, from: nat, header: int -> Header)
    reads h, h.pages, h.mem, h.gens
  {
    && h.Valid() && Flushed(h.T()) && from < NUM_GENERATIONS && from != h.allocGen && Unprotected(h.pages[..], from)
    && TailZero(h.pages[..], h.objs, h.mem[..]) && Sized(h.pages[..], h.objs, h.raw, header)
    && PinnedIn(h.pages[..], h.allocGen)
  }

  /** A page when the collection of generation from into generation to begins: its flags may have been cleared, and if
      it is a page of the old space it may have been pinned, cut or made an unboxed one. */
  predicate BegunPage(p: Page, p2: Page, from: nat, to: nat) {
    && p2.offset == p.offset && p2.large == p.large && (p2.wp ==> p.wp) && (p2.alloc ==> p.alloc) && p2.used <= p.used
    && (p.unboxed ==> p2.unboxed) && (p2.gen == p.gen || (p.gen == from && p2.gen == to))
    && (p.gen != from ==> p2 == p.(wp := p2.wp, dontMove := p2.dontMove))
  }

  ghost predicate Begun(ps: seq<Page>, ps2: seq<Page>, from: nat, to: nat) {
    |ps2| == |ps| && forall i {:trigger ps2[i]} :: 0 <= i < |ps| ==> BegunPage(ps[i], ps2[i], from, to)
  }

  lemma BegunThen(ps: seq<Page>, ps1: seq<Page>, ps2: seq<Page>, from: nat, to: nat)
    requires Begun(ps, ps1, from, to) && Begun(ps1, ps2, from, to)
    ensures Begun(ps, ps2, from, to)
  {
    forall i {:trigger ps2[i]} | 0 <= i < |ps| ensures BegunPage(ps[i], ps2[i], from, to) {
      assert BegunPage(ps[i], ps1[i], from, to);
    }
  }

  lemma BegunSame(ps: seq<Page>, objs: map<int, int>, raw: set<int>, from: nat, to: nat)
    ensures Begun(ps, ps, from, to) && SameKinds(ps, ps, objs, raw)
  {
  }

  lemma KindsThen(ps: seq<Page>, ps1: seq<Page>, ps2: seq<Page>, objs: map<int, int>, raw: set<int>)
    requires SameKinds(ps, ps1, objs, raw) && SameKinds(ps1, ps2, objs, raw)
    ensures SameKinds(ps, ps2, objs, raw)
  {
  }

  /** No object has become unboxed or boxed. */
  ghost predicate SameKinds(ps: seq<Page>, ps2: seq<Page>, objs: map<int, int>, raw: set<int>) {
    forall a {:trigger a in objs} :: a in objs ==> (IsUnboxed(ps2, raw, a) <==> IsUnboxed(ps, raw, a))
  }

  /** Up to page i, from the page where its first object begins, all pages are like it. */
  lemma {:induction false} ChainBack(t: Table, first: int, i: int, j: int)
    requires t.Valid() && 0 <= first <= j <= i < |t.ps| && t.ps[i].used > 0
    requires forall k {:trigger t.ps[k]} :: first < k <= i ==> t.ps[k].offset != 0
    ensures t.ps[j].alloc && t.ps[j].gen == t.ps[i].gen && t.ps[j].unboxed == t.ps[i].unboxed
    ensures t.ps[j].large == t.ps[i].large
    ensures t.ps[j].used > 0 && (j < i ==> t.ps[j].used == PAGE)
    decreases i - j
  {
    if j < i {
      ChainBack(t, first, i, j + 1);
      assert PageOk(t.ps, j + 1);
    } else {
      assert PageOk(t.ps, i);
    }
  }

  /** Works backwards to a page with offset zero. */
  method FindFirst(h: Heap, from: nat, i: int) returns (first: int)
    requires h.pages.Length > 0 && h.T().Valid() && 0 <= i < h.pages.Length && h.pages[i].used > 0
    requires h.pages[i].gen == from
    ensures 0 <= first <= i && h.pages[first].offset == 0
    ensures forall j :: first < j <= i ==> h.pages[j].offset != 0
  {
    hide RegionOk, PageOk;
    ghost var t := h.T();
    var unboxed := h.pages[i].unboxed;
    first := i;
    while h.pages[first].offset != 0
      invariant 0 <= first <= i && t.ps[first].used > 0
      invariant forall j {:trigger t.ps[j]} :: first < j <= i ==> t.ps[j].offset != 0
      decreases first
    {
      NotFirst(t, first);
      ChainBack(t, first - 1, i, first - 1);
      first := first - 1;
      assert h.pages[first].used == PAGE && h.pages[first].gen == from && h.pages[first].alloc &&
          h.pages[first].unboxed == unboxed;
    }
  }

  lemma NotFirst(t: Table, i: int)
    requires t.Valid() && 0 <= i < |t.ps| && t.ps[i].used > 0 && t.ps[i].offset != 0
    ensures i > 0
  {
    assert PageOk(t.ps, i);
  }

  /** maybe_adjust_large_object: cuts a large vector or bignum to its size and notes whether it is boxed. */
  method MaybeAdjustLargeObject(h: Heap, from: nat, first: int, header: int -> Header) returns (ghost last: int)
    requires Pinnable(h, from, header) && 0 <= first < h.pages.Length && h.pages[first].alloc && h.pages[first].used > 0
    requires h.pages[first].large && h.pages[first].gen == from && h.pages[first].offset == 0
    modifies h`bytesAllocated, h.pages, h.gens
    ensures Pinnable(h, from, header)
    ensures var sort, n := header(first * PAGE).sort, header(first * PAGE).words;
            if sort == Other then h.T() == old(h.T())
            else (LargeBlock(old(h.T()), from, first, last)
                  && Resizes(old(h.T()), h.T(), first, last, n, from, sort == UnboxedArray))
    ensures Begun(old(h.pages[..]), h.pages[..], from, h.allocGen)
    ensures SameKinds(old(h.pages[..]), h.pages[..], h.objs, h.raw)
    ensures forall i {:trigger h.pages[i]} :: 0 <= i < h.pages.Length ==>
              h.pages[i].offset == old(h.pages[i].offset) && (h.pages[i].used > 0 ==>
                  h.pages[i].gen == old(h.pages[i].gen))
              && h.pages[i].dontMove == old(h.pages[i].dontMove)
  {
    hide RegionOk, PageOk, ObjectOk, HeapOk, AloneOk;
    ghost var t, gs, total, m := h.T(), h.gens[..], h.bytesAllocated, h.mem[..];
    var a := first * PAGE;
    HeadObject(t, h.objs, gs, total, m, first);
    var sort, n := header(a).sort, header(a).words;
    assert a / PAGE == first;
    last := first;
    if sort == Other {
      return;
    }
    var freed;
    freed, last := ResizeLarge(h, from, first, n, from, sort == UnboxedArray, false);
    MoveBytes(h, from, n + freed, from, n);
    ResizeHeapOk(t, h.T(), from, first, last, n, from, sort == UnboxedArray, h.objs, gs, h.gens[..], total, m);
    assert forall i {:trigger h.pages[i]} :: 0 <= i < h.pages.Length ==>
             h.pages[i] == ResizedPage(t.ps[i], i, first, last, a + n, from, sort == UnboxedArray);
    ResizedBegun(t, h.T(), h.objs, h.raw, gs, total, m, from, h.allocGen, first, last, n, sort);
    hide LargeBlock, Resizes;
    KeptTails(t.ps, h.pages[..], h.objs, h.raw, m, from, h.allocGen, header);
  }

  /** Resizing a large object of the kind is one of the things that may happen at the beginning. */
  lemma ResizedBegun(t: Table, t2: Table, objs: map<int, int>, raw: set<int>, gens: seq<Generation>, total: int,
        m: seq<int>, from: nat, to: nat, first: int, last: int, n: int, sort: Sort)
    requires HeapOk(t, objs, gens, total, m) && LargeBlock(t, from, first, last) && first * PAGE in objs
    requires sort != Other
    requires Resizes(t, t2, first, last, n, from, sort == UnboxedArray)
    requires SortOk(sort, IsUnboxed(t.ps, raw, first * PAGE))
    ensures Begun(t.ps, t2.ps, from, to) && SameKinds(t.ps, t2.ps, objs, raw)
  {
    hide RegionOk, PageOk, Headed, AloneOk;
    var unboxed, end := sort == UnboxedArray, first * PAGE + n;
    assert LargePage(t.ps[first], t.ps[first], from, 0);
    forall i {:trigger t2.ps[i]} | 0 <= i < |t.ps| ensures BegunPage(t.ps[i], t2.ps[i], from, to) {
      assert t2.ps[i] == ResizedPage(t.ps[i], i, first, last, end, from, unboxed);
      assert first <= i <= last ==> LargePage(t.ps[i], t.ps[first], from, first - i);
    }
    forall a {:trigger a in objs} | a in objs ensures IsUnboxed(t2.ps, raw, a) <==> IsUnboxed(t.ps, raw, a) {
      if a != first * PAGE {
        LargeAlone(t, from, first, last, objs, a);
        assert ObjectOk(t, a, objs[a]);
      }
      if 0 <= a / PAGE < |t.ps| {
        assert t2.ps[a / PAGE] == ResizedPage(t.ps[a / PAGE], a / PAGE, first, last, end, from, unboxed);
      }
    }
  }

  /** What may happen to pages at the beginning keeps what is known of the ends, sizes and kinds of large objects. */
  lemma KeptTails(ps: seq<Page>, ps2: seq<Page>, objs: map<int, int>, raw: set<int>, m: seq<int>, from: nat, to: nat,
        header: int -> Header)
    requires TailZero(ps, objs, m) && Sized(ps, objs, raw, header) && Unprotected(ps, from) && from != to
    requires Begun(ps, ps2, from, to) && SameKinds(ps, ps2, objs, raw)
    ensures TailZero(ps2, objs, m) && Sized(ps2, objs, raw, header) && Unprotected(ps2, from)
  {
    forall x {:trigger m[x]} | 0 <= x < |m| && x / PAGE < |ps2| && InTail(ps2, objs, x) ensures m[x] == 0 {
      assert InTail(ps, objs, x);
    }
  }

  lemma HeadObject(t: Table, objs: map<int, int>, gens: seq<Generation>, total: int, m: seq<int>, first: int)
    requires HeapOk(t, objs, gens, total, m) && 0 <= first < |t.ps| && t.ps[first].used > 0 && t.ps[first].offset == 0
    ensures t.Valid() && first * PAGE in objs && ObjectOk(t, first * PAGE, objs[first * PAGE])
  {
    assert Head(t.ps, first) == first * PAGE;
  }

  /** Moves one page to the generation allocated to, where it is. */
  method PinOne(h: Heap, from: nat, i: int)
    requires h.Shaped() && 0 <= i < h.pages.Length && from <= NUM_GENERATIONS && h.allocGen <= NUM_GENERATIONS
    modifies h.pages, h.gens
    ensures h.Shaped()
    ensures BytesMoved(old(h.gens[..]), h.gens[..], from, old(h.pages[i].used), h.allocGen, old(h.pages[i].used))
    ensures forall j {:trigger h.pages[j]} :: 0 <= j < h.pages.Length ==>
              h.pages[j] == (if j == i then old(h.pages[i]).(gen := h.allocGen, dontMove := true) else old(h.pages[j]))
  {
    h.pages[i] := h.pages[i].(dontMove := true);
    h.pages[i] := h.pages[i].(gen := h.allocGen);
    var used := h.pages[i].used;
    h.gens[h.allocGen] := h.gens[h.allocGen].(bytes := h.gens[h.allocGen].bytes + used);
    h.gens[from] := h.gens[from].(bytes := h.gens[from].bytes - used);
  }

  lemma LastIsFree(t: Table, i: int)
    requires t.Valid() && 0 <= i < |t.ps| && t.ps[i].alloc
    ensures i < |t.ps| - 1
  {
  }

  /** Pages first to i belong together. */
  ghost predicate PartBlock(ps: seq<Page>, gen: nat, first: int, i: int) {
    && 0 <= first <= i < |ps| - 1 && ps[first].offset == 0
    && (forall j {:trigger ps[j]} :: first <= j <= i ==> ps[j].alloc && ps[j].used > 0 && ps[j].gen == gen)
    && (forall j {:trigger ps[j]} :: first < j <= i ==> ps[j].offset != 0 && ps[j].unboxed == ps[first].unboxed)
    && (forall j {:trigger ps[j]} :: first <= j < i ==> ps[j].used == PAGE)
  }

  lemma PartBlockNext(t: Table, gen: nat, first: int, i: int)
    requires t.Valid() && PartBlock(t.ps, gen, first, i) && !BlockEnds(t.ps, gen, i)
    ensures PartBlock(t.ps, gen, first, i + 1)
    ensures t.ps[i].used == PAGE && t.ps[i + 1].alloc && t.ps[i + 1].unboxed == t.ps[first].unboxed
  {
    assert PageOk(t.ps, i) && PageOk(t.ps, i + 1);
  }

  lemma PinsFrom(t: Table, t2: Table, first: int, last: int)
    requires |t2.ps| == |t.ps| && t2 == t.(ps := t2.ps)
    requires forall i {:trigger t2.ps[i]} :: 0 <= i < |t.ps| ==> t2.ps[i] == PinnedPage(t.ps[i], i, first, last, t.gen)
    ensures Pins(t, t2, first, last)
  {
  }

  /** The last loop of preserve_pointer: moves the pages of a block to the generation allocated to, where they are. */
  method PinForward(h: Heap, from: nat, first: int) returns (ghost last: int)
    requires h.Valid() && Flushed(h.T()) && from < NUM_GENERATIONS && from != h.allocGen
    requires Unprotected(h.pages[..], from)
    requires 0 <= first < h.pages.Length && h.pages[first].alloc && h.pages[first].used > 0
    requires h.pages[first].gen == from
    requires h.pages[first].offset == 0
    modifies h.pages, h.gens
    ensures h.Valid() && Block(old(h.pages[..]), from, first, last) && Pins(old(h.T()), h.T(), first, last)
  {
    hide RegionOk, HeapOk, PageOk, Block, Pins;
    ghost var t, gs, m := h.T(), h.gens[..], h.mem[..];
    HeapValid(t, h.objs, gs, h.bytesAllocated, m);
    assert t.gen <= NUM_GENERATIONS;
    UsedBound(t, first);
    LastIsFree(t, first);
    var unboxed := h.pages[first].unboxed;
    var i := first;
    PinOne(h, from, first);
    assert PartBlock(t.ps, from, first, first);
    hide PartBlock;
    while !(h.pages[i].used < PAGE || !h.pages[i + 1].alloc || h.pages[i + 1].used == 0 || h.pages[i + 1].gen != from
            || h.pages[i + 1].offset == 0)
      modifies h.pages, h.gens
      invariant first <= i < h.pages.Length - 1 && h.Shaped() && PartBlock(t.ps, from, first, i) && t.ps[i].used <= PAGE
      invariant forall j {:trigger h.pages[j]} ::
        0 <= j < h.pages.Length ==> h.pages[j] == PinnedPage(t.ps[j], j, first, i, t.gen)
      invariant BytesMoved(gs, h.gens[..], from, i * PAGE + t.ps[i].used - first * PAGE, t.gen,
          i * PAGE + t.ps[i].used - first * PAGE)
      decreases h.pages.Length - i
    {
      assert h.pages[i + 1] == t.ps[i + 1];
      PartBlockNext(t, from, first, i);
      i := i + 1;
      UsedBound(t, i);
      LastIsFree(t, i);
      assert h.pages[i].alloc && h.pages[i].unboxed == unboxed && !h.pages[i].wp;
      PinOne(h, from, i);
    }
    last := i;
    assert h.pages[i + 1] == t.ps[i + 1];
    PartBlockEnd(t.ps, from, first, last);
    PinsFrom(t, h.T(), first, last);
    PinHeapOk(t, h.T(), from, first, last, h.objs, gs, h.gens[..], h.bytesAllocated, m);
  }

  lemma PartBlockEnd(ps: seq<Page>, gen: nat, first: int, last: int)
    requires PartBlock(ps, gen, first, last) && 0 <= last < |ps| - 1 && BlockEnds(ps, gen, last)
    ensures Block(ps, gen, first, last)
  {
  }

  /** Every object has all of its words on pages first to last, or none. */
  ghost predicate WholeObjects(objs: map<int, int>, first: int, last: int) {
    forall a {:trigger a in objs} :: a in objs ==>
      objs[a] <= first * PAGE || (last + 1) * PAGE <= a || (first * PAGE <= a && objs[a] <= (last + 1) * PAGE)
  }

  lemma BlockWholeObjects(t: Table, from: nat, first: int, last: int, objs: map<int, int>)
    requires t.Valid() && Flushed(t) && Block(t.ps, from, first, last) && ObjectsOk(t, objs)
    ensures WholeObjects(objs, first, last)
  {
    hide PageOk, RegionOk, ObjectOk;
    forall a {:trigger a in objs} | a in objs
      ensures objs[a] <= first * PAGE || (last + 1) * PAGE <= a || (first * PAGE <= a && objs[a] <= (last + 1) * PAGE)
    {
      var x := Max(a, first * PAGE);
      if x < objs[a] && x < (last + 1) * PAGE {
        UsedBound(t, last);
        PinsWholeObjects(t, from, first, last, a, objs[a], x);
      }
    }
  }

  lemma PinHeapWhole(t: Table, from: nat, first: int, last: int, objs: map<int, int>, gens: seq<Generation>, total: int,
        m: seq<int>)
    requires HeapOk(t, objs, gens, total, m) && Flushed(t) && Block(t.ps, from, first, last)
    ensures WholeObjects(objs, first, last)
  {
    BlockWholeObjects(t, from, first, last, objs);
  }

  /** A word of an object is below the bytes_used of its page. */
  lemma ObjectUsed(t: Table, objs: map<int, int>, gens: seq<Generation>, total: int, m: seq<int>, a: int, x: int)
    requires HeapOk(t, objs, gens, total, m) && Flushed(t) && a in objs && a <= x < objs[a]
    ensures 0 <= x < |m| && 0 <= x / PAGE < |t.ps| && t.ps[x / PAGE].alloc && x - x / PAGE * PAGE < t.ps[x / PAGE].used
  {
    hide PageOk, RegionOk;
    assert ObjectOk(t, a, objs[a]) && t.InUse(x);
  }

  /** Word x is in an object of generation from that has not been pinned. */
  ghost predicate InOldObject(h: Heap, from: nat, x: int)
    reads h, h.pages
  {
    && (exists a {:trigger a in h.objs} :: a in h.objs && a <= x < h.objs[a])
    && 0 <= x / PAGE < h.pages.Length && h.pages[x / PAGE].gen == from && !h.pages[x / PAGE].dontMove
  }

  /** The block that begins on page first reaches as far as the chain of pages that page i is on. */
  lemma BlockReaches(t: Table, from: nat, first: int, last: int, i: int)
    requires t.Valid() && Block(t.ps, from, first, last) && first <= i < |t.ps| && t.ps[i].used > 0
    requires t.ps[i].gen == from
    requires forall j {:trigger t.ps[j]} :: first < j <= i ==> t.ps[j].offset != 0
    ensures i <= last
  {
    if last < i {
      ChainBack(t, first, i, last);
      ChainBack(t, first, i, last + 1);
    }
  }

  /** Pinning a block is one of the things that may happen at the beginning. */
  lemma PinsBegun(t: Table, t2: Table, objs: map<int, int>, raw: set<int>, from: nat, first: int, last: int)
    requires Block(t.ps, from, first, last) && Pins(t, t2, first, last)
    ensures Begun(t.ps, t2.ps, from, t.gen) && SameKinds(t.ps, t2.ps, objs, raw)
  {
    forall i {:trigger t2.ps[i]} | 0 <= i < |t.ps|
      ensures BegunPage(t.ps[i], t2.ps[i], from, t.gen) && t2.ps[i].unboxed == t.ps[i].unboxed
    {
      assert t2.ps[i] == PinnedPage(t.ps[i], i, first, last, t.gen);
    }
  }

  /** The last part of preserve_pointer: pins the block that begins on page first. */
  method PinBlock(h: Heap, from: nat, first: int, i: int, header: int -> Header) returns (ghost last: int)
    requires Pinnable(h, from, header)
    requires 0 <= first <= i < h.pages.Length && h.pages[i].used > 0 && h.pages[i].gen == from
    requires h.pages[first].offset == 0
    requires forall j :: first < j <= i ==> h.pages[j].offset != 0
    modifies h.pages, h.gens
    ensures Pinnable(h, from, header) && i <= last < h.pages.Length && WholeObjects(h.objs, first, last)
    ensures Begun(old(h.pages[..]), h.pages[..], from, h.allocGen)
    ensures SameKinds(old(h.pages[..]), h.pages[..], h.objs, h.raw)
    ensures forall j {:trigger h.pages[j]} :: 0 <= j < h.pages.Length ==>
              h.pages[j] == PinnedPage(old(h.pages[j]), j, first, last, h.allocGen) &&
                  (first <= j <= last ==> h.pages[j].alloc) && (first < j <= last ==> h.pages[j].offset != 0)
  {
    hide RegionOk, PageOk, HeapOk;
    ghost var t, gs, m := h.T(), h.gens[..], h.mem[..];
    HeapValid(t, h.objs, gs, h.bytesAllocated, m);
    ChainBack(t, first, i, first);
    last := PinForward(h, from, first);
    BlockReaches(t, from, first, last, i);
    PinHeapWhole(t, from, first, last, h.objs, gs, h.bytesAllocated, m);
    assert forall j {:trigger h.pages[j]} :: 0 <= j < h.pages.Length ==>
        h.pages[j] == PinnedPage(t.ps[j], j, first, last, t.gen);
    PinsBegun(t, h.T(), h.objs, h.raw, from, first, last);
    KeptTails(t.ps, h.pages[..], h.objs, h.raw, m, from, h.allocGen, header);
  }

  /** The tests of preserve_pointer, as far as they look at the page table: word x is in use in the generation, or the
      word after those that are. */
  predicate PassesTests(ps: seq<Page>, from: nat, x: int) {
    var i := x / PAGE;
    0 <= i < |ps| - 1 && ps[i].alloc && ps[i].used > 0 && ps[i].gen == from && x - i * PAGE <= ps[i].used
  }

  /** preserve_pointer: a word that may point into the old space keeps the objects there where they are, and what is on
      the pages that belong together with theirs. */
  method PreservePointer(h: Heap, from: nat, x: int, valid: bool, header: int -> Header)
        returns (pinned: bool, ghost first: int, ghost last: int)
    requires Pinnable(h, from, header)
    modifies h`bytesAllocated, h.pages, h.gens
    ensures Pinnable(h, from, header)
    ensures pinned ==> 0 <= first <= x / PAGE <= last < h.pages.Length && WholeObjects(h.objs, first, last)
    ensures pinned ==> forall i {:trigger h.pages[i]} :: 0 <= i < h.pages.Length && first <= i <= last ==>
                         h.pages[i].alloc && h.pages[i].gen == h.allocGen && h.pages[i].dontMove
    ensures forall i {:trigger h.pages[i]} ::
      0 <= i < h.pages.Length && !(pinned && first <= i <= last) && h.pages[i].used > 0 ==>
              h.pages[i].gen == old(h.pages[i].gen) && h.pages[i].dontMove == old(h.pages[i].dontMove)
    ensures valid && old(InOldObject(h, from, x)) ==> pinned
    ensures pinned ==> valid && PassesTests(old(h.pages[..]), from, x)
    ensures pinned ==> forall i {:trigger h.pages[i]} :: first < i <= last ==> h.pages[i].offset != 0
    ensures Begun(old(h.pages[..]), h.pages[..], from, h.allocGen)
    ensures SameKinds(old(h.pages[..]), h.pages[..], h.objs, h.raw)
  {
    hide RegionOk, PageOk, HeapOk, TailZero, Sized, Unprotected, PinnedIn, Begun, SameKinds;
    pinned, first, last := false, 0, 0;
    ghost var t := h.T();
    BegunSame(t.ps, h.objs, h.raw, from, t.gen);
    HeapValid(t, h.objs, h.gens[..], h.bytesAllocated, h.mem[..]);
    PointedUsed(h, from, x);
    if !(0 <= x < h.mem.Length) {
      return;
    }
    var i := x / PAGE;
    if !h.pages[i].alloc || h.pages[i].used == 0 || h.pages[i].gen != from || h.pages[i].dontMove {
      return;
    }
    if x - i * PAGE > h.pages[i].used {
      return;
    }
    if !valid {
      return;
    }
    UsedBound(t, i);
    var f := FindFirst(h, from, i);
    ChainBack(t, f, i, f);
    if h.pages[f].large {
      ghost var last := MaybeAdjustLargeObject(h, from, f, header);
      PointedUsed(h, from, x);
      if !h.pages[i].alloc || h.pages[i].used == 0 || x - i * PAGE > h.pages[i].used {
        return;
      }
      UsedBound(h.T(), i);
    }
    ghost var ps := h.pages[..];
    last := PinBlock(h, from, f, i, header);
    BegunThen(t.ps, ps, h.pages[..], from, h.allocGen);
    KindsThen(t.ps, ps, h.pages[..], h.objs, h.raw);
    pinned, first := true, f;
    assert h.pages[i].dontMove;
  }

  /** The tests of preserve_pointer let a pointer into an object pass. */
  lemma PointedUsed(h: Heap, from: nat, x: int)
    requires h.Valid() && Flushed(h.T())
    ensures h.T().Valid()
    ensures (exists a {:trigger a in h.objs} :: a in h.objs && a <= x < h.objs[a]) ==>
              0 <= x < h.mem.Length && h.pages[x / PAGE].alloc && x - x / PAGE * PAGE < h.pages[x / PAGE].used
  {
    HeapValid(h.T(), h.objs, h.gens[..], h.bytesAllocated, h.mem[..]);
    if a :| a in h.objs && a <= x < h.objs[a] {
      ObjectUsed(h.T(), h.objs, h.gens[..], h.bytesAllocated, h.mem[..], a, x);
    }
  }

  // ---------- Freeing the old space ----------

  predicate Old(p: Page, from: nat) {
    p.alloc && p.used != 0 && p.gen == from
  }

  lemma {:induction false} SumFreeTail(ps: seq<Page>, g: int, k: nat, n: nat)
    requires k <= n <= |ps| && forall i {:trigger ps[i]} :: k <= i < n ==> !ps[i].alloc
    ensures Sum(ps, g, n) == Sum(ps, g, k)
  {
    if k < n {
      SumFreeTail(ps, g, k, n - 1);
    }
  }

  /** Frees the pages of generation from that follow each other from first on. */
  method FreeRun(h: Heap, from: nat, first: int, ghost ps: seq<Page>) returns (last: int, freed: int)
    requires |ps| == h.pages.Length && 0 <= first
    requires forall i {:trigger ps[i]} :: first <= i < |ps| ==> h.pages[i] == ps[i]
    requires h.Shaped() && from < h.gens.Length && 0 <= first < h.lastFree <= h.pages.Length
    requires Old(h.pages[first], from)
    modifies h.pages, h.gens
    ensures h.Shaped() && first < last <= h.lastFree
    ensures forall i {:trigger h.pages[i]} :: 0 <= i < h.pages.Length ==>
              h.pages[i] == (if first <= i < last then FreedPage(ps[i], from) else old(h.pages[i]))
    ensures forall i :: first <= i < last ==> Old(ps[i], from)
    ensures freed == Sum(ps, from, last) - Sum(ps, from, first)
    ensures BytesMoved(old(h.gens[..]), h.gens[..], from, freed, from, 0)
  {
    ghost var gs, before := h.gens[..], h.pages[..];
    last, freed := first, 0;
    while true
      invariant first <= last < h.lastFree && h.Shaped() && Old(h.pages[last], from)
      invariant forall i {:trigger h.pages[i]} :: 0 <= i < h.pages.Length ==>
                  h.pages[i] == (if first <= i < last then FreedPage(ps[i], from) else before[i])
      invariant forall i {:trigger ps[i]} :: first <= i < last ==> Old(ps[i], from)
      invariant freed == Sum(ps, from, last) - Sum(ps, from, first) && BytesMoved(gs, h.gens[..], from, freed, from, 0)
      decreases h.lastFree - last
    {
      var used := h.pages[last].used;
      freed := freed + used;
      var gen := h.pages[last].gen;
      h.gens[gen] := h.gens[gen].(bytes := h.gens[gen].bytes - used);
      h.pages[last] := h.pages[last].(alloc := false);
      h.pages[last] := h.pages[last].(used := 0);
      h.pages[last] := h.pages[last].(wp := false);
      last := last + 1;
      if !(last < h.lastFree && h.pages[last].alloc && h.pages[last].used != 0 && h.pages[last].gen == from) {
        break;
      }
    }
  }

  /** Writes the marker that says that a free page has to be cleared. */
  method MarkPages(h: Heap, first: int, last: int)
    requires h.Shaped() && 0 <= first <= last < h.pages.Length
    modifies h.mem
    ensures forall x {:trigger h.mem[x]} :: 0 <= x < h.mem.Length ==>
              h.mem[x] == (if first <= x / PAGE < last && x == x / PAGE * PAGE then MARKER else old(h.mem[x]))
  {
    var page := first;
    while page < last
      invariant first <= page <= last
      invariant forall x {:trigger h.mem[x]} :: 0 <= x < h.mem.Length ==>
                  h.mem[x] == (if first <= x / PAGE < page && x == x / PAGE * PAGE then MARKER else old(h.mem[x]))
    {
      h.mem[page * PAGE] := MARKER;
      page := page + 1;
    }
  }

  /** The first page of generation from that is not before first. */
  method NextOld(h: Heap, from: nat, first: int, ghost ps: seq<Page>) returns (next: int)
    requires |ps| == h.pages.Length && 0 <= first <= h.lastFree <= h.pages.Length
    requires forall i {:trigger ps[i]} :: first <= i < |ps| ==> h.pages[i] == ps[i]
    ensures first <= next <= h.lastFree && (next < h.lastFree ==> Old(ps[next], from))
    ensures forall i {:trigger ps[i]} :: first <= i < next ==> !Old(ps[i], from)
    ensures Sum(ps, from, next) == Sum(ps, from, first)
  {
    next := first;
    while next < h.lastFree && !Old(h.pages[next], from)
      invariant first <= next <= h.lastFree && Sum(ps, from, next) == Sum(ps, from, first)
      invariant forall i {:trigger ps[i]} :: first <= i < next ==> !Old(ps[i], from)
    {
      next := next + 1;
    }
  }

  /** The loops of free_oldspace. */
  method FreePages(h: Heap, from: nat) returns (freed: int)
    requires h.Shaped() && from <= NUM_GENERATIONS && 0 <= h.lastFree < h.pages.Length
    requires forall i {:trigger h.pages[i]} :: h.lastFree <= i < h.pages.Length ==> !h.pages[i].alloc
    modifies h.pages, h.mem, h.gens
    ensures h.Shaped() && freed == Bytes(old(h.pages[..]), from)
    ensures BytesMoved(old(h.gens[..]), h.gens[..], from, freed, from, 0)
    ensures forall i {:trigger h.pages[i]} :: 0 <= i < h.pages.Length ==> h.pages[i] == FreedPage(old(h.pages[i]), from)
    ensures forall x {:trigger h.mem[x]} :: 0 <= x < h.mem.Length ==>
              h.mem[x] == (if x == x / PAGE * PAGE && Old(old(h.pages[x / PAGE]), from) then MARKER else old(h.mem[x]))
  {
    hide Sum;
    ghost var ps, gs, m := h.pages[..], h.gens[..], h.mem[..];
    EmptySum(ps, from);
    freed := 0;
    var first := 0;
    while true
      invariant 0 <= first <= h.lastFree && h.Shaped() && freed == Sum(ps, from, first)
      invariant BytesMoved(gs, h.gens[..], from, freed, from, 0)
      invariant forall i {:trigger h.pages[i]} :: 0 <= i < h.pages.Length ==>
                  h.pages[i] == (if i < first then FreedPage(ps[i], from) else ps[i])
      invariant forall x {:trigger h.mem[x]} :: 0 <= x < h.mem.Length ==>
                  h.mem[x] == (if x / PAGE < first && x == x / PAGE * PAGE &&
                      Old(ps[x / PAGE], from) then MARKER else m[x])
      decreases h.lastFree - first
    {
      first := NextOld(h, from, first, ps);
      if first >= h.lastFree {
        break;
      }
      var last, more := FreeRun(h, from, first, ps);
      MarkPages(h, first, last);
      freed := freed + more;
      first := last;
      if !(first < h.lastFree) {
        break;
      }
    }
    SumFreeTail(ps, from, first, |ps|);
  }

  /** free_oldspace: the objects of the old space are gone, and the others have not been touched. */
  method FreeOldspace(h: Heap, from: nat) returns (freed: int)
    requires h.Valid() && Flushed(h.T()) && from <= NUM_GENERATIONS
    modifies h`bytesAllocated, h`objs, h.pages, h.mem, h.gens
    ensures h.Valid() && Frees(old(h.T()), h.T(), from) && Marks(old(h.T()), old(h.mem[..]), h.mem[..], from)
    ensures h.objs == Others(old(h.T()), old(h.objs), from)
    ensures freed == old(h.gens[from].bytes) && h.bytesAllocated == old(h.bytesAllocated) - freed
    ensures BytesMoved(old(h.gens[..]), h.gens[..], from, freed, from, 0)
  {
    hide RegionOk, PageOk, ObjectsOk, Zeroed, Bytes;
    var t := h.T();
    ghost var gs, m := h.gens[..], h.mem[..];
    MarkedPages(t, from);
    freed := FreePages(h, from);
    assert freed == gs[from].bytes;
    h.bytesAllocated := h.bytesAllocated - freed;
    h.objs := Others(t, h.objs, from);
    assert Frees(t, h.T(), from);
    assert Marks(t, m, h.mem[..], from);
    hide Frees, Marks;
    FreeHeapOk(t, h.T(), from, old(h.objs), gs, h.gens[..], old(h.bytesAllocated), m, h.mem[..]);
  }

  lemma EmptySum(ps: seq<Page>, g: int)
    ensures Sum(ps, g, 0) == 0
  {
  }

  lemma MarkedPages(t: Table, from: nat)
    requires t.Valid() && Flushed(t)
    ensures forall i {:trigger t.ps[i]} ::
      0 <= i < |t.ps| ==> (Old(t.ps[i], from) <==> t.ps[i].alloc && t.ps[i].gen == from)
  {
  }

  // ---------- The beginning and the end of a collection ----------

  /** Flags that say nothing about what is where may have been cleared, and the generation to allocate to changed. */
  ghost predicate Reflags(t: Table, t2: Table) {
    && |t2.ps| == |t.ps| && t2 == t.(ps := t2.ps, gen := t2.gen) && t2.gen <= NUM_GENERATIONS
    && (forall i {:trigger t2.ps[i]} :: 0 <= i < |t.ps| ==>
          t2.ps[i] == t.ps[i].(dontMove := t2.ps[i].dontMove, wp := t2.ps[i].wp) && (t2.ps[i].wp ==> t.ps[i].wp))
  }

  lemma ReflagsOk(t: Table, t2: Table)
    requires t.Valid() && Flushed(t) && Reflags(t, t2)
    ensures t2.Valid() && Keeps(t, t2) && SameWords(t, t2)
  {
    forall i | 0 <= i < |t2.ps| ensures PageOk(t2.ps, i) {
      assert PageOk(t.ps, i) && t2.ps[i] == t2.ps[i];
      if i > 0 {
        assert t2.ps[i - 1] == t2.ps[i - 1];
      }
    }
    forall x ensures t2.InUse(x) <==> t.InUse(x) {
      assert 0 <= x / PAGE < |t.ps| ==> t2.ps[x / PAGE] == t2.ps[x / PAGE];
    }
  }

  lemma ReflagsZeroed(t: Table, t2: Table, m: seq<int>)
    requires Reflags(t, t2) && SameWords(t, t2) && |m| == (|t.ps| - 1) * PAGE && Zeroed(t, m)
    ensures Zeroed(t2, m)
  {
    forall x {:trigger ZeroAt(t2, m, x)} {:trigger m[x]} | 0 <= x < |m| ensures ZeroAt(t2, m, x) {
      assert ZeroAt(t, m, x);
      assert t2.ps[x / PAGE].alloc == t.ps[x / PAGE].alloc && (t2.InUse(x) <==> t.InUse(x));
    }
  }

  lemma ReflagsObjects(t: Table, t2: Table, objs: map<int, int>)
    requires t.Valid() && Reflags(t, t2) && Keeps(t, t2) && ObjectsOk(t, objs) && Flushed(t)
    ensures ObjectsOk(t2, objs)
  {
    hide PageOk, RegionOk, Placed;
    KeepsPlaced(t, t2, objs);
    forall i {:trigger t2.ps[i]} | 0 <= i < |t2.ps| && t2.ps[i].used > 0 ensures Head(t2.ps, i) in objs {
      assert t.ps[i].used > 0;
    }
  }

  lemma ReflagsHeapOk(t: Table, t2: Table, objs: map<int, int>, gens: seq<Generation>, gens2: seq<Generation>,
        total: int, m: seq<int>)
    requires HeapOk(t, objs, gens, total, m) && Flushed(t) && Reflags(t, t2)
    requires |gens2| == |gens| && forall g {:trigger gens2[g]} :: 0 <= g < |gens| ==> gens2[g].bytes == gens[g].bytes
    ensures HeapOk(t2, objs, gens2, total, m)
  {
    hide PageOk, RegionOk, ObjectsOk, Zeroed;
    ReflagsOk(t, t2);
    ReflagsObjects(t, t2, objs);
    ReflagsZeroed(t, t2, m);
    forall g: int ensures Bytes(t2.ps, g) == Bytes(t.ps, g) {
      SumSame(t.ps, t2.ps, g, |t.ps|);
    }
  }

  /** Clears the dont_move flags, and the write protection of generation from. */
  method ClearFlags(h: Heap, from: nat)
    requires 0 <= h.lastFree <= h.pages.Length
    modifies h.pages
    ensures forall i {:trigger h.pages[i]} :: 0 <= i < h.pages.Length ==>
              h.pages[i] == (if i < h.lastFree then old(h.pages[i]).(dontMove := false,
                  wp := h.pages[i].wp) else old(h.pages[i]))
    ensures forall i {:trigger h.pages[i]} :: 0 <= i < h.lastFree ==>
              h.pages[i].wp == (old(h.pages[i].wp) && !Old(old(h.pages[i]), from))
  {
    var i := 0;
    while i < h.lastFree
      invariant 0 <= i <= h.lastFree
      invariant forall j {:trigger h.pages[j]} :: 0 <= j < h.pages.Length ==>
                  h.pages[j] == (if j < i then old(h.pages[j]).(dontMove := false) else old(h.pages[j]))
    {
      h.pages[i] := h.pages[i].(dontMove := false);
      i := i + 1;
    }
    i := 0;
    while i < h.lastFree
      invariant 0 <= i <= h.lastFree
      invariant forall j {:trigger h.pages[j]} :: 0 <= j < h.pages.Length ==>
                  h.pages[j] == (if j < h.lastFree then old(h.pages[j]).(dontMove := false,
                      wp := h.pages[j].wp) else old(h.pages[j]))
      invariant forall j {:trigger h.pages[j]} :: 0 <= j < h.lastFree ==>
                  h.pages[j].wp == (old(h.pages[j].wp) && (j < i ==> !Old(old(h.pages[j]), from)))
    {
      if h.pages[i].alloc && h.pages[i].used != 0 && h.pages[i].gen == from {
        if h.pages[i].wp {
          h.pages[i] := h.pages[i].(wp := false);
        }
      }
      i := i + 1;
    }
  }

  method ResetStarts(h: Heap, g: nat)
    requires h.Shaped() && g < h.gens.Length
    modifies h.gens
    ensures h.Shaped()
    ensures forall i {:trigger h.gens[i]} :: 0 <= i < h.gens.Length ==> h.gens[i].bytes == old(h.gens[i].bytes)
  {
    h.gens[g] := h.gens[g].(start := 0, unboxedStart := 0, largeStart := 0, largeUnboxedStart := 0);
  }

  /** The beginning of garbage_collect_generation: afterwards allocation goes to the new space, no page is pinned and
      the old space can be written to. */
  method BeginCollection(h: Heap, from: nat, raise: bool)
    requires h.Valid() && Flushed(h.T()) && from < NUM_GENERATIONS && (from == NUM_GENERATIONS - 1 ==> !raise)
    requires h.gens[NUM_GENERATIONS].bytes == 0
    modifies h`allocGen, h.pages, h.gens
    ensures h.Valid() && Flushed(h.T()) && h.allocGen == (if raise then from + 1 else NUM_GENERATIONS)
    ensures Reflags(old(h.T()), h.T()) && Unprotected(h.pages[..], from)
    ensures forall i {:trigger h.pages[i]} :: 0 <= i < h.pages.Length && h.pages[i].alloc ==> !h.pages[i].dontMove
    ensures forall i {:trigger h.gens[i]} :: 0 <= i < h.gens.Length ==> h.gens[i].bytes == old(h.gens[i].bytes)
  {
    hide PageOk, RegionOk, ObjectsOk, CountersOk, Zeroed;
    ghost var t, gs, m := h.T(), h.gens[..], h.mem[..];
    assert h.gens[NUM_GENERATIONS].bytes == 0;
    h.allocGen := if raise then from + 1 else NUM_GENERATIONS;
    ResetStarts(h, h.allocGen);
    ClearFlags(h, from);
    assert Reflags(t, h.T());
    MarkedPages(t, from);
    assert Unprotected(h.pages[..], from);
    ReflagsHeapOk(t, h.T(), h.objs, gs, h.gens[..], h.bytesAllocated, m);
  }

  /** Gives what is left of a generation that has not been raised its own number back. */
  method LowerGeneration(h: Heap, from: nat)
    requires h.Valid() && Flushed(h.T()) && from < NUM_GENERATIONS && h.gens[from].bytes == 0
    modifies h.pages, h.gens
    ensures h.Valid() && Lowers(old(h.T()), h.T(), from)
    ensures h.gens[from].bytes == old(h.gens[NUM_GENERATIONS].bytes) && h.gens[NUM_GENERATIONS].bytes == 0
  {
    hide PageOk, RegionOk, ObjectsOk, CountersOk, Zeroed;
    ghost var t, gs, m := h.T(), h.gens[..], h.mem[..];
    var i := 0;
    while i < h.lastFree
      modifies h.pages
      invariant 0 <= i <= h.lastFree
      invariant forall j {:trigger h.pages[j]} :: 0 <= j < h.pages.Length ==>
                  h.pages[j] == (if j < i then LoweredPage(t.ps[j], from) else t.ps[j])
    {
      if h.pages[i].used != 0 && h.pages[i].gen == NUM_GENERATIONS {
        h.pages[i] := h.pages[i].(gen := from);
      }
      i := i + 1;
    }
    assert h.gens[from].bytes == 0;
    h.gens[from] := h.gens[from].(bytes := h.gens[NUM_GENERATIONS].bytes);
    h.gens[NUM_GENERATIONS] := h.gens[NUM_GENERATIONS].(bytes := 0);
    FreeUnused(t);
    assert Lowers(t, h.T(), from);
    LowerHeapOk(t, h.T(), from, h.objs, gs, h.gens[..], h.bytesAllocated, m);
  }

  lemma FreeUnused(t: Table)
    requires t.Valid()
    ensures forall i {:trigger t.ps[i]} :: t.lastFree <= i < |t.ps| ==> t.ps[i].used == 0
  {
    forall i {:trigger t.ps[i]} | t.lastFree <= i < |t.ps| ensures t.ps[i].used == 0 {
      assert PageOk(t.ps, i);
    }
  }

  /** Closes both regions, as before a collection and at its end. */
  method Flush(h: Heap)
    requires h.Valid()
    modifies h`boxed, h`unboxed, h`bytesAllocated, h`areas, h.pages, h.gens
    ensures h.Valid() && Flushed(h.T()) && SameWords(old(h.T()), h.T()) && h.Grows(0, 0, false)
    ensures Grown(old(h.gens[..]), h.gens[..], h.allocGen, h.bytesAllocated - old(h.bytesAllocated))
    ensures |h.T().ps| == |old(h.T()).ps|
    ensures forall i {:trigger h.pages[i]} :: 0 <= i < h.pages.Length ==> h.pages[i].gen == old(h.pages[i].gen)
    ensures old(Flushed(h.T())) ==> h.T() == old(h.T()) && h.areas == old(h.areas)
  {
    hide PageOk, RegionOk, HeapOk, NewAreas.Records, ClosedPage, Evolves, Recorded;
    ghost var t, areas := h.T(), h.areas;
    HeapValid(t, h.objs, h.gens[..], h.bytesAllocated, h.mem[..]);
    h.UpdatePageTables(false);
    ghost var t1, areas1 := h.T(), h.areas;
    HeapValid(t1, h.objs, h.gens[..], h.bytesAllocated, h.mem[..]);
    ClosedOnce(t, t1, false, areas, areas1, h.recording);
    h.UpdatePageTables(true);
    ClosedOnce(t1, h.T(), true, areas1, h.areas, h.recording);
    EvolvesTwice(t, t1, h.T());
    RecordedTwice(t, areas, t1, areas1, h.T(), h.areas, h.recording, false, 0, 0, 0, 0, 0, 0);
  }

  lemma ClosedOnce(t: Table, t2: Table, kind: bool, areas: seq<NewAreas.Area>, areas2: seq<NewAreas.Area>,
        recording: NewAreas.Recording)
    requires t.Valid() && Closes(t, t2, kind)
    requires if kind || t.boxed.start == t.boxed.free then areas2 == areas
             else NewAreas.Records(areas, areas2, recording, NewAreas.Area(t.boxed.first,
                 t.boxed.start - t.boxed.first * PAGE, t.boxed.free - t.boxed.start))
    ensures SameWords(t, t2) && t2.Of(kind) == RESET && t2.Of(!kind) == t.Of(!kind) && Evolves(t, t2)
    ensures Recorded(t, areas, t2, areas2, recording, false, 0, 0)
    ensures |t2.ps| == |t.ps| && forall i {:trigger t2.ps[i]} :: 0 <= i < |t.ps| ==> t2.ps[i].gen == t.ps[i].gen
    ensures t.Of(kind) == RESET ==> t2 == t && areas2 == areas
  {
    hide PageOk, RegionOk, NewAreas.Records, Evolves, Recorded;
    CloseReset(t, t2, kind);
    CloseEvolves(t, t2, kind);
    CloseRecorded(t, t2, kind, areas, areas2, recording);
    RecordedNothing(t, areas, t2, areas2, recording, kind, false);
    if t.Of(kind) == RESET {
      assert t2.ps == t.ps;
    }
  }

  lemma FreesFlushed(t: Table, t2: Table, from: nat)
    requires Flushed(t) && Frees(t, t2, from)
    ensures Flushed(t2)
  {
  }

  lemma LowersFlushed(t: Table, t2: Table, from: nat)
    requires Flushed(t) && Lowers(t, t2, from)
    ensures Flushed(t2)
  {
  }

  lemma ResetHeapOk(t: Table, objs: map<int, int>, gens: seq<Generation>, gens2: seq<Generation>, total: int,
        m: seq<int>)
    requires HeapOk(t, objs, gens, total, m)
    requires |gens2| == |gens| && forall g {:trigger gens2[g]} :: 0 <= g < |gens| ==> gens2[g].bytes == gens[g].bytes
    ensures HeapOk(t, objs, gens2, total, m)
  {
    hide ObjectsOk, PageOk, RegionOk, Zeroed, Bytes;
  }
}
