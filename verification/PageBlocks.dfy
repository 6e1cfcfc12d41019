/** Whole blocks of pages of the generational collector: pinned, resized, freed or given another generation. */
module PageBlocks {
  import opened PageTable
  import opened PageObjects

  /** Neither region is open. */
  predicate Flushed(t: Table) {
    t.boxed == RESET && t.unboxed == RESET
  }

  // ---------- Pinning ----------

  /** Pages first to last of generation gen belong together, and nothing runs over their ends. */
  ghost predicate Block(ps: seq<Page>, gen: nat, first: int, last: int) {
    && 0 <= first <= last < |ps| - 1 && ps[first].offset == 0
    && (forall i {:trigger ps[i]} :: first <= i <= last ==> ps[i].alloc && ps[i].used > 0 && ps[i].gen == gen)
    && (forall i {:trigger ps[i]} :: first < i <= last ==> ps[i].offset != 0 && ps[i].unboxed == ps[first].unboxed)
    && (forall i {:trigger ps[i]} :: first <= i < last ==> ps[i].used == PAGE)
    && BlockEnds(ps, gen, last)
  }

  predicate BlockEnds(ps: seq<Page>, gen: nat, last: int)
    requires 0 <= last < |ps| - 1
  {
    || ps[last].used < PAGE || !ps[last + 1].alloc || ps[last + 1].used == 0
    || ps[last + 1].gen != gen || ps[last + 1].offset == 0
  }

  function PinnedPage(p: Page, i: int, first: int, last: int, gen: nat): Page {
    if first <= i <= last then p.(gen := gen, dontMove := true) else p
  }

  /** Pages first to last have been moved to generation gen, where they stay. */
  ghost predicate Pins(t: Table, t2: Table, first: int, last: int) {
    && |t2.ps| == |t.ps| && t2 == t.(ps := t2.ps)
    && (forall i {:trigger t2.ps[i]} :: 0 <= i < |t.ps| ==> t2.ps[i] == PinnedPage(t.ps[i], i, first, last, t.gen))
  }

  lemma PinOk(t: Table, t2: Table, from: nat, first: int, last: int)
    requires t.Valid() && Flushed(t) && from != t.gen && Block(t.ps, from, first, last) && Pins(t, t2, first, last)
    ensures t2.Valid()
  {
    forall i | 0 <= i < |t2.ps| ensures PageOk(t2.ps, i) {
      PinnedPageOk(t, t2, from, first, last, i);
    }
  }

  lemma PinnedPageOk(t: Table, t2: Table, from: nat, first: int, last: int, i: int)
    requires t.Valid() && Block(t.ps, from, first, last) && Pins(t, t2, first, last) && 0 <= i < |t2.ps|
    ensures PageOk(t2.ps, i)
  {
    assert PageOk(t.ps, i);
    assert t2.ps[i] == PinnedPage(t.ps[i], i, first, last, t.gen);
    if i > 0 {
      assert PageOk(t.ps, i - 1);
      assert t2.ps[i - 1] == PinnedPage(t.ps[i - 1], i - 1, first, last, t.gen);
    }
  }

  lemma PinKeeps(t: Table, t2: Table, first: int, last: int)
    requires t.Valid() && Pins(t, t2, first, last)
    ensures Keeps(t, t2)
  {
    hide PageOk, RegionOk;
    forall x ensures t2.InUse(x) <==> t.InUse(x) {
      PinInUse(t, t2, first, last, x);
    }
  }

  lemma PinInUse(t: Table, t2: Table, first: int, last: int, x: int)
    requires Pins(t, t2, first, last)
    ensures t2.InUse(x) <==> t.InUse(x)
  {
    var i := x / PAGE;
    assert 0 <= i < |t.ps| ==> t2.ps[i] == PinnedPage(t.ps[i], i, first, last, t.gen);
  }

  lemma PinObjects(t: Table, t2: Table, first: int, last: int, objs: map<int, int>)
    requires t.Valid() && Pins(t, t2, first, last) && ObjectsOk(t, objs)
    ensures ObjectsOk(t2, objs)
  {
    hide PageOk, RegionOk, Placed;
    PinKeeps(t, t2, first, last);
    KeepsPlaced(t, t2, objs);
    forall i {:trigger t2.ps[i]} | 0 <= i < |t2.ps| && t2.ps[i].used > 0 ensures Head(t2.ps, i) in objs {
      assert t.ps[i].used > 0;
    }
  }

  /** An object with a word on a pinned page has all its words on pinned pages. */
  lemma PinsWholeObjects(t: Table, from: nat, first: int, last: int, a: int, e: int, x: int)
    requires t.Valid() && Flushed(t) && Block(t.ps, from, first, last) && ObjectOk(t, a, e)
    requires a <= x < e && first <= x / PAGE <= last
    ensures first * PAGE <= a && e <= last * PAGE + t.ps[last].used
  {
    assert first * PAGE <= x && !(a < first * PAGE < e);
    BlockEnd(t, from, first, last);
    var y := last * PAGE + t.ps[last].used;
    assert t.InUse(x) && x < y by {
      assert PageOk(t.ps, last);
    }
    assert y < e ==> t.InUse(y);
    assert y == (last + 1) * PAGE && t.ps[last + 1].offset == 0 ==> !(a < y < e);
  }

  lemma BlockEnd(t: Table, from: nat, first: int, last: int)
    requires t.Valid() && Flushed(t) && Block(t.ps, from, first, last)
    ensures
      var y := last * PAGE + t.ps[last].used;
      !t.InUse(y) || (y == (last + 1) * PAGE && t.ps[last + 1].offset == 0)
  {
    var y := last * PAGE + t.ps[last].used;
    assert PageOk(t.ps, last) && PageOk(t.ps, last + 1);
    assert y / PAGE == if t.ps[last].used < PAGE then last else last + 1;
  }

  // ---------- Moving and resizing blocks ----------

  /** The pages, without those from first to last. */
  ghost function Without(ps: seq<Page>, first: int, last: int): seq<Page> {
    seq(|ps|, i requires 0 <= i < |ps| => if first <= i <= last then ps[i].(alloc := false) else ps[i])
  }

  /** Pages first to last are in use from their first word up to word end of the heap. */
  ghost predicate Filled(ps: seq<Page>, gen: nat, first: int, last: int, end: int) {
    && 0 <= first <= last < |ps| && first * PAGE <= end
    && (forall i {:trigger ps[i]} :: first <= i <= last ==>
          if ps[i].alloc then ps[i].gen == gen && i * PAGE < end &&
              ps[i].used == Min(PAGE, end - i * PAGE) else end <= i * PAGE)
    && end <= (last + 1) * PAGE
  }

  lemma FilledSum(ps: seq<Page>, gen: nat, first: int, last: int, end: int, g: int)
    requires Filled(ps, gen, first, last, end)
    ensures Bytes(ps, g) == Bytes(Without(ps, first, last), g) + (if Counted(gen, g) then end - first * PAGE else 0)
  {
    var ps0 := Without(ps, first, last);
    forall i {:trigger ps[i]} | 0 <= i < |ps|
      ensures Count(ps[i], g) == Count(ps0[i], g) + (if Counted(gen, g) then Share(first * PAGE, end, i) else 0)
    {
    }
    SumFill(ps0, ps, gen, first * PAGE, end, g, |ps|);
  }

  /** Moving a block and cutting it from end to end2 moves its words from one generation's count to the other's. */
  lemma MoveSum(ps: seq<Page>, ps2: seq<Page>, gen: nat, gen2: nat, first: int, last: int, end: int, end2: int, g: int)
    requires |ps2| == |ps| && Filled(ps, gen, first, last, end) && Filled(ps2, gen2, first, last, end2)
    requires forall i {:trigger ps2[i]} :: 0 <= i < |ps| && !(first <= i <= last) ==> ps2[i] == ps[i]
    ensures Bytes(ps2, g) == Bytes(ps, g) - (if Counted(gen, g) then end - first * PAGE else 0)
                                          + (if Counted(gen2, g) then end2 - first * PAGE else 0)
  {
    hide Filled;
    FilledSum(ps, gen, first, last, end, g);
    FilledSum(ps2, gen2, first, last, end2, g);
    var qs, qs2 := Without(ps, first, last), Without(ps2, first, last);
    forall i {:trigger qs2[i]} | 0 <= i < |qs2| ensures Count(qs2[i], g) == Count(qs[i], g) {
      assert first <= i <= last || ps2[i] == ps[i];
    }
    SumSame(qs, qs2, g, |qs|);
  }

  lemma PinSum(t: Table, t2: Table, from: nat, first: int, last: int, g: int)
    requires t.Valid() && from != t.gen && Block(t.ps, from, first, last) && Pins(t, t2, first, last)
    ensures Bytes(t2.ps, g) == Bytes(t.ps, g) - (if Counted(from,
        g) then last * PAGE + t.ps[last].used - first * PAGE else 0)
                                              + (if Counted(t.gen, g)
                                                  then last * PAGE + t.ps[last].used - first * PAGE else 0)
  {
    var end := last * PAGE + t.ps[last].used;
    assert PageOk(t.ps, last);
    MoveSum(t.ps, t2.ps, from, t.gen, first, last, end, end, g);
  }

  /** Pages first to last hold one large object of generation gen and nothing else. */
  ghost predicate LargeBlock(t: Table, gen: nat, first: int, last: int) {
    && 0 <= first <= last < |t.ps| - 1
    && (forall i {:trigger t.ps[i]} :: first <= i <= last ==> LargePage(t.ps[i], t.ps[first], gen, first - i))
    && (forall i {:trigger t.ps[i]} :: first <= i < last ==> t.ps[i].used == PAGE)
    && (t.ps[last].used < PAGE || !Continues(t.ps, gen, first, last + 1))
  }

  predicate LargePage(p: Page, head: Page, gen: nat, pages: int) {
    p.alloc && p.used > 0 && !p.wp && p.large && p.gen == gen && p.unboxed == head.unboxed && p.offset == pages * PAGE
  }

  /** The test for another page of the large object that begins on page first. */
  predicate Continues(ps: seq<Page>, gen: nat, first: int, i: int)
    requires 0 <= i < |ps|
  {
    ps[i].alloc && ps[i].large && ps[i].gen == gen && ps[i].offset == (first - i) * PAGE
  }

  function ResizedPage(p: Page, i: int, first: int, last: int, end: int, gen: nat, unboxed: bool): Page {
    if !(first <= i <= last) then p
    else if i * PAGE < end then p.(gen := gen, unboxed := unboxed, used := Min(PAGE, end - i * PAGE))
    else p.(alloc := false, used := 0)
  }

  /** The large object on pages first to last has moved to generation gen and to n words. */
  ghost predicate Resizes(t: Table, t2: Table, first: int, last: int, n: int, gen: nat, unboxed: bool) {
    && |t2.ps| == |t.ps| && t2 == t.(ps := t2.ps) && gen <= NUM_GENERATIONS
    && 0 <= first <= last < |t.ps| && 0 < n <= (last - first) * PAGE + t.ps[last].used
    && (forall i {:trigger t2.ps[i]} :: 0 <= i < |t.ps| ==>
        t2.ps[i] == ResizedPage(t.ps[i], i, first, last, first * PAGE + n, gen, unboxed))
  }

  lemma ResizedPageOk(t: Table, t2: Table, from: nat, first: int, last: int, n: int, gen: nat, unboxed: bool, i: int)
    requires t.Valid() && LargeBlock(t, from, first, last) && Resizes(t, t2, first, last, n, gen, unboxed)
    requires 0 <= i < |t.ps|
    ensures PageOk(t2.ps, i)
  {
    var end := first * PAGE + n;
    assert PageOk(t.ps, i);
    assert t2.ps[i] == ResizedPage(t.ps[i], i, first, last, end, gen, unboxed);
    if i > 0 {
      assert PageOk(t.ps, i - 1);
      assert t2.ps[i - 1] == ResizedPage(t.ps[i - 1], i - 1, first, last, end, gen, unboxed);
    }
  }

  lemma ResizeOk(t: Table, t2: Table, from: nat, first: int, last: int, n: int, gen: nat, unboxed: bool)
    requires t.Valid() && LargeBlock(t, from, first, last) && Resizes(t, t2, first, last, n, gen, unboxed)
    ensures t2.Valid()
  {
    hide PageOk;
    forall i | 0 <= i < |t2.ps| ensures PageOk(t2.ps, i) {
      ResizedPageOk(t, t2, from, first, last, n, gen, unboxed, i);
    }
    ResizeRegionStays(t, t2, from, first, last, n, gen, unboxed, true);
    ResizeRegionStays(t, t2, from, first, last, n, gen, unboxed, false);
  }

  lemma ResizeRegionStays(t: Table, t2: Table, from: nat, first: int, last: int, n: int, gen: nat, unboxed: bool,
        k: bool)
    requires t.Valid() && LargeBlock(t, from, first, last) && Resizes(t, t2, first, last, n, gen, unboxed)
    ensures RegionOk(t2.ps, t.Of(k), k, t.gen)
  {
    hide PageOk;
    var r := t.Of(k);
    if !r.IsReset() {
      forall i {:trigger t2.ps[i]} | r.first <= i <= r.last ensures t2.ps[i] == t.ps[i] {
        assert RegionPage(t.ps[i], k, t.gen);
      }
    }
  }

  lemma ResizeSum(t: Table, t2: Table, from: nat, first: int, last: int, n: int, gen: nat, unboxed: bool, g: int)
    requires t.Valid() && LargeBlock(t, from, first, last) && Resizes(t, t2, first, last, n, gen, unboxed)
    ensures Bytes(t2.ps, g) == Bytes(t.ps, g) - (if Counted(from,
        g) then (last - first) * PAGE + t.ps[last].used else 0)
                                              + (if Counted(gen, g) then n else 0)
  {
    assert PageOk(t.ps, last);
    MoveSum(t.ps, t2.ps, from, gen, first, last, last * PAGE + t.ps[last].used, first * PAGE + n, g);
  }

  lemma ResizeInUse(t: Table, t2: Table, from: nat, first: int, last: int, n: int, gen: nat, unboxed: bool, x: int)
    requires t.Valid() && LargeBlock(t, from, first, last) && Resizes(t, t2, first, last, n, gen, unboxed)
    ensures t2.InUse(x) <==> t.InUse(x) && !(first * PAGE + n <= x < (last + 1) * PAGE)
  {
    var i := x / PAGE;
    if 0 <= i < |t.ps| {
      assert t2.ps[i] == ResizedPage(t.ps[i], i, first, last, first * PAGE + n, gen, unboxed);
      assert PageOk(t.ps, i);
      if first <= i <= last {
        assert !t.boxed.Holds(x) && !t.unboxed.Holds(x) by {
          NotHeld(t, from, first, last, x, false);
          NotHeld(t, from, first, last, x, true);
        }
      }
    }
  }

  lemma NotHeld(t: Table, from: nat, first: int, last: int, x: int, k: bool)
    requires t.Valid() && LargeBlock(t, from, first, last) && first <= x / PAGE <= last
    ensures !t.Of(k).Holds(x)
  {
    var p := t.ps[x / PAGE];
    assert p == t.ps[x / PAGE];
    if t.Of(k).Holds(x) {
      HeldIsCovered(t, k, x);
    }
  }

  /** No other object has words on the pages of a large one. */
  lemma LargeAlone(t: Table, from: nat, first: int, last: int, objs: map<int, int>, b: int)
    requires t.Valid() && LargeBlock(t, from, first, last) && ObjectsOk(t, objs) && first * PAGE in objs
    requires b in objs && b != first * PAGE
    ensures objs[b] <= first * PAGE || (last + 1) * PAGE <= b
  {
    assert forall i {:trigger t.ps[i]} :: first < i <= last ==> t.ps[i].large && t.ps[i].offset != 0;
    assert t.ps[first].large;
    var i := b / PAGE;
    assert i * PAGE <= b < i * PAGE + PAGE;
  }

  lemma ResizeObject(t: Table, t2: Table, from: nat, first: int, last: int, n: int, gen: nat, unboxed: bool, a: int,
        e: int)
    requires t.Valid() && LargeBlock(t, from, first, last) && Resizes(t, t2, first, last, n, gen, unboxed)
    requires ObjectOk(t, a, e) && AloneOk(t, a) && (e <= first * PAGE + n || (last + 1) * PAGE <= a)
    ensures ObjectOk(t2, a, e) && AloneOk(t2, a)
  {
    hide PageOk, RegionOk;
    forall x | a <= x < e ensures t2.InUse(x) {
      assert t.InUse(x);
      ResizeInUse(t, t2, from, first, last, n, gen, unboxed, x);
    }
    assert t.InUse(a);
    assert t2.ps[a / PAGE] == ResizedPage(t.ps[a / PAGE], a / PAGE, first, last, first * PAGE + n, gen, unboxed);
    forall i {:trigger t2.ps[i]} | 0 <= i < |t2.ps| && a < i * PAGE < e ensures t2.ps[i].offset != 0 {
      assert t.ps[i].offset != 0;
    }
  }

  lemma ResizeObjects(t: Table, t2: Table, from: nat, first: int, last: int, n: int, gen: nat, unboxed: bool,
        objs: map<int, int>)
    requires t.Valid() && LargeBlock(t, from, first, last) && Resizes(t, t2, first, last, n, gen, unboxed)
    requires ObjectsOk(t, objs) && first * PAGE in objs && objs[first * PAGE] == first * PAGE + n
    ensures ObjectsOk(t2, objs)
  {
    hide ObjectOk, AloneOk, LargeBlock, PageOk, RegionOk;
    forall a {:trigger a in objs} | a in objs ensures ObjectOk(t2, a, objs[a]) && AloneOk(t2, a) {
      if a != first * PAGE {
        LargeAlone(t, from, first, last, objs, a);
      }
      ResizeObject(t, t2, from, first, last, n, gen, unboxed, a, objs[a]);
    }
    forall i {:trigger t2.ps[i]} | 0 <= i < |t2.ps| && t2.ps[i].used > 0 ensures Head(t2.ps, i) in objs {
      assert t2.ps[i] == ResizedPage(t.ps[i], i, first, last, first * PAGE + n, gen, unboxed);
      ResizedUsed(t, t2, from, first, last, n, gen, unboxed, i);
    }
  }

  lemma ResizedUsed(t: Table, t2: Table, from: nat, first: int, last: int, n: int, gen: nat, unboxed: bool, i: int)
    requires t.Valid() && LargeBlock(t, from, first, last) && Resizes(t, t2, first, last, n, gen, unboxed)
    requires 0 <= i < |t2.ps| && t2.ps[i].used > 0
    ensures t.ps[i].used > 0 && t2.ps[i].offset == t.ps[i].offset
  {
    assert t2.ps[i] == ResizedPage(t.ps[i], i, first, last, first * PAGE + n, gen, unboxed);
    assert first <= i <= last ==> LargePage(t.ps[i], t.ps[first], from, first - i);
  }

  /** No page of the generation is write protected. */
  ghost predicate Unprotected(ps: seq<Page>, gen: nat) {
    forall i {:trigger ps[i]} :: 0 <= i < |ps| && ps[i].alloc && ps[i].gen == gen ==> !ps[i].wp
  }

  /** The pages that a large object runs over carry on from its first page. */
  lemma {:induction false} LargeExtent(t: Table, from: nat, first: int, e: int, i: int)
    requires t.Valid() && from != t.gen && Unprotected(t.ps, from)
    requires 0 <= first < |t.ps| && t.ps[first].large && t.ps[first].gen == from && t.ps[first].offset == 0
    requires ObjectOk(t, first * PAGE, e) && first <= i && i * PAGE < e
    ensures i < |t.ps| - 1 && LargePage(t.ps[i], t.ps[first], from, first - i)
    ensures forall j {:trigger t.ps[j]} :: first <= j < i ==> t.ps[j].used == PAGE
    decreases i
  {
    assert t.InUse(i * PAGE);
    assert i * PAGE / PAGE == i;
    if i > first {
      LargeExtent(t, from, first, e, i - 1);
      NotHeldAfter(t, true, i);
      NotHeldAfter(t, false, i);
      assert PageOk(t.ps, i) && t.ps[i].offset != 0;
    } else {
      NotHeldAt(t, true, i);
      NotHeldAt(t, false, i);
    }
  }

  lemma NotHeldAt(t: Table, k: bool, i: int)
    requires t.Valid() && 0 <= i < |t.ps| && t.ps[i].large
    ensures !t.Of(k).Holds(i * PAGE)
  {
    if t.Of(k).Holds(i * PAGE) {
      HeldIsCovered(t, k, i * PAGE);
    }
  }

  lemma NotHeldAfter(t: Table, k: bool, i: int)
    requires t.Valid() && 0 < i < |t.ps| && t.ps[i - 1].large && t.ps[i].offset != 0
    ensures !t.Of(k).Holds(i * PAGE)
  {
    assert PageOk(t.ps, i) && i * PAGE / PAGE == i;
    var before := t.ps[i - 1];
    if t.Of(k).Holds(i * PAGE) {
      HeldIsCovered(t, k, i * PAGE);
    }
  }

  /** The words of a large object are on its pages. */
  lemma LargeEnd(t: Table, from: nat, first: int, e: int, last: int)
    requires t.Valid() && from != t.gen && Unprotected(t.ps, from)
    requires 0 <= first < |t.ps| && t.ps[first].large && t.ps[first].gen == from && t.ps[first].offset == 0
    requires ObjectOk(t, first * PAGE, e) && first <= last && last * PAGE < e <= (last + 1) * PAGE
    ensures last < |t.ps| - 1 && e <= last * PAGE + t.ps[last].used
  {
    LargeExtent(t, from, first, e, last);
    assert t.InUse(e - 1);
    var x := e - 1;
    assert x / PAGE == last;
    if t.boxed.Holds(x) {
      HeldIsCovered(t, false, x);
    }
    if t.unboxed.Holds(x) {
      HeldIsCovered(t, true, x);
    }
  }

  // ---------- Freeing a generation ----------

  function FreedPage(p: Page, from: nat): Page {
    if p.alloc && p.used != 0 && p.gen == from then p.(alloc := false, used := 0, wp := false) else p
  }

  ghost predicate Frees(t: Table, t2: Table, from: nat) {
    && |t2.ps| == |t.ps| && t2 == t.(ps := t2.ps)
    && (forall i {:trigger t2.ps[i]} :: 0 <= i < |t.ps| ==> t2.ps[i] == FreedPage(t.ps[i], from))
  }

  /** The objects that are not in generation from. */
  function Others(t: Table, objs: map<int, int>, from: nat): map<int, int> {
    map a | a in objs && 0 <= a / PAGE < |t.ps| && t.ps[a / PAGE].gen != from :: objs[a]
  }

  lemma FreeOk(t: Table, t2: Table, from: nat)
    requires t.Valid() && Flushed(t) && Frees(t, t2, from)
    ensures t2.Valid()
  {
    forall i | 0 <= i < |t2.ps| ensures PageOk(t2.ps, i) {
      FreedPageOk(t, t2, from, i);
    }
  }

  lemma FreedPageOk(t: Table, t2: Table, from: nat, i: int)
    requires t.Valid() && Frees(t, t2, from) && 0 <= i < |t2.ps|
    ensures PageOk(t2.ps, i)
  {
    assert PageOk(t.ps, i) && t2.ps[i] == FreedPage(t.ps[i], from);
    if i > 0 {
      assert t2.ps[i - 1] == FreedPage(t.ps[i - 1], from);
    }
  }

  lemma FreeInUse(t: Table, t2: Table, from: nat, x: int)
    requires t.Valid() && Flushed(t) && Frees(t, t2, from)
    ensures t2.InUse(x) <==> t.InUse(x) && t.ps[x / PAGE].gen != from
  {
    var i := x / PAGE;
    if 0 <= i < |t.ps| {
      assert t2.ps[i] == FreedPage(t.ps[i], from) && PageOk(t.ps, i);
    }
  }

  /** An object is on pages of one generation. */
  lemma {:induction false} ObjectGeneration(t: Table, a: int, e: int, x: int)
    requires t.Valid() && Flushed(t) && ObjectOk(t, a, e) && a <= x < e
    ensures 0 <= a / PAGE < |t.ps| && 0 <= x / PAGE < |t.ps| && t.ps[x / PAGE].gen == t.ps[a / PAGE].gen
    decreases x
  {
    assert t.InUse(a) && t.InUse(x);
    var i := x / PAGE;
    if a / PAGE < i {
      ObjectGeneration(t, a, e, Max(a, i * PAGE - 1));
      assert t.ps[i].offset != 0 && PageOk(t.ps, i);
      assert t.InUse(i * PAGE) && i * PAGE / PAGE == i;
    }
  }

  /** The first object on a page is in the generation of the page. */
  lemma {:induction false} HeadGeneration(t: Table, i: int)
    requires t.Valid() && 0 <= i < |t.ps| && t.ps[i].used > 0 && t.ps[i].offset <= 0 <= Head(t.ps, i)
    ensures Head(t.ps, i) / PAGE <= i && t.ps[Head(t.ps, i) / PAGE].gen == t.ps[i].gen
    decreases i
  {
    assert PageOk(t.ps, i);
    if t.ps[i].offset <= -PAGE {
      HeadGeneration(t, i - 1);
    } else if t.ps[i].offset < 0 {
      assert Head(t.ps, i) / PAGE == i - 1;
    }
  }

  lemma FreeObject(t: Table, t2: Table, from: nat, objs: map<int, int>, a: int)
    requires t.Valid() && Flushed(t) && Frees(t, t2, from) && a in Others(t, objs, from)
    requires ObjectOk(t, a, objs[a]) && AloneOk(t, a)
    ensures ObjectOk(t2, a, objs[a]) && AloneOk(t2, a)
  {
    hide PageOk;
    forall x | a <= x < objs[a] ensures t2.InUse(x) {
      ObjectGeneration(t, a, objs[a], x);
      assert t.InUse(x);
      FreeInUse(t, t2, from, x);
    }
    forall i {:trigger t2.ps[i]} | 0 <= i < |t2.ps| && a < i * PAGE < objs[a] ensures t2.ps[i].offset != 0 {
      assert t.ps[i].offset != 0;
    }
    assert t2.ps[a / PAGE] == FreedPage(t.ps[a / PAGE], from);
  }

  lemma FreedHead(t: Table, t2: Table, from: nat, objs: map<int, int>, i: int)
    requires t.Valid() && Flushed(t) && Frees(t, t2, from) && ObjectsOk(t, objs) && 0 <= i < |t2.ps|
    requires t2.ps[i].used > 0
    ensures Head(t2.ps, i) in Others(t, objs, from)
  {
    hide ObjectOk, AloneOk, RegionOk;
    assert t2.ps[i] == FreedPage(t.ps[i], from) && PageOk(t.ps, i);
    var h := Head(t.ps, i);
    assert h in objs;
    HeadBelow(t, objs, i);
    HeadGeneration(t, i);
  }

  lemma HeadBelow(t: Table, objs: map<int, int>, i: int)
    requires t.Valid() && ObjectsOk(t, objs) && 0 <= i < |t.ps| && t.ps[i].used > 0
    ensures t.ps[i].offset <= 0 <= Head(t.ps, i)
  {
    hide RegionOk, AloneOk;
    var h := Head(t.ps, i);
    assert h in objs;
    assert ObjectOk(t, h, objs[h]);
    assert PageOk(t.ps, i);
  }

  lemma FreeObjects(t: Table, t2: Table, from: nat, objs: map<int, int>)
    requires t.Valid() && Flushed(t) && Frees(t, t2, from) && ObjectsOk(t, objs)
    ensures ObjectsOk(t2, Others(t, objs, from))
  {
    hide PageOk, ObjectOk, AloneOk;
    var objs2 := Others(t, objs, from);
    forall a {:trigger a in objs2} | a in objs2 ensures ObjectOk(t2, a, objs2[a]) && AloneOk(t2, a) {
      FreeObject(t, t2, from, objs, a);
    }
    forall i {:trigger t2.ps[i]} | 0 <= i < |t2.ps| && t2.ps[i].used > 0 ensures Head(t2.ps, i) in objs2 {
      FreedHead(t, t2, from, objs, i);
    }
  }

  // ---------- Lowering a generation ----------

  function LoweredPage(p: Page, gen: nat): Page {
    if p.used != 0 && p.gen == NUM_GENERATIONS then p.(gen := gen) else p
  }

  ghost predicate Lowers(t: Table, t2: Table, gen: nat) {
    && |t2.ps| == |t.ps| && t2 == t.(ps := t2.ps) && gen < NUM_GENERATIONS
    && (forall i {:trigger t2.ps[i]} :: 0 <= i < |t.ps| ==> t2.ps[i] == LoweredPage(t.ps[i], gen))
  }

  lemma LowerOk(t: Table, t2: Table, gen: nat)
    requires t.Valid() && Flushed(t) && Lowers(t, t2, gen)
    ensures t2.Valid()
  {
    forall i | 0 <= i < |t2.ps| ensures PageOk(t2.ps, i) {
      LoweredPageOk(t, t2, gen, i);
    }
  }

  lemma LoweredPageOk(t: Table, t2: Table, gen: nat, i: int)
    requires t.Valid() && Lowers(t, t2, gen) && 0 <= i < |t2.ps|
    ensures PageOk(t2.ps, i)
  {
    assert PageOk(t.ps, i) && t2.ps[i] == LoweredPage(t.ps[i], gen);
    if i > 0 {
      assert t2.ps[i - 1] == LoweredPage(t.ps[i - 1], gen);
    }
  }

  lemma LowerObjects(t: Table, t2: Table, gen: nat, objs: map<int, int>)
    requires t.Valid() && Lowers(t, t2, gen) && ObjectsOk(t, objs)
    ensures ObjectsOk(t2, objs)
  {
    hide PageOk, RegionOk, Placed;
    assert Keeps(t, t2) by {
      forall x ensures t2.InUse(x) <==> t.InUse(x) {
        var i := x / PAGE;
        assert 0 <= i < |t.ps| ==> t2.ps[i] == LoweredPage(t.ps[i], gen);
      }
    }
    KeepsPlaced(t, t2, objs);
    forall i {:trigger t2.ps[i]} | 0 <= i < |t2.ps| && t2.ps[i].used > 0 ensures Head(t2.ps, i) in objs {
      assert t.ps[i].used > 0;
    }
  }

  /** What was counted for the temporary generation is counted for the one it is lowered to. */
  lemma {:induction false} LowerSum(t: Table, t2: Table, gen: nat, g: int, n: nat)
    requires t.Valid() && Lowers(t, t2, gen) && n <= |t.ps|
    ensures Sum(t2.ps, g, n) == (if g == NUM_GENERATIONS then 0 else Sum(t.ps, g, n)) +
            (if g == gen then Sum(t.ps, NUM_GENERATIONS, n) else 0)
  {
    if n > 0 {
      LowerSum(t, t2, gen, g, n - 1);
      assert PageOk(t.ps, n - 1) && t2.ps[n - 1] == LoweredPage(t.ps[n - 1], gen);
    }
  }

  /** Once a generation is freed nothing is counted for it. */
  lemma {:induction false} FreeSum(t: Table, t2: Table, from: nat, g: int, n: nat)
    requires t.Valid() && Frees(t, t2, from) && n <= |t.ps|
    ensures Sum(t2.ps, g, n) == (if g == from then 0 else Sum(t.ps, g, n)) -
        (if g == ALL then Sum(t.ps, from, n) else 0)
  {
    if n > 0 {
      FreeSum(t, t2, from, g, n - 1);
      assert PageOk(t.ps, n - 1) && t2.ps[n - 1] == FreedPage(t.ps[n - 1], from);
    }
  }
}
