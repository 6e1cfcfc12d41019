/** The page table of the generational collector, src/lisp/gencgc.c and src/lisp/gencgc.h: what its
    entries mean together, and how opening and closing a region, large allocation, pinning and freeing
    change it.  Sizes and addresses are in 32-bit words from the start of the heap. */
module PageTable {

  const PAGE := 1024
  const SLACK := 8
  const LARGE_OBJECT := 4 * PAGE
  const NUM_GENERATIONS := 6
  const ALL := -1

  /** struct page with its flag bits taken apart. */
  datatype Page = Page(alloc: bool, wp: bool, unboxed: bool, dontMove: bool, large: bool, gen: nat, offset: int,
      used: int)

  /** struct alloc_region: the words from start to end, allocated up to free. */
  datatype Region = Region(start: int, free: int, end: int, first: int, last: int)
  {
    predicate IsReset() {
      first == 0 && last == -1
    }

    predicate Covers(i: int) {
      first <= i <= last
    }

    predicate Holds(x: int) {
      start <= x < free
    }
  }

  const RESET := Region(0, 0, 0, 0, -1)

  function Min(a: int, b: int): int {
    if a < b then a else b
  }

  function Clamp(lo: int, x: int, hi: int): int {
    if x < lo then lo else if hi < x then hi else x
  }

  // ---------- Invariants of the table ----------

  /** If an object or region runs over the start of page i, the page before it is full and like it,
      and has the same first object unless that object starts there. */
  ghost predicate ChainOk(ps: seq<Page>, i: int)
    requires 0 <= i < |ps|
  {
    ps[i].used > 0 && ps[i].offset != 0 ==>
      && ps[i].offset < 0 && i > 0
      && ps[i - 1].alloc && ps[i - 1].used == PAGE
      && ps[i - 1].gen == ps[i].gen && ps[i - 1].unboxed == ps[i].unboxed && ps[i - 1].large == ps[i].large
      && (ps[i].offset <= -PAGE ==> ps[i - 1].offset == ps[i].offset + PAGE)
  }

  ghost predicate PageOk(ps: seq<Page>, i: int)
    requires 0 <= i < |ps|
  {
    && 0 <= ps[i].used <= PAGE && ps[i].gen <= NUM_GENERATIONS
    && (!ps[i].alloc ==> ps[i].used == 0 && !ps[i].wp)
    && (ps[i].alloc && ps[i].large ==> ps[i].offset % PAGE == 0)
    && ChainOk(ps, i)
  }

  predicate RegionPage(p: Page, unboxed: bool, gen: nat) {
    p.alloc && !p.wp && !p.large && p.unboxed == unboxed && p.gen == gen
  }

  /** An open region: the rest of its first page, and whole pages that are not in use otherwise. */
  ghost predicate RegionOk(ps: seq<Page>, r: Region, unboxed: bool, gen: nat) {
    if r.IsReset() then r == RESET
    else
      && 0 <= r.first <= r.last < |ps| - 1
      && r.start == r.first * PAGE + ps[r.first].used <= r.free <= r.end == (r.last + 1) * PAGE
      && ps[r.first].used < PAGE && (ps[r.first].used == 0 ==> ps[r.first].offset == 0)
      && (forall i {:trigger ps[i]} :: r.first <= i <= r.last ==> RegionPage(ps[i], unboxed, gen))
      && (forall i {:trigger ps[i]} :: r.first < i <= r.last ==> ps[i].used == 0 && ps[i].offset == r.start - i * PAGE)
  }

  /** The table with its two regions, the generation they allocate to and the page after the last page in use. */
  datatype Table = Table(ps: seq<Page>, boxed: Region, unboxed: Region, gen: nat, lastFree: int)
  {
    /** There is one entry past the end, which stays free. */
    ghost predicate Valid() {
      && |ps| > 0 && !ps[|ps| - 1].alloc
      && (forall i {:trigger PageOk(ps, i)} :: 0 <= i < |ps| ==> PageOk(ps, i))
      && RegionOk(ps, boxed, false, gen) && RegionOk(ps, unboxed, true, gen)
      && gen <= NUM_GENERATIONS
      && (forall i {:trigger ps[i]} :: 0 <= i < |ps| && ps[i].alloc && ps[i].used == 0 ==>
          boxed.Covers(i) || unboxed.Covers(i))
      && 0 <= lastFree < |ps| && (forall i {:trigger ps[i]} :: lastFree <= i < |ps| ==> !ps[i].alloc)
    }

    /** Word x belongs to something that has been allocated. */
    predicate InUse(x: int) {
      && 0 <= x / PAGE < |ps| && ps[x / PAGE].alloc
      && (x < x / PAGE * PAGE + ps[x / PAGE].used || boxed.Holds(x) || unboxed.Holds(x))
    }

    function Of(kind: bool): Region {
      if kind then unboxed else boxed
    }

    function With(kind: bool, r: Region): Table {
      if kind then this.(unboxed := r) else this.(boxed := r)
    }
  }

  /** The two regions have no page in common. */
  lemma OtherRegion(t: Table, kind: bool, i: int)
    requires t.Valid() && t.Of(kind).Covers(i)
    ensures 0 <= i < |t.ps| - 1 && !t.Of(!kind).Covers(i)
  {
    assert RegionPage(t.ps[i], kind, t.gen);
  }

  lemma RegionBounds(t: Table, kind: bool)
    requires t.Valid()
    ensures 0 <= t.Of(kind).start <= t.Of(kind).free <= t.Of(kind).end <= (|t.ps| - 1) * PAGE
  {
    assert PageOk(t.ps, t.Of(kind).first);
  }

  lemma RegionFacts(t: Table, kind: bool)
    requires t.Valid()
    ensures t.Of(kind).IsReset() ==> t.Of(kind) == RESET
    ensures !t.Of(kind).IsReset() ==>
      var r := t.Of(kind);
      && 0 <= r.first <= r.last < |t.ps| - 1 && 0 <= t.ps[r.first].used < PAGE
      && r.start == r.first * PAGE + t.ps[r.first].used <= r.free <= r.end == (r.last + 1) * PAGE
  {
    assert PageOk(t.ps, t.Of(kind).first);
  }

  lemma HeldIsCovered(t: Table, kind: bool, x: int)
    requires t.Valid() && t.Of(kind).Holds(x)
    ensures t.Of(kind).Covers(x / PAGE) && 0 <= x / PAGE < |t.ps| - 1
    ensures x / PAGE == t.Of(kind).first ==> x / PAGE * PAGE + t.ps[x / PAGE].used <= x
  {
    var r := t.Of(kind);
    assert PageOk(t.ps, r.first);
  }

  // ---------- Counting ----------

  predicate Counted(gen: int, g: int) {
    g == ALL || g == gen
  }

  function Count(p: Page, g: int): int {
    if p.alloc && Counted(p.gen, g) then p.used else 0
  }

  /** The words in use on the first n pages that belong to generation g, or to any generation. */
  ghost function Sum(ps: seq<Page>, g: int, n: nat): int
    requires n <= |ps|
  {
    if n == 0 then 0 else Sum(ps, g, n - 1) + Count(ps[n - 1], g)
  }

  ghost function Bytes(ps: seq<Page>, g: int): int {
    Sum(ps, g, |ps|)
  }

  lemma {:induction false} SumUpdate(ps: seq<Page>, i: int, p: Page, g: int, n: nat)
    requires 0 <= i < |ps| && n <= |ps|
    ensures Sum(ps[i := p], g, n) == Sum(ps, g, n) + (if i < n then Count(p, g) - Count(ps[i], g) else 0)
  {
    if n > 0 {
      SumUpdate(ps, i, p, g, n - 1);
    }
  }

  lemma {:induction false} SumSame(ps: seq<Page>, ps2: seq<Page>, g: int, n: nat)
    requires n <= |ps| == |ps2|
    requires forall i {:trigger ps2[i]} :: 0 <= i < n ==> Count(ps2[i], g) == Count(ps[i], g)
    ensures Sum(ps2, g, n) == Sum(ps, g, n)
  {
    if n > 0 {
      SumSame(ps, ps2, g, n - 1);
    }
  }

  /** How many of the words from lo to hi are on page i. */
  function Share(lo: int, hi: int, i: int): int {
    Clamp(lo, (i + 1) * PAGE, hi) - Clamp(lo, i * PAGE, hi)
  }

  /** The pages count as many more words as there are from lo to hi. */
  lemma {:induction false} SumFill(ps: seq<Page>, ps2: seq<Page>, gen: int, lo: int, hi: int, g: int, n: nat)
    requires n <= |ps| == |ps2| && 0 <= lo <= hi
    requires forall i {:trigger ps2[i]} ::
      0 <= i < n ==> Count(ps2[i], g) == Count(ps[i], g) + (if Counted(gen, g) then Share(lo, hi, i) else 0)
    ensures Sum(ps2, g, n) == Sum(ps, g, n) + (if Counted(gen, g) then Clamp(lo, n * PAGE, hi) - lo else 0)
  {
    if n > 0 {
      SumFill(ps, ps2, gen, lo, hi, g, n - 1);
      assert ps2[n - 1] == ps2[n - 1];
    }
  }

  /** The words in use on all pages are those of generations 0 to k - 1, if there are no others. */
  ghost function SumBelow(ps: seq<Page>, k: nat, n: nat): int
    requires n <= |ps|
  {
    if k == 0 then 0 else SumBelow(ps, k - 1, n) + Sum(ps, k - 1, n)
  }

  lemma {:induction false} SumBelowNext(ps: seq<Page>, k: nat, n: nat)
    requires n < |ps|
    ensures SumBelow(ps, k, n + 1) == SumBelow(ps, k, n) + (if ps[n].alloc && ps[n].gen < k then ps[n].used else 0)
  {
    if k > 0 {
      SumBelowNext(ps, k - 1, n);
    }
  }

  lemma {:induction false} SumBelowNone(ps: seq<Page>, k: nat)
    ensures SumBelow(ps, k, 0) == 0
  {
    if k > 0 {
      SumBelowNone(ps, k - 1);
    }
  }

  /** The global counter is the total of the generations' counters. */
  lemma {:induction false} TotalOfGenerations(ps: seq<Page>, n: nat)
    requires n <= |ps| && forall i {:trigger ps[i]} :: 0 <= i < n ==> ps[i].gen <= NUM_GENERATIONS
    ensures Sum(ps, ALL, n) == SumBelow(ps, NUM_GENERATIONS + 1, n)
  {
    if n == 0 {
      SumBelowNone(ps, NUM_GENERATIONS + 1);
    } else {
      TotalOfGenerations(ps, n - 1);
      SumBelowNext(ps, NUM_GENERATIONS + 1, n - 1);
    }
  }

  // ---------- Closing a region ----------

  /** What closing region r makes of page i: it keeps what lies below the free pointer. */
  function ClosedPage(p: Page, i: int, r: Region): Page {
    if !r.Covers(i) then p
    else if i * PAGE < r.free then p.(used := Min(PAGE, r.free - i * PAGE))
    else p.(alloc := false)
  }

  ghost predicate Closes(t: Table, t2: Table, kind: bool) {
    && |t2.ps| == |t.ps|
    && t2 == t.With(kind, RESET).(ps := t2.ps)
    && (forall i {:trigger t2.ps[i]} :: 0 <= i < |t.ps| ==> t2.ps[i] == ClosedPage(t.ps[i], i, t.Of(kind)))
  }

  lemma ClosedPageOk(t: Table, t2: Table, kind: bool, i: int)
    requires t.Valid() && Closes(t, t2, kind) && 0 <= i < |t.ps|
    ensures PageOk(t2.ps, i)
  {
    var r := t.Of(kind);
    assert PageOk(t.ps, i);
    if i > 0 {
      assert PageOk(t.ps, i - 1);
      assert t2.ps[i - 1] == ClosedPage(t.ps[i - 1], i - 1, r);
    }
  }

  lemma OtherRegionStays(t: Table, t2: Table, kind: bool)
    requires t.Valid() && Closes(t, t2, kind)
    ensures RegionOk(t2.ps, t.Of(!kind), !kind, t.gen)
  {
    var r := t.Of(!kind);
    if !r.IsReset() {
      forall i {:trigger t2.ps[i]} | r.first <= i <= r.last ensures t2.ps[i] == t.ps[i] {
        OtherRegion(t, !kind, i);
      }
    }
  }

  lemma CloseOk(t: Table, t2: Table, kind: bool)
    requires t.Valid() && Closes(t, t2, kind)
    ensures t2.Valid()
  {
    forall i | 0 <= i < |t2.ps| ensures PageOk(t2.ps, i) {
      ClosedPageOk(t, t2, kind, i);
    }
    OtherRegionStays(t, t2, kind);
  }

  /** Closing a region changes nothing about which words are in use. */
  lemma CloseInUse(t: Table, t2: Table, kind: bool, x: int)
    requires t.Valid() && Closes(t, t2, kind)
    ensures t2.InUse(x) <==> t.InUse(x)
  {
    var i := x / PAGE;
    if 0 <= i < |t.ps| {
      CloseInUseOn(t, t2, kind, x, i);
    }
  }

  lemma CloseInUseOn(t: Table, t2: Table, kind: bool, x: int, i: int)
    requires t.Valid() && Closes(t, t2, kind) && 0 <= i < |t.ps| && i == x / PAGE
    ensures t2.InUse(x) <==> t.InUse(x)
  {
    var r := t.Of(kind);
    assert t2.ps[i] == ClosedPage(t.ps[i], i, r) && PageOk(t.ps, i);
    if r.Holds(x) {
      HeldIsCovered(t, kind, x);
    }
    if t.Of(!kind).Holds(x) {
      HeldIsCovered(t, !kind, x);
    }
    if r.Covers(i) {
      OtherRegion(t, kind, i);
      assert RegionPage(t.ps[i], kind, t.gen);
      assert t.InUse(x) <==> x < r.free;
    }
  }

  lemma ClosedCount(t: Table, t2: Table, kind: bool, g: int, i: int)
    requires t.Valid() && Closes(t, t2, kind) && 0 <= i < |t.ps|
    ensures Count(t2.ps[i], g) == Count(t.ps[i], g) + (if Counted(t.gen, g) then Share(t.Of(kind).start,
        t.Of(kind).free, i) else 0)
  {
    var r := t.Of(kind);
    assert PageOk(t.ps, i) && t2.ps[i] == ClosedPage(t.ps[i], i, r);
    if r.Covers(i) {
      assert RegionPage(t.ps[i], kind, t.gen);
    } else if !r.IsReset() {
      assert PageOk(t.ps, r.first);
      assert i < r.first || r.last < i;
    }
  }

  /** What is counted when a region is closed: the words allocated from it. */
  lemma CloseSum(t: Table, t2: Table, kind: bool, g: int)
    requires t.Valid() && Closes(t, t2, kind)
    ensures Bytes(t2.ps, g) == Bytes(t.ps, g) + (if Counted(t.gen, g) then t.Of(kind).free - t.Of(kind).start else 0)
  {
    hide Share, Count, PageOk;
    var r := t.Of(kind);
    forall i {:trigger t2.ps[i]} | 0 <= i < |t.ps|
      ensures Count(t2.ps[i], g) == Count(t.ps[i], g) + (if Counted(t.gen, g) then Share(r.start, r.free, i) else 0)
    {
      ClosedCount(t, t2, kind, g, i);
    }
    RegionBounds(t, kind);
    SumFill(t.ps, t2.ps, t.gen, r.start, r.free, g, |t.ps|);
  }

  // ---------- Opening a region ----------

  /** A page where small objects of the kind and generation can go: a free one, or one with room left. */
  predicate Candidate(p: Page, unboxed: bool, gen: nat) {
    !p.alloc || (RegionPage(p, unboxed, gen) && !p.dontMove && p.used < PAGE - SLACK)
  }

  function OpenedPage(p: Page, i: int, r: Region, unboxed: bool, gen: nat): Page {
    if !r.Covers(i) then p
    else if i == r.first then if p.used == 0 then Page(true, false, unboxed, false, false, gen, 0, 0) else p
    else p.(alloc := true, large := false, unboxed := unboxed, gen := gen, offset := r.start - i * PAGE)
  }

  /** Pages first to last can be taken: the rest of the first one, and the others as a whole. */
  ghost predicate Takeable(ps: seq<Page>, first: int, last: int, unboxed: bool, gen: nat) {
    && 0 <= first <= last < |ps| - 1 && Candidate(ps[first], unboxed, gen)
    && (forall i {:trigger ps[i]} :: first < i <= last ==> !ps[i].alloc)
  }

  function NewRegion(ps: seq<Page>, first: int, last: int): Region
    requires 0 <= first < |ps|
  {
    var start := first * PAGE + ps[first].used;
    Region(start, start, (last + 1) * PAGE, first, last)
  }

  function Max(a: int, b: int): int {
    if a < b then b else a
  }

  ghost predicate Opens(t: Table, t2: Table, kind: bool, first: int, last: int) {
    && t.Of(kind) == RESET && Takeable(t.ps, first, last, kind, t.gen)
    && |t2.ps| == |t.ps|
    && t2 == t.With(kind, NewRegion(t.ps, first, last)).(ps := t2.ps, lastFree := Max(t.lastFree, last + 1))
    && (forall i {:trigger t2.ps[i]} :: 0 <= i < |t.ps| ==>
        t2.ps[i] == OpenedPage(t.ps[i], i, t2.Of(kind), kind, t.gen))
  }

  /** A page taken for a region was not in the other region. */
  lemma TakenIsApart(t: Table, kind: bool, first: int, last: int, i: int)
    requires t.Valid() && Takeable(t.ps, first, last, kind, t.gen) && first <= i <= last && !t.Of(kind).Covers(first)
    ensures !t.Of(!kind).Covers(i) && (t.ps[i].used == 0 ==> !t.ps[i].alloc)
    ensures !t.ps[i].alloc || i == first
  {
    assert t.Of(!kind).Covers(i) ==> RegionPage(t.ps[i], !kind, t.gen);
  }

  lemma OpenedPageOk(t: Table, t2: Table, kind: bool, first: int, last: int, i: int)
    requires t.Valid() && Opens(t, t2, kind, first, last) && 0 <= i < |t.ps|
    ensures PageOk(t2.ps, i)
  {
    var r := t2.Of(kind);
    assert PageOk(t.ps, i) && t2.ps[i] == OpenedPage(t.ps[i], i, r, kind, t.gen);
    if first <= i <= last {
      TakenIsApart(t, kind, first, last, i);
    }
    if i > 0 {
      assert PageOk(t.ps, i - 1) && t2.ps[i - 1] == OpenedPage(t.ps[i - 1], i - 1, r, kind, t.gen);
      if first <= i - 1 <= last {
        TakenIsApart(t, kind, first, last, i - 1);
      }
    }
  }

  lemma OpenOtherStays(t: Table, t2: Table, kind: bool, first: int, last: int)
    requires t.Valid() && Opens(t, t2, kind, first, last)
    ensures RegionOk(t2.ps, t.Of(!kind), !kind, t.gen)
  {
    hide PageOk;
    var r := t.Of(!kind);
    if !r.IsReset() {
      forall i {:trigger t2.ps[i]} | r.first <= i <= r.last ensures t2.ps[i] == t.ps[i] {
        if first <= i <= last {
          TakenIsApart(t, kind, first, last, i);
        }
      }
    }
  }

  lemma OpenNewOk(t: Table, t2: Table, kind: bool, first: int, last: int)
    requires t.Valid() && Opens(t, t2, kind, first, last)
    ensures RegionOk(t2.ps, t2.Of(kind), kind, t.gen)
  {
    var r := t2.Of(kind);
    assert PageOk(t.ps, first);
    TakenIsApart(t, kind, first, last, first);
    assert t2.ps[first] == OpenedPage(t.ps[first], first, r, kind, t.gen);
    forall i {:trigger t2.ps[i]} | first < i <= last
      ensures RegionPage(t2.ps[i], kind, t.gen) && t2.ps[i].used == 0 && t2.ps[i].offset == r.start - i * PAGE
    {
      assert PageOk(t.ps, i);
    }
  }

  lemma OpenOk(t: Table, t2: Table, kind: bool, first: int, last: int)
    requires t.Valid() && Opens(t, t2, kind, first, last)
    ensures t2.Valid()
  {
    hide PageOk, RegionOk, Candidate;
    forall i | 0 <= i < |t2.ps| ensures PageOk(t2.ps, i) {
      OpenedPageOk(t, t2, kind, first, last, i);
    }
    OpenOtherStays(t, t2, kind, first, last);
    OpenNewOk(t, t2, kind, first, last);
    forall i {:trigger t2.ps[i]} | 0 <= i < |t2.ps| && t2.ps[i].alloc && t2.ps[i].used == 0
      ensures t2.boxed.Covers(i) || t2.unboxed.Covers(i)
    {
      assert t2.ps[i] == OpenedPage(t.ps[i], i, t2.Of(kind), kind, t.gen);
    }
  }

  lemma OpenInUse(t: Table, t2: Table, kind: bool, first: int, last: int, x: int)
    requires t.Valid() && Opens(t, t2, kind, first, last)
    ensures t2.InUse(x) <==> t.InUse(x)
  {
    var i := x / PAGE;
    if 0 <= i < |t.ps| {
      OpenInUseOn(t, t2, kind, first, last, x, i);
    }
  }

  lemma OpenInUseOn(t: Table, t2: Table, kind: bool, first: int, last: int, x: int, i: int)
    requires t.Valid() && Opens(t, t2, kind, first, last) && 0 <= i < |t.ps| && i == x / PAGE
    ensures t2.InUse(x) <==> t.InUse(x)
  {
    assert t2.ps[i] == OpenedPage(t.ps[i], i, t2.Of(kind), kind, t.gen) && PageOk(t.ps, i);
    if t.Of(!kind).Holds(x) {
      HeldIsCovered(t, !kind, x);
    }
    if first <= i <= last {
      TakenIsApart(t, kind, first, last, i);
    }
  }

  lemma OpenSum(t: Table, t2: Table, kind: bool, first: int, last: int, g: int)
    requires t.Valid() && Opens(t, t2, kind, first, last)
    ensures Bytes(t2.ps, g) == Bytes(t.ps, g)
  {
    forall i {:trigger t2.ps[i]} | 0 <= i < |t.ps| ensures Count(t2.ps[i], g) == Count(t.ps[i], g) {
      assert PageOk(t.ps, i);
      if first <= i <= last {
        TakenIsApart(t, kind, first, last, i);
      }
    }
    SumSame(t.ps, t2.ps, g, |t.ps|);
  }

  // ---------- Allocating in a region ----------

  ghost predicate Bumps(t: Table, t2: Table, kind: bool, n: int) {
    && n >= 0 && !t.Of(kind).IsReset() && t.Of(kind).free + n <= t.Of(kind).end
    && t2 == t.With(kind, t.Of(kind).(free := t.Of(kind).free + n))
  }

  lemma BumpOk(t: Table, t2: Table, kind: bool, n: int)
    requires t.Valid() && Bumps(t, t2, kind, n)
    ensures t2.Valid()
  {
  }

  /** The words from a up to b were not in use and now are; nothing else has changed. */
  ghost predicate Gains(t: Table, t2: Table, a: int, b: int) {
    && (forall x {:trigger t2.InUse(x)} :: t2.InUse(x) <==> t.InUse(x) || a <= x < b)
    && (forall x {:trigger t.InUse(x)} :: a <= x < b ==> !t.InUse(x))
  }

  /** The same words are in use. */
  ghost predicate SameWords(t: Table, t2: Table) {
    forall x {:trigger t2.InUse(x)} {:trigger t.InUse(x)} :: t2.InUse(x) <==> t.InUse(x)
  }

  lemma GainsThenSame(t: Table, t1: Table, t2: Table, a: int, b: int)
    requires Gains(t, t1, a, b) && SameWords(t1, t2)
    ensures Gains(t, t2, a, b)
  {
  }

  lemma SameThenGains(t: Table, t1: Table, t2: Table, a: int, b: int)
    requires SameWords(t, t1) && Gains(t1, t2, a, b)
    ensures Gains(t, t2, a, b)
  {
  }

  lemma BumpGains(t: Table, t2: Table, kind: bool, n: int)
    requires t.Valid() && Bumps(t, t2, kind, n)
    ensures Gains(t, t2, t.Of(kind).free, t.Of(kind).free + n)
  {
    hide RegionOk, PageOk;
    BumpOk(t, t2, kind, n);
    var r := t.Of(kind);
    forall x ensures t2.InUse(x) <==> t.InUse(x) || r.free <= x < r.free + n
             ensures r.free <= x < r.free + n ==> !t.InUse(x)
    {
      BumpInUse(t, t2, kind, n, x);
    }
  }

  lemma BumpInUse(t: Table, t2: Table, kind: bool, n: int, x: int)
    requires t.Valid() && Bumps(t, t2, kind, n)
    ensures t2.InUse(x) <==> t.InUse(x) || t.Of(kind).free <= x < t.Of(kind).free + n
    ensures t.Of(kind).free <= x < t.Of(kind).free + n ==> !t.InUse(x)
  {
    var r := t.Of(kind);
    if r.free <= x < r.free + n {
      BumpOk(t, t2, kind, n);
      HeldIsCovered(t2, kind, x);
      OtherRegion(t, kind, x / PAGE);
      if t.Of(!kind).Holds(x) {
        HeldIsCovered(t, !kind, x);
      }
    }
  }

  // ---------- Large allocation ----------

  /** Page i after n words from start have been allocated, beginning on page first. */
  function TakenPage(p: Page, i: int, first: int, start: int, n: int, unboxed: bool, gen: nat, large: bool): Page {
    if i < first || start + n <= i * PAGE then p
    else
      var used := Min(PAGE, start + n - i * PAGE);
      if i == first then if p.used == 0 then Page(true, false, unboxed, false, large, gen, 0,
          used) else p.(used := used)
      else Page(true, false, unboxed, false, large, gen, start - i * PAGE, used)
  }

  ghost predicate Takes(t: Table, t2: Table, kind: bool, first: int, last: int, n: int, large: bool) {
    && Takeable(t.ps, first, last, kind, t.gen) && t.Of(kind).last < first
    && (large ==> !t.ps[first].alloc)
    && n > 0 && first * PAGE + t.ps[first].used + n <= (last + 1) * PAGE
    && |t2.ps| == |t.ps|
    && t2 == t.(ps := t2.ps, lastFree := Max(t.lastFree, last + 1))
    && (forall i {:trigger t2.ps[i]} :: 0 <= i < |t.ps| ==>
          t2.ps[i] == TakenPage(t.ps[i], i, first, first * PAGE + t.ps[first].used, n, kind, t.gen, large))
  }

  lemma TakenChainOk(t: Table, t2: Table, kind: bool, first: int, last: int, n: int, large: bool, i: int)
    requires t.Valid() && Takes(t, t2, kind, first, last, n, large) && 0 < i < |t.ps|
    ensures ChainOk(t2.ps, i)
  {
    var start := first * PAGE + t.ps[first].used;
    assert ChainOk(t.ps, i) by {
      assert PageOk(t.ps, i);
    }
    assert PageOk(t.ps, first);
    assert t2.ps[i] == TakenPage(t.ps[i], i, first, start, n, kind, t.gen, large);
    assert t2.ps[i - 1] == TakenPage(t.ps[i - 1], i - 1, first, start, n, kind, t.gen, large);
    if first <= i - 1 <= last {
      assert PageOk(t.ps, i - 1);
      TakenIsApart(t, kind, first, last, i - 1);
    }
    if first <= i <= last {
      TakenIsApart(t, kind, first, last, i);
    }
  }

  lemma TakenPageOk(t: Table, t2: Table, kind: bool, first: int, last: int, n: int, large: bool, i: int)
    requires t.Valid() && Takes(t, t2, kind, first, last, n, large) && 0 <= i < |t.ps|
    ensures PageOk(t2.ps, i)
    ensures t2.ps[i].alloc && t2.ps[i].used == 0 ==> t2.ps[i] == t.ps[i]
  {
    hide ChainOk;
    var start := first * PAGE + t.ps[first].used;
    assert PageOk(t.ps, i) && PageOk(t.ps, first);
    assert t2.ps[i] == TakenPage(t.ps[i], i, first, start, n, kind, t.gen, large);
    TakenIsApart(t, kind, first, last, first);
    if i > 0 {
      TakenChainOk(t, t2, kind, first, last, n, large, i);
    } else {
      FirstChain(t.ps, t2.ps);
    }
  }

  lemma FirstChain(ps: seq<Page>, ps2: seq<Page>)
    requires |ps| > 0 && |ps2| > 0 && ChainOk(ps, 0)
    requires ps2[0].offset == 0 || (ps2[0].offset == ps[0].offset && (ps2[0].used > 0 ==> ps[0].used > 0))
    ensures ChainOk(ps2, 0)
  {
  }

  lemma TakeRegionStays(t: Table, t2: Table, kind: bool, first: int, last: int, n: int, large: bool, k: bool)
    requires t.Valid() && Takes(t, t2, kind, first, last, n, large)
    ensures RegionOk(t2.ps, t.Of(k), k, t.gen)
  {
    hide PageOk;
    var r := t.Of(k);
    if !r.IsReset() {
      forall i {:trigger t2.ps[i]} | r.first <= i <= r.last ensures t2.ps[i] == t.ps[i] {
        if first <= i <= last {
          TakenIsApart(t, kind, first, last, i);
        }
      }
    }
  }

  lemma TakeOk(t: Table, t2: Table, kind: bool, first: int, last: int, n: int, large: bool)
    requires t.Valid() && Takes(t, t2, kind, first, last, n, large)
    ensures t2.Valid()
  {
    hide PageOk, RegionOk, Candidate;
    forall i | 0 <= i < |t2.ps| ensures PageOk(t2.ps, i) {
      TakenPageOk(t, t2, kind, first, last, n, large, i);
    }
    TakeRegionStays(t, t2, kind, first, last, n, large, kind);
    TakeRegionStays(t, t2, kind, first, last, n, large, !kind);
    forall i {:trigger t2.ps[i]} | 0 <= i < |t2.ps| && t2.ps[i].alloc && t2.ps[i].used == 0
      ensures t2.boxed.Covers(i) || t2.unboxed.Covers(i)
    {
      TakenPageOk(t, t2, kind, first, last, n, large, i);
    }
  }

  lemma TakeInUseOn(t: Table, t2: Table, kind: bool, first: int, last: int, n: int, large: bool, x: int, i: int)
    requires t.Valid() && Takes(t, t2, kind, first, last, n, large) && 0 <= i < |t.ps| && i == x / PAGE
    ensures t2.InUse(x) <==> t.InUse(x) || first * PAGE + t.ps[first].used <= x < first * PAGE + t.ps[first].used + n
    ensures first * PAGE + t.ps[first].used <= x < first * PAGE + t.ps[first].used + n ==> !t.InUse(x)
  {
    var start := first * PAGE + t.ps[first].used;
    assert t2.ps[i] == TakenPage(t.ps[i], i, first, start, n, kind, t.gen, large);
    assert PageOk(t.ps, i) && PageOk(t.ps, first);
    if t.Of(!kind).Holds(x) {
      HeldIsCovered(t, !kind, x);
    }
    if t.Of(kind).Holds(x) {
      HeldIsCovered(t, kind, x);
    }
    if first <= i <= last {
      TakenIsApart(t, kind, first, last, i);
    }
  }

  lemma TakeGains(t: Table, t2: Table, kind: bool, first: int, last: int, n: int, large: bool)
    requires t.Valid() && Takes(t, t2, kind, first, last, n, large)
    ensures Gains(t, t2, first * PAGE + t.ps[first].used, first * PAGE + t.ps[first].used + n)
  {
    hide RegionOk, Candidate;
    var start := first * PAGE + t.ps[first].used;
    assert PageOk(t.ps, first);
    forall x ensures t2.InUse(x) <==> t.InUse(x) || start <= x < start + n
             ensures start <= x < start + n ==> !t.InUse(x)
    {
      if 0 <= x / PAGE < |t.ps| {
        TakeInUseOn(t, t2, kind, first, last, n, large, x, x / PAGE);
      }
    }
  }

  lemma TakenCount(t: Table, t2: Table, kind: bool, first: int, last: int, n: int, large: bool, g: int, i: int)
    requires t.Valid() && Takes(t, t2, kind, first, last, n, large) && 0 <= i < |t.ps|
    ensures Count(t2.ps[i], g) == Count(t.ps[i], g) +
            (if Counted(t.gen, g) then Share(first * PAGE + t.ps[first].used, first * PAGE + t.ps[first].used + n,
                i) else 0)
  {
    var start := first * PAGE + t.ps[first].used;
    assert t2.ps[i] == TakenPage(t.ps[i], i, first, start, n, kind, t.gen, large);
    assert PageOk(t.ps, i) && PageOk(t.ps, first);
    TakenIsApart(t, kind, first, last, first);
  }

  lemma TakeSum(t: Table, t2: Table, kind: bool, first: int, last: int, n: int, large: bool, g: int)
    requires t.Valid() && Takes(t, t2, kind, first, last, n, large)
    ensures Bytes(t2.ps, g) == Bytes(t.ps, g) + (if Counted(t.gen, g) then n else 0)
  {
    hide Share, Count, RegionOk, Candidate, TakenPage;
    var start := first * PAGE + t.ps[first].used;
    assert PageOk(t.ps, first);
    forall i {:trigger t2.ps[i]} | 0 <= i < |t.ps|
      ensures Count(t2.ps[i], g) == Count(t.ps[i], g) + (if Counted(t.gen, g) then Share(start, start + n, i) else 0)
    {
      TakenCount(t, t2, kind, first, last, n, large, g, i);
    }
    SumFill(t.ps, t2.ps, t.gen, start, start + n, g, |t.ps|);
  }
}
