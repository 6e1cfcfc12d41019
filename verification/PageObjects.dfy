/** Objects in the pages of the generational collector: the page table says where they begin, so that
    whole objects can be found, pinned and freed by page. */
module PageObjects {
  import opened PageTable

  // ---------- Objects ----------

  /** Where the object or region begins that is the first one on page i. */
  function Head(ps: seq<Page>, i: int): int
    requires 0 <= i < |ps|
  {
    i * PAGE + ps[i].offset
  }

  /** The words from a up to e are in use, and the pages in between say that something runs over their starts. */
  ghost predicate ObjectOk(t: Table, a: int, e: int) {
    && 0 <= a < e
    && (forall x {:trigger t.InUse(x)} :: a <= x < e ==> t.InUse(x))
    && (forall i {:trigger t.ps[i]} :: 0 <= i < |t.ps| && a < i * PAGE < e ==> t.ps[i].offset != 0)
  }

  /** The objects, from start to end, have no word in common; on the pages of a large one there are no others. */
  ghost predicate Placed(t: Table, objs: map<int, int>) {
    && (forall a {:trigger a in objs} :: a in objs ==> ObjectOk(t, a, objs[a]))
    && (forall a, b {:trigger a in objs, b in objs} :: a in objs && b in objs && a < b ==> objs[a] <= b)
    && (forall a {:trigger a in objs} :: a in objs ==> AloneOk(t, a))
  }

  ghost predicate AloneOk(t: Table, a: int) {
    0 <= a / PAGE < |t.ps| && t.ps[a / PAGE].large ==> a % PAGE == 0 && t.ps[a / PAGE].offset == 0
  }

  /** The address of a page plus its offset is the start of an object. */
  ghost predicate Headed(t: Table, objs: map<int, int>) {
    && (forall i {:trigger t.ps[i]} :: 0 <= i < |t.ps| && t.ps[i].used > 0 ==> Head(t.ps, i) in objs)
    && (t.boxed.start < t.boxed.free ==> t.boxed.start in objs)
    && (t.unboxed.start < t.unboxed.free ==> t.unboxed.start in objs)
  }

  ghost predicate ObjectsOk(t: Table, objs: map<int, int>) {
    Placed(t, objs) && Headed(t, objs)
  }

  /** The object at a is an unboxed one: it is on unboxed pages, or its words are raw. */
  predicate IsUnboxed(ps: seq<Page>, raw: set<int>, a: int) {
    a in raw || (0 <= a / PAGE < |ps| && ps[a / PAGE].unboxed)
  }

  /** Pages whose first word is in use keep what they say about the objects on them. */
  ghost predicate Keeps(t: Table, t2: Table) {
    && |t2.ps| == |t.ps|
    && (forall x {:trigger t2.InUse(x)} :: t.InUse(x) ==> t2.InUse(x))
    && (forall i {:trigger t2.ps[i]} :: 0 <= i < |t.ps| && t.InUse(i * PAGE) ==>
          t2.ps[i].offset == t.ps[i].offset && t2.ps[i].large == t.ps[i].large)
  }

  lemma StartInUse(t: Table, x: int)
    requires t.Valid() && t.InUse(x)
    ensures t.InUse(x / PAGE * PAGE)
  {
    var i := x / PAGE;
    var y := i * PAGE;
    assert y / PAGE == i;
    assert PageOk(t.ps, i);
    if t.Of(true).Holds(x) {
      HeldIsCovered(t, true, x);
      assert PageOk(t.ps, t.unboxed.first);
    }
    if t.Of(false).Holds(x) {
      HeldIsCovered(t, false, x);
      assert PageOk(t.ps, t.boxed.first);
    }
  }

  lemma KeepsPlaced(t: Table, t2: Table, objs: map<int, int>)
    requires t.Valid() && Keeps(t, t2) && Placed(t, objs)
    ensures Placed(t2, objs)
  {
    forall a {:trigger a in objs} | a in objs ensures ObjectOk(t2, a, objs[a]) && AloneOk(t2, a) {
      KeepsObject(t, t2, a, objs[a]);
    }
  }

  lemma KeepsObject(t: Table, t2: Table, a: int, e: int)
    requires t.Valid() && Keeps(t, t2) && ObjectOk(t, a, e) && AloneOk(t, a)
    ensures ObjectOk(t2, a, e) && AloneOk(t2, a)
  {
    assert t.InUse(a);
    StartInUse(t, a);
    assert t2.ps[a / PAGE] == t2.ps[a / PAGE];
    forall x | a <= x < e ensures t2.InUse(x) {
      assert t.InUse(x);
    }
    forall i {:trigger t2.ps[i]} | 0 <= i < |t2.ps| && a < i * PAGE < e ensures t2.ps[i].offset != 0 {
      assert t.InUse(i * PAGE) && t.ps[i].offset != 0;
    }
  }

  /** A new object in words that were not in use keeps clear of the others. */
  lemma AddPlaced(t: Table, t2: Table, objs: map<int, int>, a: int, e: int)
    requires t.Valid() && Keeps(t, t2) && Placed(t, objs)
    requires ObjectOk(t2, a, e) && AloneOk(t2, a) && forall x {:trigger t.InUse(x)} :: a <= x < e ==> !t.InUse(x)
    ensures a !in objs && Placed(t2, objs[a := e])
  {
    hide AloneOk;
    KeepsPlaced(t, t2, objs);
    forall b {:trigger b in objs} | b in objs ensures objs[b] <= a || e <= b {
      assert ObjectOk(t, b, objs[b]);
      assert t.InUse(b) && (b <= a < objs[b] ==> t.InUse(a));
    }
  }

  lemma CloseObjects(t: Table, t2: Table, kind: bool, objs: map<int, int>)
    requires t.Valid() && Closes(t, t2, kind) && ObjectsOk(t, objs)
    ensures ObjectsOk(t2, objs)
  {
    assert Keeps(t, t2) by {
      hide PageOk, RegionOk;
      forall x ensures t2.InUse(x) <==> t.InUse(x) {
        CloseInUse(t, t2, kind, x);
      }
    }
    KeepsPlaced(t, t2, objs);
    forall i {:trigger t2.ps[i]} | 0 <= i < |t2.ps| && t2.ps[i].used > 0 ensures Head(t2.ps, i) in objs {
      ClosedHead(t, t2, kind, objs, i);
    }
  }

  lemma ClosedHead(t: Table, t2: Table, kind: bool, objs: map<int, int>, i: int)
    requires t.Valid() && Closes(t, t2, kind) && Headed(t, objs) && 0 <= i < |t2.ps| && t2.ps[i].used > 0
    ensures Head(t2.ps, i) in objs
  {
    var r := t.Of(kind);
    assert t2.ps[i] == ClosedPage(t.ps[i], i, r);
    assert PageOk(t.ps, i);
    if r.Covers(i) && t.ps[i].used == 0 {
      assert Head(t2.ps, i) == r.start && r.start < r.free;
    }
  }

  lemma OpenKeepsAll(t: Table, t2: Table, kind: bool, first: int, last: int)
    requires t.Valid() && Opens(t, t2, kind, first, last)
    ensures Keeps(t, t2)
  {
    hide PageOk, RegionOk, OpenedPage;
    forall x ensures t2.InUse(x) <==> t.InUse(x) {
      OpenInUse(t, t2, kind, first, last, x);
    }
    forall i {:trigger t2.ps[i]} | 0 <= i < |t.ps| && t.InUse(i * PAGE)
      ensures t2.ps[i].offset == t.ps[i].offset && t2.ps[i].large == t.ps[i].large
    {
      OpenKeeps(t, t2, kind, first, last, i);
    }
  }

  lemma OpenObjects(t: Table, t2: Table, kind: bool, first: int, last: int, objs: map<int, int>)
    requires t.Valid() && Opens(t, t2, kind, first, last) && ObjectsOk(t, objs)
    ensures ObjectsOk(t2, objs)
  {
    hide Placed, RegionOk, Candidate;
    OpenKeepsAll(t, t2, kind, first, last);
    KeepsPlaced(t, t2, objs);
    forall i {:trigger t2.ps[i]} | 0 <= i < |t2.ps| && t2.ps[i].used > 0 ensures Head(t2.ps, i) in objs {
      assert PageOk(t.ps, i) && t2.ps[i] == OpenedPage(t.ps[i], i, t2.Of(kind), kind, t.gen);
    }
  }

  lemma OpenKeeps(t: Table, t2: Table, kind: bool, first: int, last: int, i: int)
    requires t.Valid() && Opens(t, t2, kind, first, last) && 0 <= i < |t.ps| && t.InUse(i * PAGE)
    ensures t2.ps[i].offset == t.ps[i].offset && t2.ps[i].large == t.ps[i].large
  {
    assert i * PAGE / PAGE == i;
    assert t2.ps[i] == OpenedPage(t.ps[i], i, t2.Of(kind), kind, t.gen);
    if first <= i <= last {
      TakenIsApart(t, kind, first, last, i);
    }
  }

  lemma BumpObjects(t: Table, t2: Table, kind: bool, n: int, objs: map<int, int>)
    requires t.Valid() && Bumps(t, t2, kind, n) && n > 0 && ObjectsOk(t, objs)
    ensures t.Of(kind).free !in objs && ObjectsOk(t2, objs[t.Of(kind).free := t.Of(kind).free + n])
  {
    hide Placed, ObjectOk, AloneOk, RegionOk, PageOk;
    BumpGains(t, t2, kind, n);
    BumpedObject(t, t2, kind, n);
    AddPlaced(t, t2, objs, t.Of(kind).free, t.Of(kind).free + n);
    RegionBounds(t, kind);
  }

  lemma BumpedObject(t: Table, t2: Table, kind: bool, n: int)
    requires t.Valid() && Bumps(t, t2, kind, n) && n > 0 && Gains(t, t2, t.Of(kind).free, t.Of(kind).free + n)
    ensures ObjectOk(t2, t.Of(kind).free, t.Of(kind).free + n) && AloneOk(t2, t.Of(kind).free)
  {
    var r := t.Of(kind);
    assert PageOk(t.ps, r.first);
    var i := r.free / PAGE;
    assert r.Covers(i);
    assert RegionPage(t.ps[i], kind, t.gen);
  }

  lemma TakeKeepsAll(t: Table, t2: Table, kind: bool, first: int, last: int, n: int, large: bool)
    requires t.Valid() && Takes(t, t2, kind, first, last, n, large)
    ensures Keeps(t, t2)
  {
    hide PageOk, RegionOk, TakenPage;
    TakeGains(t, t2, kind, first, last, n, large);
    forall i {:trigger t2.ps[i]} | 0 <= i < |t.ps| && t.InUse(i * PAGE)
      ensures t2.ps[i].offset == t.ps[i].offset && t2.ps[i].large == t.ps[i].large
    {
      TakeKeeps(t, t2, kind, first, last, n, large, i);
    }
  }

  lemma TakenHead(t: Table, t2: Table, kind: bool, first: int, last: int, n: int, large: bool, i: int)
    requires t.Valid() && Takes(t, t2, kind, first, last, n, large) && 0 <= i < |t.ps| && t2.ps[i].used > 0
    ensures Head(t2.ps, i) == first * PAGE + t.ps[first].used || (t.ps[i].used > 0 && Head(t2.ps, i) == Head(t.ps, i))
  {
    var start := first * PAGE + t.ps[first].used;
    assert PageOk(t.ps, i) && t2.ps[i] == TakenPage(t.ps[i], i, first, start, n, kind, t.gen, large);
    TakenIsApart(t, kind, first, last, first);
  }

  lemma TakeObjects(t: Table, t2: Table, kind: bool, first: int, last: int, n: int, large: bool, objs: map<int, int>)
    requires t.Valid() && Takes(t, t2, kind, first, last, n, large) && ObjectsOk(t, objs)
    ensures first * PAGE + t.ps[first].used !in objs
    ensures ObjectsOk(t2, objs[first * PAGE + t.ps[first].used := first * PAGE + t.ps[first].used + n])
  {
    hide RegionOk, Candidate, PageOk, Placed, ObjectOk, AloneOk;
    var start := first * PAGE + t.ps[first].used;
    TakeKeepsAll(t, t2, kind, first, last, n, large);
    TakeGains(t, t2, kind, first, last, n, large);
    TakenObject(t, t2, kind, first, last, n, large);
    AddPlaced(t, t2, objs, start, start + n);
    forall i {:trigger t2.ps[i]} | 0 <= i < |t2.ps| && t2.ps[i].used > 0
      ensures Head(t2.ps, i) == start || Head(t2.ps, i) in objs
    {
      TakenHead(t, t2, kind, first, last, n, large, i);
    }
  }

  lemma TakeKeeps(t: Table, t2: Table, kind: bool, first: int, last: int, n: int, large: bool, i: int)
    requires t.Valid() && Takes(t, t2, kind, first, last, n, large) && 0 <= i < |t.ps| && t.InUse(i * PAGE)
    ensures t2.ps[i].offset == t.ps[i].offset && t2.ps[i].large == t.ps[i].large
  {
    var start := first * PAGE + t.ps[first].used;
    assert i * PAGE / PAGE == i;
    assert t2.ps[i] == TakenPage(t.ps[i], i, first, start, n, kind, t.gen, large);
    if first <= i <= last {
      TakenIsApart(t, kind, first, last, i);
    }
  }

  lemma TakenObject(t: Table, t2: Table, kind: bool, first: int, last: int, n: int, large: bool)
    requires t.Valid() && Takes(t, t2, kind, first, last, n, large)
    requires Gains(t, t2, first * PAGE + t.ps[first].used, first * PAGE + t.ps[first].used + n)
    ensures ObjectOk(t2, first * PAGE + t.ps[first].used, first * PAGE + t.ps[first].used + n)
    ensures AloneOk(t2, first * PAGE + t.ps[first].used)
  {
    var start := first * PAGE + t.ps[first].used;
    assert PageOk(t.ps, first);
    TakenIsApart(t, kind, first, last, first);
    forall i {:trigger t2.ps[i]} | 0 <= i < |t2.ps| && start < i * PAGE < start + n ensures t2.ps[i].offset != 0 {
      assert t2.ps[i] == TakenPage(t.ps[i], i, first, start, n, kind, t.gen, large);
    }
    assert start / PAGE == first;
  }
}
