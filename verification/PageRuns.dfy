/** What holds between the operations of the generational collector: words that are allocated but belong to no
    object any more are zero, if a mutator that makes an object smaller sets its tail to zero first. */
module PageRuns {
  import opened PageTable
  import opened PageObjects
  import opened PageBlocks
  import opened PageHeap
  import opened PageGc

  ghost predicate InSome(objs: map<int, int>, x: int) {
    exists a {:trigger a in objs} :: a in objs && a <= x < objs[a]
  }

  ghost predicate SlackZero(t: Table, objs: map<int, int>, m: seq<int>) {
    forall x {:trigger m[x]} :: 0 <= x < |m| && t.InUse(x) && !InSome(objs, x) ==> m[x] == 0
  }

  /** An object that runs over the start of a page of a large object is that object. */
  lemma {:induction false} LargeHead(t: Table, a: int, e: int, i: int)
    requires t.Valid() && ObjectOk(t, a, e) && AloneOk(t, a) && 0 <= i < |t.ps| && t.ps[i].large
    requires a / PAGE <= i && (a < i * PAGE ==> i * PAGE < e) && 0 <= a
    ensures Head(t.ps, i) == a
    decreases i
  {
    assert t.InUse(a);
    if a / PAGE < i {
      assert t.ps[i].offset != 0 && t.InUse(i * PAGE) && i * PAGE / PAGE == i;
      LargeUsed(t, i);
      assert PageOk(t.ps, i) && PageOk(t.ps, i - 1);
      if a / PAGE <= i - 1 {
        LargeHead(t, a, e, i - 1);
      }
    }
  }

  lemma LargeUsed(t: Table, i: int)
    requires t.Valid() && 0 <= i < |t.ps| && t.ps[i].large && t.ps[i].alloc
    ensures t.ps[i].used > 0 && !t.boxed.Covers(i) && !t.unboxed.Covers(i)
  {
    assert PageOk(t.ps, i);
    assert t.boxed.Covers(i) ==> RegionPage(t.ps[i], false, t.gen);
    assert t.unboxed.Covers(i) ==> RegionPage(t.ps[i], true, t.gen);
  }

  /** So there are zeros behind the ends of large objects. */
  lemma TailFromSlack(t: Table, objs: map<int, int>, gens: seq<Generation>, total: int, m: seq<int>)
    requires HeapOk(t, objs, gens, total, m) && SlackZero(t, objs, m)
    ensures TailZero(t.ps, objs, m)
  {
    hide PageOk, RegionOk, ObjectOk, AloneOk;
    forall x {:trigger m[x]} | 0 <= x < |m| && x / PAGE < |t.ps| && InTail(t.ps, objs, x) ensures m[x] == 0 {
      assert ZeroAt(t, m, x);
      if b :| b in objs && b <= x < objs[b] {
        assert ObjectOk(t, b, objs[b]) && AloneOk(t, b);
        ObjectStart(t, b, objs[b]);
        LargeHead(t, b, objs[b], x / PAGE);
      }
    }
  }

  lemma ObjectStart(t: Table, a: int, e: int)
    requires ObjectOk(t, a, e)
    ensures 0 <= a < e
  {
  }

  /** Allocation keeps this. */
  lemma SlackAllocated(t: Table, t2: Table, objs: map<int, int>, m: seq<int>, m2: seq<int>, a: int, n: int)
    requires SlackZero(t, objs, m) && Gains(t, t2, a, a + n) && |m2| == |m| && a !in objs
    requires forall x {:trigger m2[x]} :: 0 <= x < |m| && t.InUse(x) ==> m2[x] == m[x]
    ensures SlackZero(t2, objs[a := a + n], m2)
  {
    var objs2 := objs[a := a + n];
    forall x {:trigger m2[x]} | 0 <= x < |m2| && t2.InUse(x) && !InSome(objs2, x) ensures m2[x] == 0 {
      assert a in objs2;
      forall b {:trigger b in objs} | b in objs ensures !(b <= x < objs[b]) {
        assert b in objs2;
      }
      assert !InSome(objs, x) && m2[x] == m[x];
    }
  }

  /** Freeing the old space keeps this. */
  lemma SlackFreed(t: Table, t2: Table, from: nat, objs: map<int, int>, m: seq<int>, m2: seq<int>)
    requires t.Valid() && Flushed(t) && ObjectsOk(t, objs) && SlackZero(t, objs, m)
    requires Frees(t, t2, from) && Marks(t, m, m2, from)
    ensures SlackZero(t2, Others(t, objs, from), m2)
  {
    hide PageOk, RegionOk, ObjectOk, AloneOk;
    var objs2 := Others(t, objs, from);
    forall x {:trigger m2[x]} | 0 <= x < |m2| && t2.InUse(x) && !InSome(objs2, x) ensures m2[x] == 0 {
      FreeInUse(t, t2, from, x);
      forall b {:trigger b in objs} | b in objs ensures !(b <= x < objs[b]) {
        assert ObjectOk(t, b, objs[b]);
        if b <= x < objs[b] {
          ObjectGeneration(t, b, objs[b], x);
        }
        assert b in objs2 ==> !(b <= x < objs2[b]);
      }
      assert m2[x] == m[x] == 0;
    }
  }

  /** Promoting and adjusting large objects keep this. */
  lemma SlackResized(t: Table, t2: Table, from: nat, first: int, last: int, n: int, gen: nat, unboxed: bool,
        objs: map<int, int>, m: seq<int>)
    requires t.Valid() && LargeBlock(t, from, first, last) && Resizes(t, t2, first, last, n, gen, unboxed)
    requires SlackZero(t, objs, m)
    ensures SlackZero(t2, objs, m)
  {
    hide PageOk, RegionOk, LargeBlock, Resizes;
    forall x {:trigger m[x]} | 0 <= x < |m| && t2.InUse(x) && !InSome(objs, x) ensures m[x] == 0 {
      ResizeInUse(t, t2, from, first, last, n, gen, unboxed, x);
    }
  }

  // ---------- Shrinking ----------

  /** An object that is made smaller is still whole, and apart from the others. */
  lemma ShrunkObjects(t: Table, objs: map<int, int>, a: int, n: int)
    requires ObjectsOk(t, objs) && a in objs && 0 < n && a + n <= objs[a]
    ensures ObjectsOk(t, objs[a := a + n])
  {
    var objs2 := objs[a := a + n];
    forall b {:trigger b in objs2} | b in objs2
      ensures ObjectOk(t, b, objs2[b]) && AloneOk(t, b) && b in objs && objs2[b] <= objs[b]
    {
      assert b in objs && ObjectOk(t, b, objs[b]);
    }
    forall b, c {:trigger b in objs2, c in objs2} | b in objs2 && c in objs2 && b < c ensures objs2[b] <= c {
      assert b in objs && c in objs;
    }
  }

  /** If its tail has been set to zero this is kept. */
  lemma ShrunkSlack(t: Table, objs: map<int, int>, m: seq<int>, m2: seq<int>, a: int, n: int)
    requires SlackZero(t, objs, m) && |m2| == |m| && a in objs && a + n <= objs[a]
    requires forall x {:trigger m2[x]} :: 0 <= x < |m| ==> m2[x] == (if a + n <= x < objs[a] then 0 else m[x])
    ensures SlackZero(t, objs[a := a + n], m2)
  {
    var objs2 := objs[a := a + n];
    forall x {:trigger m2[x]} | 0 <= x < |m2| && t.InUse(x) && !InSome(objs2, x) ensures m2[x] == 0 {
      forall b {:trigger b in objs} | b in objs ensures !(b <= x < objs[b]) || a + n <= x < objs[a] {
        assert b in objs2;
      }
    }
  }
}
