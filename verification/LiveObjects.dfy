/** A garbage collection leaves nothing that cannot be reached: what reaching means in the generational collector, from
    the roots, from what the control stack pins, and from the generations that are not collected. */
module LiveObjects {
  import opened PageTable
  import opened PageObjects
  import opened PageBlocks
  import opened PageGrowth
  import opened PageRuns
  import opened Newspace
  import opened ConservativeRoots
  import opened NewspaceMirror
  import opened Resting
  import opened KeptObjects

  /** Object a is in generation n or a younger one. */
  predicate Young(s: State, n: nat, a: int) {
    a in s.objs && 0 <= a / PAGE < |s.t.ps| && s.t.ps[a / PAGE].gen <= n
  }

  predicate RefersYoung(s: State, n: nat, w: int) {
    Dynamic(s.t, w) && Young(s, n, Target(w))
  }

  /** Word x, of an older generation, may be a reference. */
  predicate OlderWord(s: State, n: nat, x: int) {
    && 0 <= x < |s.m| && s.t.InUse(x) && x !in s.raw
    && !s.t.ps[x / PAGE].unboxed && s.t.ps[x / PAGE].gen > n
  }

  // The set holds the young objects that the roots, the older generations, or object a refer to.

  ghost predicate HoldsRoots(s: State, n: nat, live: set<int>, roots: seq<int>) {
    forall i {:trigger roots[i]} :: 0 <= i < |roots| && RefersYoung(s, n, roots[i]) ==> Target(roots[i]) in live
  }

  ghost predicate HoldsOlder(s: State, n: nat, live: set<int>) {
    forall x {:trigger OlderWord(s, n, x)} :: OlderWord(s, n, x) && RefersYoung(s, n, s.m[x]) ==>
        Target(s.m[x]) in live
  }

  ghost predicate HoldsFields(s: State, n: nat, live: set<int>, a: int) {
    a in s.objs && forall x {:trigger s.m[x]} ::
      a <= x < s.objs[a] && 0 <= x < |s.m| && RefersYoung(s, n, s.m[x]) ==> Target(s.m[x]) in live
  }

  /** The set holds the pinned objects and what the roots and the older generations refer to, and is closed under
      reference, as far as generations up to n are concerned. */
  ghost predicate Closed(s: State, n: nat, pinned: set<int>, roots: seq<int>, live: set<int>) {
    && (forall a {:trigger a in pinned} :: a in pinned && Young(s, n, a) ==> a in live)
    && HoldsRoots(s, n, live, roots) && HoldsOlder(s, n, live)
    && (forall a {:trigger a in live} :: a in live && Young(s, n, a) && !UnboxedAt(s, a) ==> HoldsFields(s, n, live, a))
  }

  /** Object a can be reached: it is in every such set. */
  ghost predicate Reached(s: State, n: nat, pinned: set<int>, roots: seq<int>, a: int) {
    forall live: set<int> :: Closed(s, n, pinned, roots, live) ==> a in live
  }

  /** The objects on pages that a word of the stack pins when generation n is collected. */
  ghost function PinnedObjects(s: State, n: nat, stack: seq<StackWord>): set<int> {
    set a | a in s.objs && PinnedFrom(s.t.ps, n, stack, 0, a / PAGE)
  }

  /** loc says of every object that there is where it was before. */
  ghost predicate AllLocated(s: State, loc: map<int, int>) {
    forall b {:trigger b in s.objs} :: b in s.objs ==> exists a {:trigger a in loc} :: a in loc && loc[a] == b
  }

  /** No object has come into being, and of generations up to n only what can be reached is left. */
  ghost predicate OnlyReached(s0: State, s: State, loc: map<int, int>, n: nat, pinned: set<int>, roots: seq<int>) {
    && AllLocated(s, loc)
    && (forall a {:trigger a in loc} :: a in loc && Young(s0, n, a) ==> Reached(s0, n, pinned, roots, a))
  }

  // ---------- The objects that can be reached ----------

  ghost function AllReached(s: State, n: nat, pinned: set<int>, roots: seq<int>): set<int> {
    set a | a in s.objs && Reached(s, n, pinned, roots, a)
  }

  /** The set of the objects that can be reached is such a set itself. */
  lemma ReachedClosed(s: State, n: nat, pinned: set<int>, roots: seq<int>)
    ensures Closed(s, n, pinned, roots, AllReached(s, n, pinned, roots))
  {
    hide RefersYoung, OlderWord, IsUnboxed;
    var live := AllReached(s, n, pinned, roots);
    forall a {:trigger a in pinned} | a in pinned && Young(s, n, a) ensures a in live {
    }
    forall i {:trigger roots[i]} | 0 <= i < |roots| && RefersYoung(s, n, roots[i]) ensures Target(roots[i]) in live {
      RefersObject(s, n, roots[i]);
    }
    forall x {:trigger OlderWord(s, n, x)} | OlderWord(s, n, x)
      ensures 0 <= x < |s.m| && (RefersYoung(s, n, s.m[x]) ==> Target(s.m[x]) in live)
    {
      OlderInHeap(s, n, x);
      if RefersYoung(s, n, s.m[x]) {
        RefersObject(s, n, s.m[x]);
      }
    }
    forall a {:trigger a in live} | a in live && Young(s, n, a) && !UnboxedAt(s, a)
      ensures HoldsFields(s, n, live, a)
    {
      FieldsReached(s, n, pinned, roots, a);
    }
  }

  lemma FieldsReached(s: State, n: nat, pinned: set<int>, roots: seq<int>, a: int)
    requires Reached(s, n, pinned, roots, a) && Young(s, n, a) && !UnboxedAt(s, a)
    ensures HoldsFields(s, n, AllReached(s, n, pinned, roots), a)
  {
    hide RefersYoung, HoldsRoots, HoldsOlder, IsUnboxed;
    forall x {:trigger s.m[x]} | a <= x < s.objs[a] && 0 <= x < |s.m| && RefersYoung(s, n, s.m[x])
      ensures Target(s.m[x]) in AllReached(s, n, pinned, roots)
    {
      RefersObject(s, n, s.m[x]);
      forall live: set<int> | Closed(s, n, pinned, roots, live) ensures Target(s.m[x]) in live {
        assert a in live && HoldsFields(s, n, live, a);
      }
    }
  }

  lemma RefersObject(s: State, n: nat, w: int)
    requires RefersYoung(s, n, w)
    ensures Target(w) in s.objs && Young(s, n, Target(w))
  {
  }

  lemma OlderInHeap(s: State, n: nat, x: int)
    requires OlderWord(s, n, x)
    ensures 0 <= x < |s.m|
  {
  }

  // ---------- One collection after another ----------

  /** The objects that went to those of a set. */
  ghost function Before(loc: map<int, int>, objs: set<int>): set<int> {
    set a | a in loc && loc[a] in objs
  }

  ghost function After(loc: map<int, int>, objs: set<int>): set<int> {
    set a | a in loc && a in objs :: loc[a]
  }

  /** An object of an older generation than n is on a page that is in use. */
  lemma OlderObject(s: State, n: nat, a: int)
    requires RestOk(s) && (Flushed(s.t) || s.t.gen <= n) && a in s.objs && !Young(s, n, a)
    ensures InOlder(s, n + 1, a)
  {
    hide SlackZero, SizesOk, RestWordOk, RawOk, ObjectsOk;
    ObjectInUse(s, a);
    assert s.t.InUse(a);
    OlderPage(s, n, a);
  }

  lemma OlderPage(s: State, n: nat, x: int)
    requires RestOk(s) && (Flushed(s.t) || s.t.gen <= n) && s.t.InUse(x) && s.t.ps[x / PAGE].gen > n
    ensures OfOlder(s.t.ps[x / PAGE], n + 1)
  {
    hide SlackZero, SizesOk, RestWordOk, RawOk, ObjectsOk;
    assert PageOk(s.t.ps, x / PAGE);
    if s.t.boxed.Holds(x) {
      HeldIsCovered(s.t, false, x);
      CoveredPage(s.t, false, x / PAGE);
    }
    if s.t.unboxed.Holds(x) {
      HeldIsCovered(s.t, true, x);
      CoveredPage(s.t, true, x / PAGE);
    }
  }

  /** What is young stays young, and what is older stays older. */
  lemma YoungStays(s0: State, s1: State, loc: map<int, int>, n: nat, a: int)
    requires RestOk(s0) && RestOk(s1) && s0.t.gen <= n && Flushed(s1.t)
    requires Kept(s0, s1, loc) && OlderStays(s0, s1, loc, n + 1) && a in loc
    ensures Young(s1, n, loc[a]) <==> Young(s0, n, a)
  {
    hide RestOk, WordsStay;
    assert ObjectKept(s0, s1, loc, a);
    if !Young(s0, n, a) {
      OlderObject(s0, n, a);
      assert s1.t.ps[a / PAGE] == s1.t.ps[a / PAGE];
    }
    if !Young(s1, n, loc[a]) {
      OlderObject(s1, n, loc[a]);
      assert loc[loc[a]] == loc[a];
      assert loc[a] == a;
      assert s1.t.ps[a / PAGE] == s1.t.ps[a / PAGE];
    }
  }

  /** A reference to a young object was one before. */
  lemma RefersBefore(s0: State, s1: State, loc: map<int, int>, n: nat, w0: int, w1: int)
    requires RestOk(s0) && RestOk(s1) && s0.t.gen <= n && Flushed(s1.t)
    requires Kept(s0, s1, loc) && OlderStays(s0, s1, loc, n + 1) && WordFollows(s0, s1, loc, w0, w1)
    requires RefersYoung(s1, n, w1)
    ensures RefersYoung(s0, n, w0) && Target(w0) in loc && Target(w1) == loc[Target(w0)]
  {
    hide RestOk, OlderStays, ObjectKept;
    assert |s1.t.ps| == |s0.t.ps|;
    assert Dynamic(s0.t, w0);
    YoungStays(s0, s1, loc, n, Target(w0));
  }

  /** Word x of an object that was somewhere else before. */
  lemma WordBefore(s0: State, s1: State, loc: map<int, int>, a: int, x: int)
    requires Kept(s0, s1, loc) && a in loc && loc[a] <= x < loc[a] + s0.objs[a] - a && !UnboxedAt(s0, a)
    ensures 0 <= x < |s1.m| && 0 <= x + a - loc[a] < |s0.m|
    ensures WordFollows(s0, s1, loc, s0.m[x + a - loc[a]], s1.m[x])
  {
    hide WordFollows, IsUnboxed;
    assert ObjectKept(s0, s1, loc, a);
    assert WordStays(s0, s1, loc, false, a - loc[a], x);
    assert x + (a - loc[a]) == x + a - loc[a];
  }

  lemma HoldsFieldsThen(s0: State, s1: State, loc: map<int, int>, n: nat, live: set<int>, a: int)
    requires RestOk(s0) && RestOk(s1) && s0.t.gen <= n && Flushed(s1.t)
    requires Kept(s0, s1, loc) && OlderStays(s0, s1, loc, n + 1) && a in loc && HoldsFields(s0, n, live, a)
    requires !UnboxedAt(s0, a)
    ensures HoldsFields(s1, n, After(loc, live), loc[a])
  {
    hide RestOk, OlderStays, WordFollows, WordsStay, RefersYoung, IsUnboxed;
    assert ObjectKept(s0, s1, loc, a);
    forall x {:trigger s1.m[x]} |
      loc[a] <= x < s1.objs[loc[a]] && 0 <= x < |s1.m| && RefersYoung(s1, n, s1.m[x])
      ensures Target(s1.m[x]) in After(loc, live)
    {
      WordBefore(s0, s1, loc, a, x);
      RefersBefore(s0, s1, loc, n, s0.m[x + a - loc[a]], s1.m[x]);
    }
  }

  lemma HoldsRootsThen(s0: State, s1: State, loc: map<int, int>, n: nat, live: set<int>, r0: seq<int>, r1: seq<int>)
    requires RestOk(s0) && RestOk(s1) && s0.t.gen <= n && Flushed(s1.t)
    requires Kept(s0, s1, loc) && OlderStays(s0, s1, loc, n + 1) && RootsKept(s0, s1, loc, r0, r1)
    requires HoldsRoots(s0, n, live, r0)
    ensures HoldsRoots(s1, n, After(loc, live), r1)
  {
    hide RestOk, OlderStays, WordFollows, RefersYoung, ObjectKept;
    forall i {:trigger r1[i]} | 0 <= i < |r1| && RefersYoung(s1, n, r1[i]) ensures Target(r1[i]) in After(loc, live) {
      RefersBefore(s0, s1, loc, n, r0[i], r1[i]);
      assert r0[i] == r0[i];
    }
  }

  /** A word of an older generation that refers to something is one of an object that has not moved. */
  lemma OlderWordBefore(s0: State, s1: State, loc: map<int, int>, n: nat, x: int)
    requires RestOk(s0) && RestOk(s1) && s0.t.gen <= n && Flushed(s1.t)
    requires Kept(s0, s1, loc) && OlderStays(s0, s1, loc, n + 1) && OlderWord(s1, n, x) && s1.m[x] != 0
    ensures OlderWord(s0, n, x) && WordFollows(s0, s1, loc, s0.m[x], s1.m[x])
  {
    hide RestOk, WordFollows, OlderStays, Kept, IsUnboxed, OfOlder;
    var b := OwnerBefore(s0, s1, loc, n, x);
    OlderPage(s1, n, x);
    OlderPageBefore(s0, s1, loc, n, x);
    WordBefore(s0, s1, loc, b, x);
    BoxedWord(s0, b, x);
  }

  lemma OlderPageBefore(s0: State, s1: State, loc: map<int, int>, n: nat, x: int)
    requires OlderStays(s0, s1, loc, n + 1) && 0 <= x / PAGE < |s1.t.ps| && OfOlder(s1.t.ps[x / PAGE], n + 1)
    ensures |s0.t.ps| == |s1.t.ps| && s0.t.ps[x / PAGE].gen > n
  {
    assert s1.t.ps[x / PAGE] == s1.t.ps[x / PAGE];
  }

  lemma OwnerBefore(s0: State, s1: State, loc: map<int, int>, n: nat, x: int) returns (b: int)
    requires RestOk(s1) && Flushed(s1.t) && Kept(s0, s1, loc) && OlderStays(s0, s1, loc, n + 1)
    requires OlderWord(s1, n, x) && s1.m[x] != 0
    ensures b in s0.objs && b in loc && loc[b] == b <= x < s0.objs[b] && !UnboxedAt(s0, b)
  {
    b := OlderOwner(s1, n, x);
    hide RestOk, WordsStay, SameOlder, IsUnboxed;
    OlderObject(s1, n, b);
    assert ObjectKept(s0, s1, loc, b);
  }

  lemma OlderOwner(s: State, n: nat, x: int) returns (b: int)
    requires RestOk(s) && Flushed(s.t) && OlderWord(s, n, x) && s.m[x] != 0
    ensures b in s.objs && b <= x < s.objs[b] && !UnboxedAt(s, b) && !Young(s, n, b)
  {
    hide SizesOk, RestWordOk, PageOk, RegionOk, Headed, AloneOk;
    assert InSome(s.objs, x);
    b :| b in s.objs && b <= x < s.objs[b];
    assert ObjectOk(s.t, b, s.objs[b]) && OneKind(s.objs, s.raw, b);
    ObjectKind(s.t, b, s.objs[b], x);
    ObjectGeneration(s.t, b, s.objs[b], x);
  }

  lemma HoldsOlderThen(s0: State, s1: State, loc: map<int, int>, n: nat, live: set<int>)
    requires RestOk(s0) && RestOk(s1) && s0.t.gen <= n && Flushed(s1.t)
    requires Kept(s0, s1, loc) && OlderStays(s0, s1, loc, n + 1) && HoldsOlder(s0, n, live)
    ensures HoldsOlder(s1, n, After(loc, live))
  {
    hide RestOk, OlderStays, WordFollows, RefersYoung, ObjectKept, OlderWord;
    forall x {:trigger OlderWord(s1, n, x)} | OlderWord(s1, n, x)
      ensures 0 <= x < |s1.m| && (RefersYoung(s1, n, s1.m[x]) ==> Target(s1.m[x]) in After(loc, live))
    {
      OlderInHeap(s1, n, x);
      if RefersYoung(s1, n, s1.m[x]) {
        RefersNotZero(s1, n, s1.m[x]);
        OlderWordBefore(s0, s1, loc, n, x);
        OlderInHeap(s0, n, x);
        RefersBefore(s0, s1, loc, n, s0.m[x], s1.m[x]);
      }
    }
  }

  lemma RefersNotZero(s: State, n: nat, w: int)
    requires RefersYoung(s, n, w)
    ensures w != 0
  {
  }

  /** Where the objects of a closed set have gone is a closed set. */
  lemma ClosedThen(s0: State, s1: State, loc: map<int, int>, n: nat, pinned: set<int>, r0: seq<int>, r1: seq<int>,
        live: set<int>)
    requires RestOk(s0) && RestOk(s1) && s0.t.gen <= n && Flushed(s1.t)
    requires Kept(s0, s1, loc) && OlderStays(s0, s1, loc, n + 1) && RootsKept(s0, s1, loc, r0, r1)
    requires AllLocated(s1, loc) && Closed(s0, n, Before(loc, pinned), r0, live)
    ensures Closed(s1, n, pinned, r1, After(loc, live))
  {
    hide RestOk, OlderStays, HoldsRoots, HoldsOlder, HoldsFields, WordsStay, RootsKept, IsUnboxed;
    HoldsRootsThen(s0, s1, loc, n, live, r0, r1);
    HoldsOlderThen(s0, s1, loc, n, live);
    forall b {:trigger b in pinned} | b in pinned && Young(s1, n, b) ensures b in After(loc, live) {
      var a :| a in loc && loc[a] == b;
      YoungStays(s0, s1, loc, n, a);
      assert a in Before(loc, pinned);
    }
    forall b {:trigger b in After(loc, live)} | b in After(loc, live) && Young(s1, n, b) && !UnboxedAt(s1, b)
      ensures HoldsFields(s1, n, After(loc, live), b)
    {
      var a :| a in loc && a in live && loc[a] == b;
      assert ObjectKept(s0, s1, loc, a);
      YoungStays(s0, s1, loc, n, a);
      HoldsFieldsThen(s0, s1, loc, n, live, a);
    }
  }

  lemma ReachedBefore(s0: State, s1: State, loc: map<int, int>, n: nat, pinned: set<int>, r0: seq<int>, r1: seq<int>,
        a: int)
    requires RestOk(s0) && RestOk(s1) && s0.t.gen <= n && Flushed(s1.t)
    requires Kept(s0, s1, loc) && OlderStays(s0, s1, loc, n + 1) && RootsKept(s0, s1, loc, r0, r1)
    requires AllLocated(s1, loc) && a in loc && Reached(s1, n, pinned, r1, loc[a])
    ensures Reached(s0, n, Before(loc, pinned), r0, a)
  {
    hide RestOk, OlderStays, RootsKept, ObjectKept, Closed;
    forall live: set<int> | Closed(s0, n, Before(loc, pinned), r0, live) ensures a in live {
      ClosedThen(s0, s1, loc, n, pinned, r0, r1, live);
      assert loc[a] in After(loc, live);
    }
  }

  lemma LocatedThen(s0: State, s1: State, s2: State, loc1: map<int, int>, loc2: map<int, int>)
    requires AllLocated(s1, loc1) && AllLocated(s2, loc2) && Kept(s1, s2, loc2)
    ensures AllLocated(s2, Then(loc1, loc2))
  {
    forall b {:trigger b in s2.objs} | b in s2.objs
      ensures exists a {:trigger a in Then(loc1, loc2)} :: a in Then(loc1, loc2) && Then(loc1, loc2)[a] == b
    {
      var c :| c in loc2 && loc2[c] == b;
      assert ObjectKept(s1, s2, loc2, c);
      var a :| a in loc1 && loc1[a] == c;
      assert a in Then(loc1, loc2);
    }
  }

  /** If after other collections one leaves only what can be reached, so do all together. */
  lemma OnlyReachedThen(s0: State, s1: State, s2: State, loc1: map<int, int>, loc2: map<int, int>, n: nat,
        pinned: set<int>, r0: seq<int>, r1: seq<int>)
    requires RestOk(s0) && RestOk(s1) && s0.t.gen <= n && Flushed(s1.t)
    requires Kept(s0, s1, loc1) && OlderStays(s0, s1, loc1, n + 1) && RootsKept(s0, s1, loc1, r0, r1)
    requires AllLocated(s1, loc1) && Kept(s1, s2, loc2) && OnlyReached(s1, s2, loc2, n, pinned, r1)
    ensures OnlyReached(s0, s2, Then(loc1, loc2), n, Before(loc1, pinned), r0)
  {
    hide RestOk, Kept, OlderStays, RootsKept, AllLocated, Reached;
    LocatedThen(s0, s1, s2, loc1, loc2);
    var loc := Then(loc1, loc2);
    forall a {:trigger a in loc} | a in loc && Young(s0, n, a) ensures Reached(s0, n, Before(loc1, pinned), r0, a) {
      YoungStays(s0, s1, loc1, n, a);
      ReachedBefore(s0, s1, loc1, n, pinned, r0, r1, a);
    }
  }

  /** Nothing has moved since, and no object has come into being. */
  lemma OnlyReachedStill(s0: State, s1: State, s2: State, loc: map<int, int>, n: nat, pinned: set<int>, roots: seq<int>)
    requires OnlyReached(s0, s1, loc, n, pinned, roots) && Kept(s0, s1, loc) && s2.objs == s1.objs
    ensures OnlyReached(s0, s2, Then(loc, Still(s1.objs)), n, pinned, roots)
  {
    hide Reached;
    forall a {:trigger a in loc} | a in loc ensures loc[a] in s1.objs {
      assert ObjectKept(s0, s1, loc, a);
    }
    assert Then(loc, Still(s1.objs)) == loc;
  }
}
