/** What is true while the new space of a generation is scavenged, src/lisp/gencgc.c: the words, the objects that have
    not been moved, and the words that still have to be scavenged. */
module Newspace {
  import opened PageTable
  import opened PageObjects
  import opened PageBlocks
  import opened PageGrowth
  import opened PageRuns
  import opened NewAreas

  /** A pointer word is 8 times the address, counted in words from the heap's base, plus the lowtag, which is odd. */
  const HEAP_BASE := 0x1000_0000
  const FORWARDED := 0x01

  predicate Pointerp(w: int) {
    w % 8 % 2 == 1
  }

  /** The lowtag of a reference to a cons. */
  predicate Listp(w: int) {
    w % 8 == 3
  }

  function Target(w: int): int {
    w / 8 - HEAP_BASE
  }

  function Pointer(a: int, w: int): (p: int)
    requires 0 <= a && Pointerp(w)
    ensures Pointerp(p) && Target(p) == a && p != FORWARDED && p % 8 == w % 8
  {
    (a + HEAP_BASE) * 8 + w % 8
  }

  /** The address of a word with any odd lowtag is a reference to the object there, and no even word is one. */
  lemma References(a: int, tag: int)
    requires 0 <= a && tag in {1, 3, 5, 7}
    ensures var w := 8 * (0x1000_0000 + a) + tag;
            Pointerp(w) && Target(w) == a && Pointer(a, tag) == w && (Listp(w) <==> tag == 3) && !Pointerp(w - 1)
  {
  }

  /** What the header of an object says: its size, whether it is an unboxed one, whether it is promoted if it is large,
      and whether it is a vector or bignum, which is cut to its size when it is pinned. */
  datatype Shape = Shape(words: int, unboxed: bool, vector: bool, adjusted: bool)

  /** The page table, the objects with their ends, the words, the recorded areas, and the words of unboxed objects on
      boxed pages. */
  datatype State = State(t: Table, objs: map<int, int>, m: seq<int>, areas: seq<Area>, raw: set<int>)

  /** from_space_p: the word points to a page of the generation. */
  predicate Refers(t: Table, gen: nat, w: int) {
    Dynamic(t, w) && t.ps[Target(w) / PAGE].gen == gen
  }

  /** Word x is in use on a boxed page outside of the old space. */
  predicate Boxed(t: Table, from: nat, x: int) {
    t.InUse(x) && !t.ps[x / PAGE].unboxed && t.ps[x / PAGE].gen != from
  }

  /** An object of the old space. */
  predicate OldObject(s: State, from: nat, a: int) {
    a in s.objs && 0 <= a / PAGE < |s.t.ps| && s.t.ps[a / PAGE].gen == from
  }

  /** from any generation: the word points into the dynamic space. */
  predicate Dynamic(t: Table, w: int) {
    Pointerp(w) && 0 <= Target(w) / PAGE < |t.ps| - 1
  }

  /** A word points into the dynamic space only at an object, and is not the mark of a forwarded one. */
  predicate WordOk(s: State, w: int) {
    w != FORWARDED && (Dynamic(s.t, w) ==> Target(w) in s.objs)
  }

  /** A word refers to nothing in the dynamic space but objects of generation gen or older ones, and not the temporary
      one. */
  predicate OlderOk(t: Table, objs: map<int, int>, gen: nat, w: int) {
    Dynamic(t, w) ==>
      Target(w) in objs && gen <= t.ps[Target(w) / PAGE].gen < NUM_GENERATIONS
  }

  /** Such a word that does not belong to an unboxed object: it may be a reference. */
  predicate Tagged(s: State, from: nat, x: int) {
    Boxed(s.t, from, x) && x !in s.raw
  }

  /** On a write-protected page, which is older than the old space, nothing refers to younger generations. */
  predicate NewWordOk(s: State, from: nat, x: int) {
    0 <= x < |s.m| && Tagged(s, from, x) ==>
      WordOk(s, s.m[x]) && (s.t.ps[x / PAGE].wp ==>
          from < s.t.ps[x / PAGE].gen && OlderOk(s.t, s.objs, s.t.ps[x / PAGE].gen, s.m[x]))
  }

  /** The object at a is an unboxed one. */
  predicate UnboxedAt(s: State, a: int) {
    IsUnboxed(s.t.ps, s.raw, a)
  }

  predicate Moved(s: State, a: int) {
    0 <= a < |s.m| && s.m[a] == FORWARDED
  }

  predicate ShapeOk(s: State, a: int, shape: Shape)
    requires a in s.objs && 0 <= a / PAGE < |s.t.ps|
  {
    && shape.words >= 2 && shape.words % 2 == 0 && s.objs[a] == a + shape.words
    && (shape.unboxed <==> UnboxedAt(s, a))
  }

  /** A forwarded object of the old space says where it has gone; another one has the contents it always had. */
  ghost predicate OldObjectOk(s: State, from: nat, shapes: map<int, Shape>, a: int) {
    if !OldObject(s, from, a) then a in s.objs ==> !Moved(s, a)
    else
      && a in shapes && ShapeOk(s, a, shapes[a]) && 0 <= a && a + shapes[a].words <= |s.m|
      && (if Moved(s, a) then WordOk(s, s.m[a + 1]) && !Refers(s.t, from, s.m[a + 1])
          else !shapes[a].unboxed ==> forall x {:trigger s.m[x]} :: a <= x < a + shapes[a].words ==> WordOk(s, s.m[x]))
  }

  /** Either all words of an object are raw or none is. */
  ghost predicate OneKind(objs: map<int, int>, raw: set<int>, a: int)
    requires a in objs
  {
    forall x {:trigger x in raw} :: a <= x < objs[a] ==> (x in raw <==> a in raw)
  }

  /** Raw words are those of some objects. */
  ghost predicate RawOk(objs: map<int, int>, raw: set<int>) {
    && (forall x {:trigger x in raw} :: x in raw ==> InSome(objs, x))
    && (forall a {:trigger a in objs} :: a in objs ==> OneKind(objs, raw, a))
  }

  /** No raw words are going to be scavenged. */
  ghost predicate RawApart(t: Table, areas: seq<Area>, raw: set<int>) {
    forall x {:trigger x in raw} :: x in raw ==> !Pending(t, areas, x)
  }

  ghost predicate InvOk(s: State, from: nat, shapes: map<int, Shape>) {
    && s.t.Valid() && ObjectsOk(s.t, s.objs) && |s.m| == (|s.t.ps| - 1) * PAGE && from != s.t.gen
    && (forall x {:trigger NewWordOk(s, from, x)} :: NewWordOk(s, from, x))
    && (forall a {:trigger OldObjectOk(s, from, shapes, a)} :: OldObjectOk(s, from, shapes, a))
    && (forall x {:trigger Covered(s.areas, x)} :: Covered(s.areas, x) ==> Boxed(s.t, from, x))
    && Unprotected(s.t.ps, from) && SlackZero(s.t, s.objs, s.m) && SizesOk(s.objs)
    && RawOk(s.objs, s.raw) && RawApart(s.t, s.areas, s.raw)
  }

  /** Word x has to be scavenged. */
  predicate Todo(s: State, from: nat, x: int) {
    0 <= x < |s.m| && Tagged(s, from, x) && Refers(s.t, from, s.m[x])
  }

  /** Every word that has to be scavenged is among the later ones, or recorded; unless areas were lost. */
  ghost predicate Safe(s: State, from: nat, later: iset<int>) {
    |s.areas| >= NUM_NEW_AREAS || forall x {:trigger Todo(s, from, x)} :: Todo(s, from, x) ==>
        x in later || Pending(s.t, s.areas, x)
  }

  /** Recording is on, at least for what is not to be scanned later. */
  ghost predicate LaterOk(recording: Recording, later: iset<int>) {
    && (recording.Off? ==> forall x :: x in later)
    && (recording.UpTo? ==> forall x :: x / PAGE > recording.page ==> x in later)
  }

  /** Objects have an even number of words. */
  ghost predicate SizesOk(objs: map<int, int>) {
    forall a {:trigger a in objs} :: a in objs ==> objs[a] - a >= 2 && (objs[a] - a) % 2 == 0
  }

  /** The objects that have not been moved out of the old space. */
  ghost function Unmoved(s: State, from: nat): set<int> {
    set a | a in s.objs && OldObject(s, from, a) && !Moved(s, a)
  }

  /** In these generations, of which the one allocated to is none, there is nothing to be scavenged. */
  ghost predicate Clean(s: State, from: nat, clean: set<nat>) {
    s.t.gen !in clean && forall x {:trigger Todo(s, from, x)} :: Todo(s, from, x) ==> s.t.ps[x / PAGE].gen !in clean
  }

  // ---------- Copying an object ----------

  /** The object at a, n words of the kind, has been copied to b. */
  ghost predicate CopiedTo(s: State, s2: State, recording: Recording, a: int, b: int, n: int, kind: bool) {
    && Evolves(s.t, s2.t) && Fresh(s2.t, kind, b, b + n) && Gains(s.t, s2.t, b, b + n)
    && Recorded(s.t, s.areas, s2.t, s2.areas, recording, kind, b, b + n)
    && s2.t.Valid() && ObjectsOk(s2.t, s2.objs)
    && b !in s.objs && s2.objs == s.objs[b := b + n] && |s2.m| == |s.m| && s2.raw == s.raw
    && 0 <= a && a + n <= |s.m| && 0 <= b && b + n <= |s.m| && !Moved(s, a)
    && (forall x {:trigger s2.m[x]} :: b <= x < b + n ==> s2.m[x] == s.m[a + x - b])
    && (forall x {:trigger s2.m[x]} :: 0 <= x < |s.m| && s.t.InUse(x) ==> s2.m[x] == s.m[x])
  }

  /** No word refers to the old space that did not before. */
  lemma EvolvedRefers(t: Table, t2: Table, from: nat, w: int)
    requires Evolves(t, t2) && from != t.gen && Refers(t2, from, w)
    ensures Refers(t, from, w)
  {
    assert t2.ps[Target(w) / PAGE] == t2.ps[Target(w) / PAGE];
  }

  lemma EvolvedBoxed(t: Table, t2: Table, from: nat, x: int)
    requires Evolves(t, t2) && t.InUse(x)
    ensures Boxed(t2, from, x) <==> Boxed(t, from, x)
    ensures t2.ps[x / PAGE].wp == t.ps[x / PAGE].wp && t2.ps[x / PAGE].gen == t.ps[x / PAGE].gen
    ensures t2.ps[x / PAGE].unboxed == t.ps[x / PAGE].unboxed && t2.ps[x / PAGE].large == t.ps[x / PAGE].large
  {
    assert SamePage(t, t2, x);
  }

  /** What a write-protected page refers to stays where it is. */
  lemma EvolvedOlder(t: Table, t2: Table, objs: map<int, int>, objs2: map<int, int>, gen: nat, w: int)
    requires Evolves(t, t2) && ObjectsOk(t, objs) && OlderOk(t, objs, gen, w)
    requires forall a {:trigger a in objs} :: a in objs ==> a in objs2
    ensures OlderOk(t2, objs2, gen, w)
  {
    var a := Target(w);
    if a in objs {
      assert ObjectOk(t, a, objs[a]);
      ObjectStart(t, a, objs[a]);
      assert t.InUse(a);
      assert SamePage(t, t2, a);
    }
  }

  lemma CopiedWord(s: State, s2: State, recording: Recording, from: nat, shapes: map<int, Shape>, a: int, b: int,
        n: int, kind: bool, x: int)
    requires a in shapes && shapes[a].words == n && shapes[a].unboxed == kind && OldObject(s, from, a) && !Moved(s, a)
    requires InvOk(s, from, shapes) && CopiedTo(s, s2, recording, a, b, n, kind)
    ensures NewWordOk(s2, from, x)
    ensures Todo(s2, from, x) ==> Todo(s, from, x) || (!kind && b <= x < b + n)
  {
    hide ObjectsOk, Recorded, SlackZero, RawOk, RawApart, Unprotected;
    if 0 <= x < |s2.m| && Tagged(s2, from, x) {
      assert s2.t.InUse(x);
      if b <= x < b + n {
        assert OldObjectOk(s, from, shapes, a);
        assert FreshAt(s2.t, kind, x);
        assert WordOk(s, s.m[a + x - b]);
      } else {
        EvolvedBoxed(s.t, s2.t, from, x);
        assert NewWordOk(s, from, x);
        if s2.t.ps[x / PAGE].wp {
          EvolvedOlder(s.t, s2.t, s.objs, s2.objs, s.t.ps[x / PAGE].gen, s.m[x]);
        }
      }
      if Refers(s2.t, from, s2.m[x]) {
        EvolvedRefers(s.t, s2.t, from, s2.m[x]);
      }
    }
  }

  lemma CopiedOldObject(s: State, s2: State, recording: Recording, from: nat, shapes: map<int, Shape>, a: int, b: int,
        n: int, kind: bool, c: int)
    requires InvOk(s, from, shapes) && CopiedTo(s, s2, recording, a, b, n, kind) && n > 0
    ensures OldObject(s2, from, c) <==> OldObject(s, from, c)
    ensures OldObject(s, from, c) ==> (Moved(s2, c) <==> Moved(s, c))
    ensures OldObjectOk(s2, from, shapes, c)
  {
    hide Recorded, SlackZero, RawOk, RawApart, Unprotected, NewWordOk, Headed, RegionOk, PageOk, AloneOk;
    if c == b {
      assert s2.t.InUse(b) && FreshAt(s2.t, kind, b);
      assert s2.m[b] == s.m[a];
    } else if c in s.objs {
      assert ObjectOk(s.t, c, s.objs[c]);
      ObjectStart(s.t, c, s.objs[c]);
      assert s.t.InUse(c);
      EvolvedBoxed(s.t, s2.t, from, c);
      assert OldObjectOk(s, from, shapes, c);
      if OldObject(s, from, c) {
        CopiedContents(s, s2, recording, from, shapes, a, b, n, kind, c);
      }
    }
  }

  lemma CopiedContents(s: State, s2: State, recording: Recording, from: nat, shapes: map<int, Shape>, a: int, b: int,
        n: int, kind: bool, c: int)
    requires c in shapes && OldObject(s, from, c) && ShapeOk(s, c, shapes[c]) && ObjectOk(s.t, c, s.objs[c])
    requires InvOk(s, from, shapes) && CopiedTo(s, s2, recording, a, b, n, kind)
    ensures 0 <= c && c + shapes[c].words <= |s.m|
    ensures forall x {:trigger s2.m[x]} ::
      c <= x < c + shapes[c].words ==> s2.m[x] == s.m[x] && (WordOk(s, s.m[x]) ==> WordOk(s2, s.m[x]))
    ensures Refers(s2.t, from, s.m[c + 1]) ==> Refers(s.t, from, s.m[c + 1])
  {
    hide Recorded, SlackZero, RawOk, RawApart, Unprotected, NewWordOk, ObjectsOk, RegionOk, PageOk;
    assert OldObjectOk(s, from, shapes, c);
    forall x {:trigger s2.m[x]} | c <= x < c + shapes[c].words
      ensures s2.m[x] == s.m[x] && (WordOk(s, s.m[x]) ==> WordOk(s2, s.m[x]))
    {
      assert s.t.InUse(x);
      if Refers(s2.t, from, s.m[x]) {
        EvolvedRefers(s.t, s2.t, from, s.m[x]);
      }
    }
    if Refers(s2.t, from, s.m[c + 1]) {
      EvolvedRefers(s.t, s2.t, from, s.m[c + 1]);
    }
  }

  /** Copying keeps the invariants, and only the copy itself is added to what has to be scavenged. */
  lemma CopiedInv(s: State, s2: State, recording: Recording, from: nat, shapes: map<int, Shape>, a: int, b: int, n: int,
        kind: bool)
    requires a in shapes && shapes[a].words == n && shapes[a].unboxed == kind && OldObject(s, from, a) && !Moved(s, a)
    requires n > 0
    requires InvOk(s, from, shapes) && CopiedTo(s, s2, recording, a, b, n, kind)
    ensures InvOk(s2, from, shapes) && Unmoved(s2, from) == Unmoved(s, from)
  {
    hide ObjectsOk, SlackZero, RawOk, RawApart, NewWordOk, OldObjectOk, Moved, OldObject;
    forall x ensures NewWordOk(s2, from, x) {
      CopiedWord(s, s2, recording, from, shapes, a, b, n, kind, x);
    }
    forall c ensures OldObjectOk(s2, from, shapes, c) && (OldObject(s2, from, c) <==> OldObject(s, from, c))
                     && (OldObject(s, from, c) ==> (Moved(s2, c) <==> Moved(s, c))) {
      CopiedOldObject(s, s2, recording, from, shapes, a, b, n, kind, c);
    }
    assert b !in Unmoved(s, from);
    assert !OldObject(s2, from, b) by {
      CopiedOldObject(s, s2, recording, from, shapes, a, b, n, kind, b);
      NotAnObject(s, from, b);
    }
    CopiedAreas(s, s2, recording, from, a, b, n, kind);
    CopiedSizes(s, s2, from, shapes, a, b, n);
    CopiedRaw(s, s2, recording, a, b, n, kind);
    SlackAllocated(s.t, s2.t, s.objs, s.m, s2.m, b, n);
  }

  lemma CopiedSizes(s: State, s2: State, from: nat, shapes: map<int, Shape>, a: int, b: int, n: int)
    requires InvOk(s, from, shapes) && OldObject(s, from, a) && a in shapes && shapes[a].words == n
    requires s2.objs == s.objs[b := b + n]
    ensures SizesOk(s2.objs)
  {
    hide ObjectsOk, SlackZero, RawOk, RawApart, NewWordOk;
    assert OldObjectOk(s, from, shapes, a);
  }

  /** A raw word is in use. */
  lemma RawInUse(t: Table, objs: map<int, int>, raw: set<int>, x: int)
    requires ObjectsOk(t, objs) && RawOk(objs, raw) && x in raw
    ensures t.InUse(x)
  {
    hide Headed, AloneOk;
    var a :| a in objs && a <= x < objs[a];
    assert ObjectOk(t, a, objs[a]);
  }

  /** A new object is not raw. */
  lemma NotRaw(t: Table, objs: map<int, int>, raw: set<int>, b: int, e: int, x: int)
    requires ObjectsOk(t, objs) && RawOk(objs, raw) && b <= x < e
    requires forall y {:trigger t.InUse(y)} :: b <= y < e ==> !t.InUse(y)
    ensures x !in raw
  {
    hide ObjectsOk, RawOk;
    if x in raw {
      RawInUse(t, objs, raw, x);
    }
  }

  lemma AddedRaw(t: Table, objs: map<int, int>, raw: set<int>, b: int, e: int)
    requires ObjectsOk(t, objs) && RawOk(objs, raw) && b !in objs && b < e
    requires forall x {:trigger t.InUse(x)} :: b <= x < e ==> !t.InUse(x)
    ensures RawOk(objs[b := e], raw) && forall x {:trigger x in raw} :: b <= x < e ==> x !in raw
  {
    forall x {:trigger x in raw} | b <= x < e ensures x !in raw {
      NotRaw(t, objs, raw, b, e, x);
    }
    hide ObjectsOk;
    var objs2 := objs[b := e];
    forall x {:trigger x in raw} | x in raw ensures InSome(objs2, x) {
      var a :| a in objs && a <= x < objs[a];
      assert a in objs2;
    }
    forall a {:trigger a in objs2} | a in objs2 ensures OneKind(objs2, raw, a) {
      if a != b {
        assert OneKind(objs, raw, a);
      }
    }
  }

  lemma CopiedRaw(s: State, s2: State, recording: Recording, a: int, b: int, n: int, kind: bool)
    requires RawOk(s.objs, s.raw) && RawApart(s.t, s.areas, s.raw) && ObjectsOk(s.t, s.objs) && n > 0
    requires CopiedTo(s, s2, recording, a, b, n, kind)
    ensures RawOk(s2.objs, s2.raw) && RawApart(s2.t, s2.areas, s2.raw) && b !in s2.raw
  {
    hide ObjectsOk, RawOk, Pending, Evolves, Fresh;
    assert forall x {:trigger s.t.InUse(x)} :: b <= x < b + n ==> !s.t.InUse(x);
    AddedRaw(s.t, s.objs, s.raw, b, b + n);
    forall x {:trigger x in s2.raw} | x in s2.raw ensures !Pending(s2.t, s2.areas, x) {
      assert Pending(s2.t, s2.areas, x) ==> Pending(s.t, s.areas, x) || b <= x < b + n;
    }
  }

  lemma NotAnObject(s: State, from: nat, b: int)
    requires b !in s.objs
    ensures !OldObject(s, from, b)
  {
  }

  lemma CopiedAreas(s: State, s2: State, recording: Recording, from: nat, a: int, b: int, n: int, kind: bool)
    requires s.t.Valid() && CopiedTo(s, s2, recording, a, b, n, kind) && from != s.t.gen
    requires forall x {:trigger Covered(s.areas, x)} :: Covered(s.areas, x) ==> Boxed(s.t, from, x)
    ensures forall x {:trigger Covered(s2.areas, x)} :: Covered(s2.areas, x) ==> Boxed(s2.t, from, x)
  {
    hide Covered, ObjectsOk, PageOk;
    forall x {:trigger Covered(s2.areas, x)} | Covered(s2.areas, x) ensures Boxed(s2.t, from, x) {
      assert Pending(s2.t, s2.areas, x);
      if b <= x < b + n && !kind {
        assert s2.t.InUse(x) && FreshAt(s2.t, kind, x);
      } else {
        if s.t.boxed.Holds(x) {
          HeldBoxed(s.t, from, x);
        }
        EvolvedBoxed(s.t, s2.t, from, x);
      }
    }
  }

  /** The words of the open boxed region are boxed words that are not in the old space. */
  lemma HeldBoxed(t: Table, from: nat, x: int)
    requires t.Valid() && t.boxed.Holds(x) && from != t.gen
    ensures Boxed(t, from, x)
  {
    HeldIsCovered(t, false, x);
    assert RegionPage(t.ps[x / PAGE], false, t.gen);
  }

  lemma CopiedSafe(s: State, s2: State, recording: Recording, from: nat, shapes: map<int, Shape>, a: int, b: int,
        n: int, kind: bool, later: iset<int>)
    requires a in shapes && shapes[a].words == n && shapes[a].unboxed == kind && OldObject(s, from, a) && !Moved(s, a)
    requires InvOk(s, from, shapes) && CopiedTo(s, s2, recording, a, b, n, kind) && Safe(s, from, later)
    requires LaterOk(recording, later)
    ensures Safe(s2, from, later)
  {
    hide InvOk, Pending, Todo, Evolves, Fresh, Gains, ObjectsOk;
    if |s2.areas| < NUM_NEW_AREAS {
      forall x {:trigger Todo(s2, from, x)} | Todo(s2, from, x) ensures x in later || Pending(s2.t, s2.areas, x) {
        CopiedWord(s, s2, recording, from, shapes, a, b, n, kind, x);
        assert Pending(s.t, s.areas, x) || !Pending(s.t, s.areas, x);
      }
    }
  }

  lemma CopiedClean(s: State, s2: State, recording: Recording, from: nat, shapes: map<int, Shape>, a: int, b: int,
        n: int, kind: bool, clean: set<nat>)
    requires a in shapes && shapes[a].words == n && shapes[a].unboxed == kind && OldObject(s, from, a) && !Moved(s, a)
    requires InvOk(s, from, shapes) && CopiedTo(s, s2, recording, a, b, n, kind) && Clean(s, from, clean)
    ensures Clean(s2, from, clean)
  {
    hide ObjectsOk, Recorded, SlackZero, RawOk, RawApart, Unprotected, NewWordOk, OldObjectOk, Refers;
    forall x {:trigger Todo(s2, from, x)} | Todo(s2, from, x) ensures s2.t.ps[x / PAGE].gen !in clean {
      CopiedWord(s, s2, recording, from, shapes, a, b, n, kind, x);
      if b <= x < b + n {
        assert s2.t.InUse(x) && FreshAt(s2.t, kind, x);
      } else {
        assert Todo(s, from, x);
        EvolvedBoxed(s.t, s2.t, from, x);
      }
    }
  }

  // ---------- Forwarding an object and updating a word ----------

  /** An object is on pages of one kind. */
  lemma {:induction false} ObjectKind(t: Table, a: int, e: int, x: int)
    requires t.Valid() && ObjectOk(t, a, e) && a <= x < e
    ensures 0 <= a / PAGE < |t.ps| && t.InUse(x) && t.ps[x / PAGE].unboxed == t.ps[a / PAGE].unboxed
    decreases x
  {
    assert t.InUse(a) && t.InUse(x);
    var i := x / PAGE;
    if a / PAGE < i {
      ObjectKind(t, a, e, Max(a, i * PAGE - 1));
      assert t.InUse(i * PAGE) && i * PAGE / PAGE == i;
      KindBefore(t, i);
    }
  }

  lemma KindBefore(t: Table, i: int)
    requires t.Valid() && t.InUse(i * PAGE) && 0 < i < |t.ps| && t.ps[i].offset != 0
    ensures t.ps[i].unboxed == t.ps[i - 1].unboxed
  {
    assert i * PAGE / PAGE == i;
    assert PageOk(t.ps, i);
    if t.ps[i].used == 0 {
      var k := t.unboxed.Holds(i * PAGE);
      HeldIsCovered(t, k, i * PAGE);
      assert t.Of(k).first < i;
      assert RegionPage(t.ps[i], k, t.gen) && RegionPage(t.ps[i - 1], k, t.gen);
    }
  }

  /** All words of an object that is not in the generation allocated to are on pages like its first one. */
  lemma {:induction false} OldWords(t: Table, a: int, e: int, x: int)
    requires t.Valid() && ObjectOk(t, a, e) && a <= x < e && 0 <= a / PAGE < |t.ps| && t.ps[a / PAGE].gen != t.gen
    ensures t.InUse(x) && t.ps[x / PAGE].gen == t.ps[a / PAGE].gen && t.ps[x / PAGE].used > 0
    decreases x
  {
    assert t.InUse(x) && t.InUse(a);
    var i := x / PAGE;
    if a / PAGE < i {
      OldWords(t, a, e, Max(a, i * PAGE - 1));
      assert t.InUse(i * PAGE) && i * PAGE / PAGE == i && t.ps[i].offset != 0;
      HeldNotOld(t, true, i);
      HeldNotOld(t, false, i);
      assert PageOk(t.ps, i);
    } else {
      HeldNew(t, true, x);
      HeldNew(t, false, x);
    }
  }

  lemma HeldNew(t: Table, k: bool, x: int)
    requires t.Valid() && t.InUse(x) && t.ps[x / PAGE].gen != t.gen
    ensures !t.Of(k).Holds(x)
  {
    if t.Of(k).Holds(x) {
      HeldIsCovered(t, k, x);
      CoveredPage(t, k, x / PAGE);
    }
  }

  lemma HeldNotOld(t: Table, k: bool, i: int)
    requires t.Valid() && 0 < i < |t.ps| && t.ps[i - 1].gen != t.gen && t.ps[i].offset != 0
    ensures !t.Of(k).Holds(i * PAGE)
  {
    assert PageOk(t.ps, i) && i * PAGE / PAGE == i;
    var before := t.ps[i - 1];
    if t.Of(k).Holds(i * PAGE) {
      HeldIsCovered(t, k, i * PAGE);
    }
  }

  /** The first two words of the object at a have become a forwarding pointer p. */
  ghost predicate Forwards(s: State, s2: State, a: int, p: int) {
    0 <= a && a + 1 < |s.m| && s2 == s.(m := s.m[a := FORWARDED][a + 1 := p])
  }

  /** Words that are not on boxed pages of the new space are not looked at there. */
  lemma OldNotBoxed(s: State, from: nat, shapes: map<int, Shape>, a: int, x: int)
    requires InvOk(s, from, shapes) && OldObject(s, from, a) && a <= x < s.objs[a]
    ensures !Boxed(s.t, from, x) && s.t.InUse(x)
  {
    hide SlackZero, RawOk, RawApart, Unprotected, NewWordOk, OldObjectOk, Headed, RegionOk, PageOk, AloneOk;
    assert ObjectOk(s.t, a, s.objs[a]);
    OldWords(s.t, a, s.objs[a], x);
  }

  lemma ForwardWord(s: State, s2: State, from: nat, shapes: map<int, Shape>, a: int, p: int, x: int)
    requires InvOk(s, from, shapes) && OldObject(s, from, a) && a + 1 < s.objs[a] && Forwards(s, s2, a, p)
    ensures NewWordOk(s2, from, x) && (Todo(s2, from, x) <==> Todo(s, from, x))
  {
    hide ObjectsOk, SlackZero, RawOk, RawApart, Unprotected, OldObjectOk;
    assert NewWordOk(s, from, x);
    if x == a || x == a + 1 {
      OldNotBoxed(s, from, shapes, a, x);
    }
  }

  lemma ForwardOldObject(s: State, s2: State, from: nat, shapes: map<int, Shape>, a: int, p: int, c: int)
    requires InvOk(s, from, shapes) && OldObject(s, from, a) && a + 1 < s.objs[a] && Forwards(s, s2, a, p)
    requires WordOk(s, p) && !Refers(s.t, from, p)
    ensures OldObjectOk(s2, from, shapes, c)
    ensures OldObject(s, from, c) && c != a ==> (Moved(s2, c) <==> Moved(s, c))
  {
    hide SlackZero, RawOk, RawApart, Unprotected, NewWordOk, Headed, AloneOk, ObjectOk;
    assert OldObjectOk(s, from, shapes, c);
    if c in s.objs && c != a {
      assert c < a ==> s.objs[c] <= a;
      assert a < c ==> s.objs[a] <= c;
    }
  }

  lemma ForwardSlack(s: State, s2: State, a: int, p: int)
    requires SlackZero(s.t, s.objs, s.m) && a in s.objs && a + 1 < s.objs[a] && Forwards(s, s2, a, p)
    ensures SlackZero(s2.t, s2.objs, s2.m)
  {
    forall x {:trigger s2.m[x]} | 0 <= x < |s2.m| && s2.t.InUse(x) && !InSome(s2.objs, x) ensures s2.m[x] == 0 {
      assert s2.m[x] == s.m[x];
    }
  }

  /** Forwarding keeps the invariants, and the object is one less that has not been moved. */
  lemma ForwardInv(s: State, s2: State, from: nat, shapes: map<int, Shape>, a: int, p: int)
    requires InvOk(s, from, shapes) && OldObject(s, from, a) && a + 1 < s.objs[a] && Forwards(s, s2, a, p)
    requires WordOk(s, p) && !Refers(s.t, from, p)
    ensures InvOk(s2, from, shapes) && Unmoved(s2, from) == Unmoved(s, from) - {a}
    ensures forall later: iset<int> :: Safe(s, from, later) ==> Safe(s2, from, later)
    ensures forall x {:trigger Todo(s2, from, x)} :: Todo(s2, from, x) ==> Todo(s, from, x)
  {
    hide ObjectsOk, SlackZero, RawOk, RawApart, NewWordOk, OldObjectOk, Todo;
    forall x ensures NewWordOk(s2, from, x) && (Todo(s2, from, x) <==> Todo(s, from, x)) {
      ForwardWord(s, s2, from, shapes, a, p, x);
    }
    forall c
      ensures OldObjectOk(s2, from, shapes, c) && (OldObject(s, from, c) && c != a ==> (Moved(s2, c) <==> Moved(s, c)))
    {
      ForwardOldObject(s, s2, from, shapes, a, p, c);
    }
    ForwardSlack(s, s2, a, p);
  }

  /** Word y, which referred to the old space, has become w, which does not. */
  ghost predicate Updates(s: State, s2: State, from: nat, y: int, w: int) {
    Todo(s, from, y) && WordOk(s, w) && !Refers(s.t, from, w) && s2 == s.(m := s.m[y := w])
  }

  lemma UpdateOldObject(s: State, s2: State, from: nat, shapes: map<int, Shape>, y: int, w: int, c: int)
    requires InvOk(s, from, shapes) && Updates(s, s2, from, y, w)
    ensures OldObjectOk(s2, from, shapes, c)
    ensures OldObject(s, from, c) ==> (Moved(s2, c) <==> Moved(s, c))
  {
    hide SlackZero, RawOk, RawApart, Unprotected, NewWordOk, ObjectsOk;
    assert OldObjectOk(s, from, shapes, c);
    if OldObject(s, from, c) && c <= y < s.objs[c] {
      OldNotBoxed(s, from, shapes, c, y);
    }
  }

  /** A word that refers to the old space is not on a write-protected page. */
  lemma NotProtected(s: State, from: nat, y: int)
    requires NewWordOk(s, from, y) && Todo(s, from, y)
    ensures !s.t.ps[y / PAGE].wp
  {
  }

  lemma UpdateWordOk(s: State, s2: State, from: nat, y: int, w: int, x: int)
    requires Updates(s, s2, from, y, w) && NewWordOk(s, from, x)
    ensures NewWordOk(s2, from, x) && (Todo(s2, from, x) ==> Todo(s, from, x))
  {
  }

  /** Updating a word keeps the invariants, and it does not have to be scavenged any more. */
  lemma UpdateInv(s: State, s2: State, from: nat, shapes: map<int, Shape>, y: int, w: int)
    requires InvOk(s, from, shapes) && Updates(s, s2, from, y, w)
    ensures InvOk(s2, from, shapes) && Unmoved(s2, from) == Unmoved(s, from) && !s.t.ps[y / PAGE].wp
    ensures forall x {:trigger Todo(s2, from, x)} :: Todo(s2, from, x) ==> Todo(s, from, x)
    ensures forall later: iset<int> :: Safe(s, from, later + iset{y}) ==> Safe(s2, from, later)
  {
    hide ObjectsOk, OldObjectOk, Boxed, Refers;
    forall c ensures OldObjectOk(s2, from, shapes, c) && (OldObject(s, from, c) ==> (Moved(s2, c) <==> Moved(s, c))) {
      UpdateOldObject(s, s2, from, shapes, y, w, c);
    }
    forall x ensures NewWordOk(s2, from, x) && (Todo(s2, from, x) ==> Todo(s, from, x)) {
      assert NewWordOk(s, from, x);
      UpdateWordOk(s, s2, from, y, w, x);
    }
    assert NewWordOk(s, from, y);
    NotProtected(s, from, y);
    UpdateSlack(s, s2, from, y, w);
    forall later: iset<int> | Safe(s, from, later + iset{y}) ensures Safe(s2, from, later) {
      forall x {:trigger Todo(s2, from, x)} | Todo(s2, from, x) && |s2.areas| < NUM_NEW_AREAS
        ensures x in later || Pending(s2.t, s2.areas, x)
      {
        assert Todo(s, from, x) && x != y;
      }
    }
  }

  lemma UpdateSlack(s: State, s2: State, from: nat, y: int, w: int)
    requires SlackZero(s.t, s.objs, s.m) && Updates(s, s2, from, y, w)
    ensures SlackZero(s2.t, s2.objs, s2.m)
  {
    assert s.m[y] != 0;
    forall x {:trigger s2.m[x]} | 0 <= x < |s2.m| && s2.t.InUse(x) && !InSome(s2.objs, x) ensures s2.m[x] == 0 {
      assert s.m[x] == 0 && x != y;
    }
  }

  // ---------- Promoting a large object ----------

  /** The large object of n words at a, on pages first to last, has become part of the new space. */
  ghost predicate PromotedTo(s: State, s2: State, recording: Recording, from: nat, a: int, last: int, n: int,
        kind: bool)
  {
    && a == a / PAGE * PAGE && LargeBlock(s.t, from, a / PAGE, last)
    && Resizes(s.t, s2.t, a / PAGE, last, n, s.t.gen, kind)
    && s2 == s.(t := s2.t, areas := s2.areas) && s2.t.Valid() && ObjectsOk(s2.t, s2.objs)
    && (if kind then s2.areas == s.areas else Records(s.areas, s2.areas, recording, Area(a / PAGE, 0, n)))
  }

  lemma PromotedRefers(s: State, s2: State, recording: Recording, from: nat, a: int, last: int, n: int, kind: bool,
        w: int)
    requires PromotedTo(s, s2, recording, from, a, last, n, kind) && from != s.t.gen
    ensures Refers(s2.t, from, w) ==> Refers(s.t, from, w)
    ensures Target(w) == a ==> !Refers(s2.t, from, w)
    ensures Dynamic(s2.t, w) <==> Dynamic(s.t, w)
  {
    var i := Target(w) / PAGE;
    if 0 <= i < |s.t.ps| {
      assert s2.t.ps[i] == ResizedPage(s.t.ps[i], i, a / PAGE, last, a + n, s.t.gen, kind);
    }
  }

  /** Words in use on other pages stay, and the words of the object are on new pages. */
  lemma PromotedWord(s: State, s2: State, recording: Recording, from: nat, a: int, last: int, n: int, kind: bool,
        x: int)
    requires PromotedTo(s, s2, recording, from, a, last, n, kind) && s.t.Valid() && from != s.t.gen
    ensures Boxed(s2.t, from, x) ==>
      (Boxed(s.t, from, x) && s2.t.ps[x / PAGE] == s.t.ps[x / PAGE]) ||
          (!kind && a <= x < a + n && !s2.t.ps[x / PAGE].wp && s2.t.ps[x / PAGE].gen == s.t.gen)
    ensures Boxed(s.t, from, x) ==> Boxed(s2.t, from, x) && s2.t.ps[x / PAGE] == s.t.ps[x / PAGE]
    ensures !kind && a <= x < a + n ==> Boxed(s2.t, from, x)
  {
    hide PageOk, RegionOk, Records, ObjectsOk;
    var first, i := a / PAGE, x / PAGE;
    ResizeInUse(s.t, s2.t, from, first, last, n, s.t.gen, kind, x);
    if 0 <= i < |s.t.ps| {
      assert s2.t.ps[i] == ResizedPage(s.t.ps[i], i, first, last, a + n, s.t.gen, kind);
      if first <= i <= last {
        assert LargePage(s.t.ps[i], s.t.ps[first], from, first - i);
      }
    }
    if a <= x < a + n {
      BlockWord(s.t, from, first, last, n, x);
    }
  }

  lemma BlockWord(t: Table, from: nat, first: int, last: int, n: int, x: int)
    requires t.Valid() && LargeBlock(t, from, first, last) && n <= (last - first) * PAGE + t.ps[last].used
    requires first * PAGE <= x < first * PAGE + n
    ensures t.InUse(x) && first <= x / PAGE <= last
  {
    UsedAtMost(t, last);
    var i := x / PAGE;
    assert first <= i <= last;
    assert LargePage(t.ps[i], t.ps[first], from, first - i);
  }

  lemma UsedAtMost(t: Table, i: int)
    requires t.Valid() && 0 <= i < |t.ps|
    ensures t.ps[i].used <= PAGE
  {
    assert PageOk(t.ps, i);
  }

  lemma PromotedOlder(s: State, s2: State, recording: Recording, from: nat, a: int, last: int, n: int, kind: bool,
        gen: nat, w: int)
    requires PromotedTo(s, s2, recording, from, a, last, n, kind) && from < gen && OlderOk(s.t, s.objs, gen, w)
    ensures OlderOk(s2.t, s2.objs, gen, w)
  {
    var i := Target(w) / PAGE;
    if 0 <= i < |s.t.ps| {
      assert s2.t.ps[i] == ResizedPage(s.t.ps[i], i, a / PAGE, last, a + n, s.t.gen, kind);
      assert a / PAGE <= i <= last ==> LargePage(s.t.ps[i], s.t.ps[a / PAGE], from, a / PAGE - i);
    }
  }

  lemma PromotedNewWord(s: State, s2: State, recording: Recording, from: nat, shapes: map<int, Shape>, a: int,
        last: int, n: int, kind: bool, x: int)
    requires a in shapes && shapes[a].words == n && shapes[a].unboxed == kind && OldObject(s, from, a) && !Moved(s, a)
    requires InvOk(s, from, shapes) && PromotedTo(s, s2, recording, from, a, last, n, kind)
    ensures NewWordOk(s2, from, x)
    ensures Todo(s2, from, x) ==> Todo(s, from, x) || (!kind && a <= x < a + n)
  {
    hide ObjectsOk, SlackZero, RawOk, RawApart, Unprotected, LargeBlock, Resizes, Records;
    PromotedWord(s, s2, recording, from, a, last, n, kind, x);
    assert NewWordOk(s, from, x) && OldObjectOk(s, from, shapes, a);
    if 0 <= x < |s.m| {
      if Tagged(s, from, x) && s.t.ps[x / PAGE].wp {
        PromotedOlder(s, s2, recording, from, a, last, n, kind, s.t.ps[x / PAGE].gen, s.m[x]);
      }
      PromotedRefers(s, s2, recording, from, a, last, n, kind, s.m[x]);
      assert a <= x < a + n && !kind ==> WordOk(s, s.m[x]);
    }
  }

  lemma PromotedOldObject(s: State, s2: State, recording: Recording, from: nat, shapes: map<int, Shape>, a: int,
        last: int, n: int, kind: bool, c: int)
    requires InvOk(s, from, shapes) && PromotedTo(s, s2, recording, from, a, last, n, kind) && a in s.objs
    requires !Moved(s, a)
    ensures OldObject(s2, from, c) <==> OldObject(s, from, c) && c != a
    ensures OldObjectOk(s2, from, shapes, c)
  {
    hide SlackZero, RawOk, RawApart, Unprotected, NewWordOk, ObjectsOk, Records;
    var first, i := a / PAGE, c / PAGE;
    if c in s.objs && 0 <= i < |s.t.ps| {
      assert s2.t.ps[i] == ResizedPage(s.t.ps[i], i, first, last, a + n, s.t.gen, kind);
      if c != a {
        LargeAlone(s.t, from, first, last, s.objs, c);
        ObjectNotEmpty(s.t, s.objs, c);
      }
      assert c != a ==> !(first <= i <= last);
      if OldObject(s2, from, c) {
        assert OldObjectOk(s, from, shapes, c);
        forall w: int
          ensures (Refers(s2.t, from, w) ==> Refers(s.t, from, w)) && (Dynamic(s2.t, w) ==> Dynamic(s.t, w))
        {
          PromotedRefers(s, s2, recording, from, a, last, n, kind, w);
        }
      }
    }
    assert OldObjectOk(s, from, shapes, c);
  }

  lemma ObjectNotEmpty(t: Table, objs: map<int, int>, a: int)
    requires ObjectsOk(t, objs) && a in objs
    ensures 0 <= a < objs[a]
  {
    assert ObjectOk(t, a, objs[a]);
  }

  lemma PromotedInv(s: State, s2: State, recording: Recording, from: nat, shapes: map<int, Shape>, a: int, last: int,
        n: int, kind: bool)
    requires a in shapes && shapes[a].words == n && shapes[a].unboxed == kind && OldObject(s, from, a) && !Moved(s, a)
    requires InvOk(s, from, shapes) && PromotedTo(s, s2, recording, from, a, last, n, kind)
    ensures InvOk(s2, from, shapes) && Unmoved(s2, from) == Unmoved(s, from) - {a}
  {
    hide ObjectsOk, SlackZero, RawOk, RawApart, NewWordOk, OldObjectOk, OldObject, LargeBlock, Boxed;
    forall x ensures NewWordOk(s2, from, x) {
      PromotedNewWord(s, s2, recording, from, shapes, a, last, n, kind, x);
    }
    forall c ensures OldObjectOk(s2, from, shapes, c) && (OldObject(s2, from, c) <==> OldObject(s, from, c) && c != a) {
      InObjs(s, from, a);
      PromotedOldObject(s, s2, recording, from, shapes, a, last, n, kind, c);
    }
    forall x {:trigger Covered(s2.areas, x)} | Covered(s2.areas, x) ensures Boxed(s2.t, from, x) {
      PromotedWord(s, s2, recording, from, a, last, n, kind, x);
      assert Covered(s.areas, x) || !Covered(s.areas, x);
    }
    SlackResized(s.t, s2.t, from, a / PAGE, last, n, s.t.gen, kind, s.objs, s.m);
    PromotedRaw(s, s2, recording, from, shapes, a, last, n, kind);
    PromotedUnprotected(s, s2, recording, from, a, last, n, kind);
  }

  lemma PromotedRaw(s: State, s2: State, recording: Recording, from: nat, shapes: map<int, Shape>, a: int, last: int,
        n: int, kind: bool)
    requires a in shapes && shapes[a].words == n && shapes[a].unboxed == kind && OldObject(s, from, a)
    requires InvOk(s, from, shapes) && PromotedTo(s, s2, recording, from, a, last, n, kind)
    ensures RawOk(s2.objs, s2.raw) && RawApart(s2.t, s2.areas, s2.raw)
  {
    hide ObjectsOk, SlackZero, NewWordOk, LargeBlock, Covered;
    assert OldObjectOk(s, from, shapes, a) && OneKind(s.objs, s.raw, a);
    forall x {:trigger x in s.raw} | x in s.raw ensures !Pending(s2.t, s2.areas, x) {
      assert Covered(s2.areas, x) ==> Covered(s.areas, x) || (!kind && a <= x < a + n);
    }
  }

  lemma InObjs(s: State, from: nat, a: int)
    requires OldObject(s, from, a)
    ensures a in s.objs
  {
  }

  lemma PromotedUnprotected(s: State, s2: State, recording: Recording, from: nat, a: int, last: int, n: int, kind: bool)
    requires PromotedTo(s, s2, recording, from, a, last, n, kind) && Unprotected(s.t.ps, from) && from != s.t.gen
    ensures Unprotected(s2.t.ps, from)
  {
    forall i {:trigger s2.t.ps[i]} | 0 <= i < |s2.t.ps| && s2.t.ps[i].alloc && s2.t.ps[i].gen == from
      ensures !s2.t.ps[i].wp
    {
      assert s2.t.ps[i] == ResizedPage(s.t.ps[i], i, a / PAGE, last, a + n, s.t.gen, kind);
    }
  }

  lemma PromotedSafe(s: State, s2: State, recording: Recording, from: nat, shapes: map<int, Shape>, a: int, last: int,
        n: int, kind: bool, later: iset<int>)
    requires a in shapes && shapes[a].words == n && shapes[a].unboxed == kind && OldObject(s, from, a) && !Moved(s, a)
    requires InvOk(s, from, shapes) && PromotedTo(s, s2, recording, from, a, last, n, kind)
    requires Safe(s, from, later) && LaterOk(recording, later)
    ensures Safe(s2, from, later)
  {
    hide InvOk, Todo, LargeBlock, ObjectsOk, Covered;
    if |s2.areas| < NUM_NEW_AREAS {
      forall x {:trigger Todo(s2, from, x)} | Todo(s2, from, x) ensures x in later || Pending(s2.t, s2.areas, x) {
        PromotedNewWord(s, s2, recording, from, shapes, a, last, n, kind, x);
        assert Covered(s.areas, x) || !Covered(s.areas, x);
        assert Covered(s2.areas, x) || !Covered(s2.areas, x);
      }
    }
  }

  lemma PromotedClean(s: State, s2: State, recording: Recording, from: nat, shapes: map<int, Shape>, a: int, last: int,
        n: int, kind: bool, clean: set<nat>)
    requires a in shapes && shapes[a].words == n && shapes[a].unboxed == kind && OldObject(s, from, a) && !Moved(s, a)
    requires InvOk(s, from, shapes) && PromotedTo(s, s2, recording, from, a, last, n, kind) && Clean(s, from, clean)
    ensures Clean(s2, from, clean)
  {
    PromotedGen(s, s2, recording, from, a, last, n, kind);
    hide InvOk, Refers, LargeBlock, Resizes, ObjectsOk, Records;
    forall x {:trigger Todo(s2, from, x)} | Todo(s2, from, x) ensures s2.t.ps[x / PAGE].gen !in clean {
      PromotedParts(s, from, shapes);
      PromotedWord(s, s2, recording, from, a, last, n, kind, x);
      PromotedRefers(s, s2, recording, from, a, last, n, kind, s.m[x]);
      assert Boxed(s.t, from, x) ==> Todo(s, from, x) || s2.t.ps[x / PAGE].gen == s.t.gen;
    }
  }

  lemma PromotedGen(s: State, s2: State, recording: Recording, from: nat, a: int, last: int, n: int, kind: bool)
    requires PromotedTo(s, s2, recording, from, a, last, n, kind)
    ensures s2.t.gen == s.t.gen
  {
  }

  lemma PromotedParts(s: State, from: nat, shapes: map<int, Shape>)
    requires InvOk(s, from, shapes)
    ensures s.t.Valid() && from != s.t.gen
  {
  }
}
