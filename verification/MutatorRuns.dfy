/** Whole runs of a program on the generational heap, src/lisp/gencgc.c: whatever it allocates, stores and loads, with
    garbage collections in between, it sees what it would see on a machine whose objects never move and are never
    freed. */
module MutatorRuns {
  import opened PageTable
  import opened PageObjects
  import opened PageGrowth
  import opened PageHeap
  import opened PageRuns
  import opened Newspace
  import opened ConservativeRoots
  import opened WordAccount
  import opened NewspaceMirror
  import opened NewspaceScan
  import opened Resting
  import opened KeptObjects
  import opened LiveObjects
  import opened GenerationalCollection
  import opened GenerationLoop

  // ---------- The machine without a collector ----------

  /** A word that refers to no object, or a reference. */
  datatype Value = Imm(w: int) | Ref(id: nat)

  datatype Object = Object(unboxed: bool, words: seq<Value>)

  /** All objects that there have been, the roots, which the program uses as registers, and what it has put out. */
  datatype Machine = Machine(objs: seq<Object>, roots: seq<Value>, out: seq<int>)

  /** What a program does: allocates an object of n zero words, loads a constant, loads or stores a word of a boxed
      object, writes or reads a word of an unboxed one, shrinks an object of either kind, or calls for a
      garbage collection; then filter says which words on the control stack are found valid though they are no
      references, and others are further words there, when a generation is collected. What it cannot do is left out. */
  datatype Action =
    | New(n: int, kind: bool, raw: bool, large: bool, tag: int, r: nat)
    | Constant(w: int, r: nat)
    | Load(r: nat, i: nat, r2: nat)
    | Store(r: nat, i: nat, r2: nat)
    | Poke(r: nat, i: nat, w: int)
    | Peek(r: nat, i: nat)
    | Shrink(r: nat, length: nat)
    | Collect(lastGen: nat, types: (int, int) -> HeaderType, filter: (int, int) -> bool, others: int -> seq<StackWord>)

  /** A word that does not point into a dynamic space of so many pages. */
  predicate Plain(pages: nat, w: int) {
    w != FORWARDED && !(Pointerp(w) && 0 <= Target(w) / PAGE < pages - 1)
  }

  /** Root r refers to an object of the kind that has a word i. */
  predicate Holds(m: Machine, r: nat, i: nat, unboxed: bool) {
    && r < |m.roots| && m.roots[r].Ref? && m.roots[r].id < |m.objs|
    && i < |m.objs[m.roots[r].id].words| && m.objs[m.roots[r].id].unboxed == unboxed
  }

  function WithWord(m: Machine, id: nat, i: nat, v: Value): Machine
    requires id < |m.objs| && i < |m.objs[id].words|
  {
    m.(objs := m.objs[id := m.objs[id].(words := m.objs[id].words[i := v])])
  }

  function WithLength(m: Machine, id: nat, n: nat): Machine
    requires id < |m.objs| && n <= |m.objs[id].words|
  {
    m.(objs := m.objs[id := m.objs[id].(words := m.objs[id].words[..n])])
  }

  /** Root r refers to an object that may be made n words long. */
  predicate Shrinkable(m: Machine, r: nat, n: nat) {
    2 <= n && n % 2 == 0 && (Holds(m, r, n - 1, true) || Holds(m, r, n - 1, false))
  }

  function WithRoot(m: Machine, r: nat, v: Value): Machine
    requires r < |m.roots|
  {
    m.(roots := m.roots[r := v])
  }

  function WithObject(m: Machine, n: nat, unboxed: bool, r: nat): Machine
    requires r < |m.roots|
  {
    WithRoot(m, r, Ref(|m.objs|)).(objs := m.objs + [Object(unboxed, seq(n, _ => Imm(0)))])
  }

  function Step(m: Machine, a: Action, pages: nat): Machine {
    match a
    case New(n, kind, raw, _, tag, r) =>
      if n > 0 && n % 2 == 0 && Pointerp(tag) && r < |m.roots| then WithObject(m, n, kind || raw, r) else m
    case Constant(w, r) => if r < |m.roots| && Plain(pages, w) then WithRoot(m, r, Imm(w)) else m
    case Load(r, i, r2) =>
      if Holds(m, r, i, false) && r2 < |m.roots| then WithRoot(m, r2, m.objs[m.roots[r].id].words[i]) else m
    case Store(r, i, r2) =>
      if Holds(m, r, i, false) && r2 < |m.roots| then WithWord(m, m.roots[r].id, i, m.roots[r2]) else m
    case Poke(r, i, w) =>
      if Holds(m, r, i, true) && (i == 0 ==> w != FORWARDED) then WithWord(m, m.roots[r].id, i, Imm(w)) else m
    case Peek(r, i) =>
      if Holds(m, r, i, true) && m.objs[m.roots[r].id].words[i].Imm?
      then m.(out := m.out + [m.objs[m.roots[r].id].words[i].w])
      else m
    case Shrink(r, n) => if Shrinkable(m, r, n) then WithLength(m, m.roots[r].id, n) else m
    case Collect(_, _, _, _) => m
  }

  function Steps(m: Machine, actions: seq<Action>, pages: nat): Machine {
    if actions == [] then m else Step(Steps(m, actions[..|actions| - 1], pages), actions[|actions| - 1], pages)
  }

  // ---------- What the machine does ----------

  /** What is stored is loaded again, and nothing else has changed. */
  lemma StoreLoad(m: Machine, r: nat, i: nat, r2: nat, r3: nat, pages: nat)
    requires Holds(m, r, i, false) && r2 < |m.roots| && r3 < |m.roots|
    ensures var m1 := Step(m, Store(r, i, r2), pages);
            && m1.roots == m.roots && m1.out == m.out
            && Step(m1, Load(r, i, r3), pages).roots == m.roots[r3 := m.roots[r2]]
            && (forall r4: nat, j: nat {:trigger Holds(m, r4, j, false)} ::
                  Holds(m, r4, j, false) && (m.roots[r4] != m.roots[r] || j != i) ==>
                    Step(m1, Load(r4, j, r3), pages).roots == Step(m, Load(r4, j, r3), pages).roots)
  {
  }

  /** What is written to an unboxed object is put out when it is read. */
  lemma PokePeek(m: Machine, r: nat, i: nat, w: int, pages: nat)
    requires Holds(m, r, i, true) && (i == 0 ==> w != 1)
    ensures Step(Step(m, Poke(r, i, w), pages), Peek(r, i), pages).out == m.out + [w]
  {
  }

  /** A new object has as many words as asked for, which are zero, and no root referred to it. */
  lemma NewZero(m: Machine, n: int, kind: bool, raw: bool, large: bool, tag: int, r: nat, i: nat, r2: nat, pages: nat)
    requires n > 0 && n % 2 == 0 && tag % 8 in {1, 3, 5, 7} && r < |m.roots| && r2 < |m.roots|
    requires forall k {:trigger m.roots[k]} :: 0 <= k < |m.roots| && m.roots[k].Ref? ==> m.roots[k].id < |m.objs|
    ensures var m1 := Step(m, New(n, kind, raw, large, tag, r), pages);
            && (Holds(m1, r, i, kind || raw) <==> i < n) && !Holds(m1, r, i, !(kind || raw))
            && (i < n && !kind && !raw ==> Step(m1, Load(r, i, r2), pages).roots[r2] == Imm(0))
            && (i < n && (kind || raw) ==> Step(m1, Peek(r, i), pages).out == m.out + [0])
            && (forall k {:trigger m1.roots[k]} :: 0 <= k < |m.roots| && k != r ==>
                  m1.roots[k] == m.roots[k] && m1.roots[k] != m1.roots[r])
  {
  }

  /** An object that has been shrunk has its first words still, and no others. */
  lemma ShrinkKeeps(m: Machine, r: nat, n: nat, i: nat, unboxed: bool, pages: nat)
    requires 2 <= n && n % 2 == 0 && Holds(m, r, n - 1, unboxed)
    ensures var m1 := Step(m, Shrink(r, n), pages);
            && (Holds(m1, r, i, unboxed) <==> i < n) && m1.roots == m.roots && m1.out == m.out
            && (i < n ==> m1.objs[m1.roots[r].id].words[i] == m.objs[m.roots[r].id].words[i])
  {
  }

  /** A word that is even, or an odd one that points elsewhere, is a constant; to the machine a collection is
      nothing. */
  lemma ConstantKept(m: Machine, w: int, r: nat, lastGen: nat, types: (int, int) -> HeaderType,
        filter: (int, int) -> bool, others: int -> seq<StackWord>, pages: nat)
    requires r < |m.roots| && w != 1 && (w % 2 == 0 || w < 8 * 0x1000_0000 || w >= 8 * (0x1000_0000 + 1024 * pages))
    ensures Step(m, Constant(w, r), pages).roots == m.roots[r := Imm(w)]
    ensures Step(m, Collect(lastGen, types, filter, others), pages) == m
  {
    assert w % 2 == 0 ==> !Pointerp(w);
  }

  // ---------- How the heap represents it ----------

  /** Word w stands for the value if the objects are where at says. */
  predicate RepWord(t: Table, at: map<nat, int>, v: Value, w: int) {
    match v
    case Imm(c) => w == c && Plain(|t.ps|, w)
    case Ref(id) => id in at && Dynamic(t, w) && Target(w) == at[id]
  }

  predicate RepCell(s: State, at: map<nat, int>, unboxed: bool, v: Value, x: int) {
    0 <= x < |s.m| && (if unboxed then v == Imm(s.m[x]) else RepWord(s.t, at, v, s.m[x]))
  }

  ghost predicate RepObject(o: Object, s: State, at: map<nat, int>, a: int) {
    && a in s.objs && s.objs[a] - a == |o.words| && (UnboxedAt(s, a) <==> o.unboxed)
    && forall i {:trigger o.words[i]} :: 0 <= i < |o.words| ==> RepCell(s, at, o.unboxed, o.words[i], a + i)
  }

  ghost predicate Rep(m: Machine, s: State, roots: seq<int>, at: map<nat, int>) {
    && |roots| == |m.roots|
    && (forall r {:trigger roots[r]} :: 0 <= r < |roots| ==> RepWord(s.t, at, m.roots[r], roots[r]))
    && (forall id {:trigger id in at} :: id in at ==> id < |m.objs| && RepObject(m.objs[id], s, at, at[id]))
    && (forall i, j {:trigger i in at, j in at} :: i in at && j in at && i != j ==> at[i] != at[j])
  }

  /** What root w refers to, if it is an object of the kind that has a word i. */
  predicate HoldsHere(s: State, w: int, i: nat, unboxed: bool) {
    Dynamic(s.t, w) && Target(w) in s.objs && i < s.objs[Target(w)] - Target(w) && UnboxedAt(s, Target(w)) == unboxed
  }

  lemma HoldsAlike(m: Machine, s: State, roots: seq<int>, at: map<nat, int>, r: nat, i: nat, unboxed: bool)
    requires Rep(m, s, roots, at)
    ensures Holds(m, r, i, unboxed) <==> r < |roots| && HoldsHere(s, roots[r], i, unboxed)
    ensures Holds(m, r, i, unboxed) ==> m.roots[r].id in at && Target(roots[r]) == at[m.roots[r].id]
  {
    if r < |roots| {
      assert RepWord(s.t, at, m.roots[r], roots[r]);
    }
  }

  lemma RepRootsOk(m: Machine, s: State, roots: seq<int>, at: map<nat, int>)
    requires Rep(m, s, roots, at)
    ensures RootsOk(s, roots)
  {
    forall r {:trigger roots[r]} | 0 <= r < |roots| ensures WordOk(s, roots[r]) {
      assert RepWord(s.t, at, m.roots[r], roots[r]);
    }
  }

  // ---------- Steps ----------

  lemma RepRoot(m: Machine, s: State, roots: seq<int>, at: map<nat, int>, r: nat, v: Value, w: int)
    requires Rep(m, s, roots, at) && r < |roots| && RepWord(s.t, at, v, w)
    ensures Rep(WithRoot(m, r, v), s, roots[r := w], at)
  {
    hide RepObject, RepWord;
  }

  /** No word belongs to two objects. */
  lemma WordsApart(s: State, a: int, b: int, x: int)
    requires ObjectsOk(s.t, s.objs) && a in s.objs && b in s.objs && a <= x < s.objs[a] && b <= x < s.objs[b]
    ensures a == b
  {
  }

  /** Word x has become w; nothing else has but for flags of pages. */
  ghost predicate Stores(s: State, s2: State, x: int, w: int) {
    && s2.objs == s.objs && s2.raw == s.raw && |s2.t.ps| == |s.t.ps| && 0 <= x < |s.m| && s2.m == s.m[x := w]
    && (forall p {:trigger s2.t.ps[p]} :: 0 <= p < |s.t.ps| ==> s2.t.ps[p].unboxed == s.t.ps[p].unboxed)
  }

  lemma RepStoreOther(o: Object, s: State, s2: State, at: map<nat, int>, a: int, b: int, x: int, w: int)
    requires RepObject(o, s, at, b) && Stores(s, s2, x, w) && ObjectsOk(s.t, s.objs) && a in s.objs
    requires a <= x < s.objs[a] && a != b
    ensures RepObject(o, s2, at, b)
  {
    hide ObjectsOk;
    forall i {:trigger o.words[i]} | 0 <= i < |o.words| ensures RepCell(s2, at, o.unboxed, o.words[i], b + i) {
      assert RepCell(s, at, o.unboxed, o.words[i], b + i);
      if b + i == x {
        WordsApart(s, a, b, x);
      }
    }
  }

  lemma RepStoreHere(o: Object, s: State, s2: State, at: map<nat, int>, a: int, k: nat, v: Value, w: int)
    requires RepObject(o, s, at, a) && k < |o.words| && Stores(s, s2, a + k, w) && 0 <= a
    requires if o.unboxed then v == Imm(w) else RepWord(s.t, at, v, w)
    ensures RepObject(o.(words := o.words[k := v]), s2, at, a)
  {
    var o2 := o.(words := o.words[k := v]);
    forall i {:trigger o2.words[i]} | 0 <= i < |o2.words| ensures RepCell(s2, at, o2.unboxed, o2.words[i], a + i) {
      assert RepCell(s, at, o.unboxed, o.words[i], a + i);
    }
  }

  /** Value v, which w stands for, is stored in word i of object id. */
  lemma RepStore(m: Machine, s: State, s2: State, roots: seq<int>, at: map<nat, int>, id: nat, i: nat, v: Value, w: int)
    requires Rep(m, s, roots, at) && id in at && id < |m.objs| && i < |m.objs[id].words| && ObjectsOk(s.t, s.objs)
    requires 0 <= at[id]
    requires if m.objs[id].unboxed then v == Imm(w) else RepWord(s.t, at, v, w)
    requires Stores(s, s2, at[id] + i, w)
    ensures Rep(WithWord(m, id, i, v), s2, roots, at)
  {
    hide RepObject, ObjectsOk;
    var m2 := WithWord(m, id, i, v);
    RepStoreHere(m.objs[id], s, s2, at, at[id], i, v, w);
    forall j {:trigger j in at} | j in at && j != id ensures RepObject(m2.objs[j], s2, at, at[j]) {
      RepBounds(m.objs[id], s, at, at[id]);
      RepStoreOther(m.objs[j], s, s2, at, at[id], at[j], at[id] + i, w);
    }
  }

  lemma RepBounds(o: Object, s: State, at: map<nat, int>, a: int)
    requires RepObject(o, s, at, a)
    ensures a in s.objs && s.objs[a] - a == |o.words|
  {
  }

  // ---------- Shrinking ----------

  /** The object at a has shrunk to n words, and no other words have changed. */
  ghost predicate Shortens(s: State, s2: State, a: int, n: nat) {
    && a in s.objs && 2 <= n <= s.objs[a] - a && s2.objs == s.objs[a := a + n]
    && s2.raw == s.raw - Span(a + n, s.objs[a]) && |s2.t.ps| == |s.t.ps| && |s2.m| == |s.m|
    && (forall x {:trigger s2.m[x]} :: 0 <= x < |s.m| && !(a + n <= x < s.objs[a]) ==> s2.m[x] == s.m[x])
    && (forall p {:trigger s2.t.ps[p]} :: 0 <= p < |s.t.ps| ==> s2.t.ps[p] == s.t.ps[p].(wp := s2.t.ps[p].wp))
  }

  lemma RepShortOther(o: Object, s: State, s2: State, at: map<nat, int>, a: int, b: int, n: nat)
    requires RepObject(o, s, at, b) && Shortens(s, s2, a, n) && ObjectsOk(s.t, s.objs) && a != b
    ensures RepObject(o, s2, at, b)
  {
    hide ObjectOk, Headed, AloneOk;
    assert s.objs[b] <= a || s.objs[a] <= b;
    forall i {:trigger o.words[i]} | 0 <= i < |o.words| ensures RepCell(s2, at, o.unboxed, o.words[i], b + i) {
      assert RepCell(s, at, o.unboxed, o.words[i], b + i);
    }
  }

  lemma RepShortHere(o: Object, s: State, s2: State, at: map<nat, int>, a: int, n: nat)
    requires RepObject(o, s, at, a) && Shortens(s, s2, a, n)
    ensures RepObject(o.(words := o.words[..n]), s2, at, a)
  {
    var o2 := o.(words := o.words[..n]);
    forall i {:trigger o2.words[i]} | 0 <= i < |o2.words| ensures RepCell(s2, at, o2.unboxed, o2.words[i], a + i) {
      assert RepCell(s, at, o.unboxed, o.words[i], a + i);
    }
  }

  /** The machine's object is cut too. */
  lemma RepShrink(m: Machine, s: State, s2: State, roots: seq<int>, at: map<nat, int>, id: nat, n: nat)
    requires Rep(m, s, roots, at) && id in at && id < |m.objs| && n <= |m.objs[id].words| && ObjectsOk(s.t, s.objs)
    requires Shortens(s, s2, at[id], n)
    ensures Rep(WithLength(m, id, n), s2, roots, at)
  {
    hide RepObject, ObjectsOk;
    var m2 := WithLength(m, id, n);
    RepShortHere(m.objs[id], s, s2, at, at[id], n);
    forall j {:trigger j in at} | j in at && j != id ensures RepObject(m2.objs[j], s2, at, at[j]) {
      RepShortOther(m.objs[j], s, s2, at, at[id], at[j], n);
    }
  }

  // ---------- Allocation ----------

  lemma AllocatedKind(s: State, s2: State, b: int, n: int, kind: bool, raw: bool, a: int)
    requires RestOk(s) && Allocates(s, s2, b, n, kind, raw) && a in s.objs
    ensures a in s2.objs && s2.objs[a] == s.objs[a] && (UnboxedAt(s2, a) <==> UnboxedAt(s, a)) && |s2.t.ps| == |s.t.ps|
    ensures forall x {:trigger s2.m[x]} :: a <= x < s.objs[a] && 0 <= x < |s.m| ==> s2.m[x] == s.m[x]
  {
    hide ObjectsOk, SlackZero, SizesOk, RestWordOk, RawOk, Fresh, PageOk, RegionOk;
    ObjectInUse(s, a);
    assert s.t.InUse(a) && SamePage(s.t, s2.t, a);
  }

  lemma AllocatedObject(o: Object, s: State, s2: State, b: int, n: int, kind: bool, raw: bool, at: map<nat, int>,
        at2: map<nat, int>, a: int)
    requires RestOk(s) && Allocates(s, s2, b, n, kind, raw) && RepObject(o, s, at, a)
    requires forall id {:trigger id in at2} {:trigger id in at} :: id in at ==> id in at2 && at2[id] == at[id]
    ensures RepObject(o, s2, at2, a)
  {
    hide RestOk, Allocates;
    AllocatedLength(s, s2, b, n, kind, raw);
    AllocatedKind(s, s2, b, n, kind, raw, a);
    forall i {:trigger o.words[i]} | 0 <= i < |o.words| ensures RepCell(s2, at2, o.unboxed, o.words[i], a + i) {
      assert RepCell(s, at, o.unboxed, o.words[i], a + i);
      assert s2.m[a + i] == s.m[a + i];
    }
  }

  lemma AllocatedLength(s: State, s2: State, b: int, n: int, kind: bool, raw: bool)
    requires Allocates(s, s2, b, n, kind, raw)
    ensures |s2.m| == |s.m| && |s2.t.ps| == |s.t.ps| && b !in s.objs
  {
  }

  /** The new object has zero words. */
  lemma NewObject(s: State, s2: State, b: int, n: nat, kind: bool, raw: bool, at: map<nat, int>)
    requires RestOk(s) && Allocates(s, s2, b, n, kind, raw) && n > 0
    ensures RepObject(Object(kind || raw, seq(n, _ => Imm(0))), s2, at, b)
  {
    hide ObjectsOk, SlackZero, SizesOk, RestWordOk, Evolves, PageOk, RegionOk;
    assert s2.t.InUse(b) && FreshAt(s2.t, kind, b);
    assert !s.t.InUse(b);
    NotRaw(s.t, s.objs, s.raw, b, b + n, b);
    var o := Object(kind || raw, seq(n, _ => Imm(0)));
    forall i {:trigger o.words[i]} | 0 <= i < |o.words| ensures RepCell(s2, at, o.unboxed, o.words[i], b + i) {
      assert s2.m[b + i] == 0;
    }
  }

  lemma RepNew(m: Machine, s: State, s2: State, roots: seq<int>, at: map<nat, int>, b: int, n: nat, kind: bool,
        raw: bool, r: nat, w: int)
    requires Rep(m, s, roots, at) && RestOk(s) && Allocates(s, s2, b, n, kind, raw) && n > 0 && r < |roots|
    requires Dynamic(s2.t, w) && Target(w) == b
    ensures Rep(WithObject(m, n, kind || raw, r), s2, roots[r := w], at[|m.objs| := b])
  {
    hide RestOk, Allocates, RepObject;
    var m2, at2 := WithObject(m, n, kind || raw, r), at[|m.objs| := b];
    AllocatedLength(s, s2, b, n, kind, raw);
    NewObject(s, s2, b, n, kind, raw, at2);
    forall id {:trigger id in at2} | id in at2 ensures id < |m2.objs| && RepObject(m2.objs[id], s2, at2, at2[id]) {
      if id in at {
        RepBounds(m.objs[id], s, at, at[id]);
        AllocatedObject(m.objs[id], s, s2, b, n, kind, raw, at, at2, at[id]);
      }
    }
    forall i {:trigger i in at} | i in at ensures at[i] != b && i < |m.objs| {
      RepBounds(m.objs[i], s, at, at[i]);
    }
  }

  // ---------- Garbage collection ----------

  /** Where the objects are after a collection. */
  ghost function Relocated(at: map<nat, int>, loc: map<int, int>): map<nat, int> {
    map id | id in at && at[id] in loc :: loc[at[id]]
  }

  lemma RepFollows(s: State, s2: State, at: map<nat, int>, loc: map<int, int>, v: Value, w0: int, w: int)
    requires RepWord(s.t, at, v, w0) && WordFollows(s, s2, loc, w0, w) && |s2.t.ps| == |s.t.ps|
    ensures RepWord(s2.t, Relocated(at, loc), v, w)
  {
  }

  lemma RepKept(o: Object, s: State, s2: State, at: map<nat, int>, loc: map<int, int>, a: int)
    requires RepObject(o, s, at, a) && a in loc && ObjectKept(s, s2, loc, a) && |s2.t.ps| == |s.t.ps|
    ensures RepObject(o, s2, Relocated(at, loc), loc[a])
  {
    hide RepWord, WordFollows;
    var b := loc[a];
    assert UnboxedAt(s, a) == o.unboxed;
    forall i {:trigger o.words[i]} | 0 <= i < |o.words|
      ensures RepCell(s2, Relocated(at, loc), o.unboxed, o.words[i], b + i)
    {
      assert RepCell(s, at, o.unboxed, o.words[i], a + i);
      assert WordStays(s, s2, loc, UnboxedAt(s, a), a - b, b + i);
      assert b + i + (a - b) == a + i;
      if !o.unboxed {
        RepFollows(s, s2, at, loc, o.words[i], s.m[a + i], s2.m[b + i]);
      }
    }
  }

  /** The machine does not notice a garbage collection. */
  lemma RepCollected(m: Machine, s: State, s2: State, roots: seq<int>, roots2: seq<int>, at: map<nat, int>,
        loc: map<int, int>)
    requires Rep(m, s, roots, at) && Kept(s, s2, loc) && RootsKept(s, s2, loc, roots, roots2)
    ensures Rep(m, s2, roots2, Relocated(at, loc))
  {
    hide RepObject, RepWord, WordFollows, ObjectKept;
    var at2 := Relocated(at, loc);
    forall r {:trigger roots2[r]} | 0 <= r < |roots2| ensures RepWord(s2.t, at2, m.roots[r], roots2[r]) {
      RepFollows(s, s2, at, loc, m.roots[r], roots[r], roots2[r]);
    }
    forall id {:trigger id in at2} | id in at2 ensures id < |m.objs| && RepObject(m.objs[id], s2, at2, at2[id]) {
      RepKept(m.objs[id], s, s2, at, loc, at[id]);
    }
  }

  // ---------- Runs ----------

  /** The words that the program uses as registers: roots that are scavenged, and words on the control stack, which the
      collector does not know to be references. */
  class Registers {
    const roots: array<int>
    const stack: array<int>

    constructor (count: nat, stacked: nat)
      ensures fresh(roots) && fresh(stack) && roots != stack && Words() == seq(count + stacked, _ => 0)
      ensures stack.Length == stacked
    {
      roots := new int[count](_ => 0);
      stack := new int[stacked](_ => 0);
    }

    predicate Apart(h: Heap) {
      roots != stack && roots != h.mem && stack != h.mem
    }

    function Words(): seq<int>
      reads roots, stack
    {
      roots[..] + stack[..]
    }

    function Count(): (n: nat)
      reads roots, stack
      ensures n == |Words()|
    {
      roots.Length + stack.Length
    }

    function Get(r: nat): (w: int)
      requires r < Count()
      reads roots, stack
      ensures w == Words()[r]
    {
      if r < roots.Length then roots[r] else stack[r - roots.Length]
    }

    method Set(r: nat, w: int)
      requires r < Count() && roots != stack
      modifies roots, stack
      ensures Words() == old(Words())[r := w]
    {
      if r < roots.Length {
        roots[r] := w;
      } else {
        stack[r - roots.Length] := w;
      }
    }
  }

  /** The heap is as the program needs it, and represents the machine. */
  ghost predicate Runs(m: Machine, h: Heap, regs: Registers, at: map<nat, int>)
    reads h, h.pages, h.mem, h.gens, regs.roots, regs.stack
  {
    Idle(h) && Rep(m, S(h), regs.Words(), at)
  }

  lemma IdleFacts(h: Heap)
    requires Idle(h)
    ensures h.Valid() && RestOk(S(h)) && ObjectsOk(h.T(), h.objs) && h.mem.Length == (h.pages.Length - 1) * PAGE
    ensures forall a {:trigger a in h.objs} :: a in h.objs ==> 0 <= a < h.objs[a] <= h.mem.Length
  {
    forall a {:trigger a in h.objs} | a in h.objs ensures 0 <= a < h.objs[a] <= h.mem.Length {
      ObjectInUse(S(h), a);
    }
  }

  /** Tests whether the root refers to an object of the kind that has a word i. */
  method Test(h: Heap, w: int, i: nat, unboxed: bool) returns (holds: bool)
    ensures holds == HoldsHere(S(h), w, i, unboxed)
  {
    var a := Target(w);
    holds := Pointerp(w) && 0 <= a / PAGE < h.pages.Length - 1 && a in h.objs && i < h.objs[a] - a &&
      IsUnboxed(h.pages[..], h.raw, a) == unboxed;
  }

  method SetRoot(h: Heap, regs: Registers, r: nat, w: int, ghost m: Machine, ghost at: map<nat, int>, ghost v: Value)
    requires Runs(m, h, regs, at) && regs.Apart(h) && r < regs.Count() && RepWord(h.T(), at, v, w)
    modifies regs.roots, regs.stack
    ensures Runs(WithRoot(m, r, v), h, regs, at)
  {
    hide HeapOk, RestOk, Rep, RepWord;
    ghost var words, s := regs.Words(), S(h);
    RepLength(m, s, words, at);
    regs.Set(r, w);
    assert regs.Words() == words[r := w] && S(h) == s;
    RepRoot(m, s, words, at, r, v, w);
  }

  lemma RepLength(m: Machine, s: State, roots: seq<int>, at: map<nat, int>)
    requires Rep(m, s, roots, at)
    ensures |roots| == |m.roots|
  {
  }

  method DoConstant(h: Heap, regs: Registers, w: int, r: nat, ghost m: Machine, ghost at: map<nat, int>)
    requires Runs(m, h, regs, at) && regs.Apart(h)
    modifies regs.roots, regs.stack
    ensures Runs(Step(m, Constant(w, r), h.pages.Length), h, regs, at)
  {
    hide HeapOk, RestOk, Rep;
    RepLength(m, S(h), regs.Words(), at);
    if r < regs.Count() && Plain(h.pages.Length, w) {
      SetRoot(h, regs, r, w, m, at, Imm(w));
    }
  }

  /** What the machine has in word i of the object that root r refers to. */
  ghost function WordOf(m: Machine, r: nat, i: nat): Value
    requires Holds(m, r, i, true) || Holds(m, r, i, false)
  {
    m.objs[m.roots[r].id].words[i]
  }

  /** What register word w refers to represents what root r of the machine does. */
  ghost predicate Here(m: Machine, s: State, at: map<nat, int>, r: nat, i: nat, unboxed: bool, w: int) {
    && Holds(m, r, i, unboxed) && HoldsHere(s, w, i, unboxed) && m.roots[r].id in at && Target(w) == at[m.roots[r].id]
    && 0 <= Target(w) && Target(w) + i < |s.m|
    && (if unboxed then WordOf(m, r, i) == Imm(s.m[Target(w) + i])
        else RepWord(s.t, at, WordOf(m, r, i), s.m[Target(w) + i]))
  }

  lemma RepHereAt(m: Machine, s: State, words: seq<int>, at: map<nat, int>, r: nat, i: nat, unboxed: bool)
    requires Rep(m, s, words, at) && Holds(m, r, i, unboxed)
    requires forall a {:trigger a in s.objs} :: a in s.objs ==> 0 <= a < s.objs[a] <= |s.m|
    ensures r < |words| && Here(m, s, at, r, i, unboxed, words[r])
  {
    hide RepWord, HoldsHere;
    HoldsAlike(m, s, words, at, r, i, unboxed);
    var id := m.roots[r].id;
    assert RepObject(m.objs[id], s, at, at[id]);
    assert RepCell(s, at, unboxed, m.objs[id].words[i], at[id] + i);
  }

  lemma RepHere(m: Machine, h: Heap, regs: Registers, at: map<nat, int>, r: nat, i: nat, unboxed: bool)
    requires Runs(m, h, regs, at) && Holds(m, r, i, unboxed)
    ensures r < regs.Count() && Here(m, S(h), at, r, i, unboxed, regs.Get(r))
  {
    hide HeapOk, RestOk, Rep, Here;
    IdleFacts(h);
    RepHereAt(m, S(h), regs.Words(), at, r, i, unboxed);
  }

  method DoLoad(h: Heap, regs: Registers, r: nat, i: nat, r2: nat, ghost m: Machine, ghost at: map<nat, int>)
    requires Runs(m, h, regs, at) && regs.Apart(h)
    modifies regs.roots, regs.stack
    ensures Runs(Step(m, Load(r, i, r2), h.pages.Length), h, regs, at)
  {
    hide HeapOk, RestOk, Rep, RepWord, HoldsHere;
    RepLength(m, S(h), regs.Words(), at);
    HoldsAlike(m, S(h), regs.Words(), at, r, i, false);
    if r < regs.Count() && r2 < regs.Count() {
      var holds := Test(h, regs.Get(r), i, false);
      if holds {
        RepHere(m, h, regs, at, r, i, false);
        SetRoot(h, regs, r2, h.mem[Target(regs.Get(r)) + i], m, at, WordOf(m, r, i));
      }
    }
  }

  /** Stores a word that stands for value v in an object. */
  method SetWord(h: Heap, regs: Registers, r: nat, i: nat, w: int, unboxed: bool, ghost m: Machine,
        ghost at: map<nat, int>, ghost v: Value)
    requires Runs(m, h, regs, at) && regs.Apart(h) && r < regs.Count() && Holds(m, r, i, unboxed)
    requires (if unboxed then v == Imm(w) else RepWord(h.T(), at, v, w)) && (i == 0 ==> w != FORWARDED)
    requires unboxed || WordOk(S(h), w)
    modifies h.pages, h.mem
    ensures Runs(WithWord(m, m.roots[r].id, i, v), h, regs, at) && SameOlder(old(h.pages[..]), h.pages[..], 1)
  {
    hide HeapOk, RestOk, Rep, RepWord, WordOk, ObjectsOk, SameOlder;
    RepHere(m, h, regs, at, r, i, unboxed);
    IdleFacts(h);
    ghost var s, words := S(h), regs.Words();
    RepId(m, s, words, at, m.roots[r].id);
    var a := Target(regs.Get(r));
    StoreWord(h, a, a + i, w);
    assert regs.Words() == words;
    assert Stores(s, S(h), a + i, w);
    FlagsOlder(s.t.ps, h.pages[..], 1);
    RepStore(m, s, S(h), words, at, m.roots[r].id, i, v, w);
  }

  lemma RepId(m: Machine, s: State, roots: seq<int>, at: map<nat, int>, id: nat)
    requires Rep(m, s, roots, at) && id in at
    ensures id < |m.objs| && RepObject(m.objs[id], s, at, at[id])
  {
  }

  lemma SameOlderSelf(ps: seq<Page>)
    ensures SameOlder(ps, ps, 1)
  {
  }

  method DoStore(h: Heap, regs: Registers, r: nat, i: nat, r2: nat, ghost m: Machine, ghost at: map<nat, int>)
    requires Runs(m, h, regs, at) && regs.Apart(h)
    modifies h.pages, h.mem
    ensures Runs(Step(m, Store(r, i, r2), h.pages.Length), h, regs, at)
    ensures SameOlder(old(h.pages[..]), h.pages[..], 1)
  {
    hide SameOlder, HeapOk, RestOk, Rep, RepWord, HoldsHere;
    SameOlderSelf(h.pages[..]);
    RepLength(m, S(h), regs.Words(), at);
    HoldsAlike(m, S(h), regs.Words(), at, r, i, false);
    if r < regs.Count() && r2 < regs.Count() {
      var holds := Test(h, regs.Get(r), i, false);
      if holds {
        RepRootsOk(m, S(h), regs.Words(), at);
        RootStands(m, S(h), regs.Words(), at, r2);
        SetWord(h, regs, r, i, regs.Get(r2), false, m, at, m.roots[r2]);
      }
    }
  }

  lemma RootStands(m: Machine, s: State, roots: seq<int>, at: map<nat, int>, r: nat)
    requires Rep(m, s, roots, at) && r < |roots|
    ensures r < |m.roots| && RepWord(s.t, at, m.roots[r], roots[r]) && roots[r] != FORWARDED
  {
    RepRootsOk(m, s, roots, at);
  }

  method DoPoke(h: Heap, regs: Registers, r: nat, i: nat, w: int, ghost m: Machine, ghost at: map<nat, int>)
    requires Runs(m, h, regs, at) && regs.Apart(h)
    modifies h.pages, h.mem
    ensures Runs(Step(m, Poke(r, i, w), h.pages.Length), h, regs, at)
    ensures SameOlder(old(h.pages[..]), h.pages[..], 1)
  {
    hide SameOlder, HeapOk, RestOk, Rep, RepWord, HoldsHere;
    SameOlderSelf(h.pages[..]);
    RepLength(m, S(h), regs.Words(), at);
    HoldsAlike(m, S(h), regs.Words(), at, r, i, true);
    if r < regs.Count() && (i == 0 ==> w != FORWARDED) {
      var holds := Test(h, regs.Get(r), i, true);
      if holds {
        SetWord(h, regs, r, i, w, true, m, at, Imm(w));
      }
    }
  }

  method DoPeek(h: Heap, regs: Registers, r: nat, i: nat, out: seq<int>, ghost m: Machine, ghost at: map<nat, int>)
        returns (out2: seq<int>)
    requires Runs(m, h, regs, at) && m.out == out
    ensures Runs(Step(m, Peek(r, i), h.pages.Length), h, regs, at) && Step(m, Peek(r, i), h.pages.Length).out == out2
  {
    hide HeapOk, RestOk, RepWord, HoldsHere, RepObject;
    HoldsAlike(m, S(h), regs.Words(), at, r, i, true);
    out2 := out;
    if r < regs.Count() {
      var holds := Test(h, regs.Get(r), i, true);
      if holds {
        RepHere(m, h, regs, at, r, i, true);
        out2 := out + [h.mem[Target(regs.Get(r)) + i]];
      }
    }
  }

  method DoShrink(h: Heap, regs: Registers, r: nat, n: nat, ghost m: Machine, ghost at: map<nat, int>)
    requires Runs(m, h, regs, at) && regs.Apart(h)
    modifies h`objs, h`raw, h.pages, h.mem
    ensures Runs(Step(m, Shrink(r, n), h.pages.Length), h, regs, at)
    ensures SameOlder(old(h.pages[..]), h.pages[..], 1)
  {
    hide SameOlder, HeapOk, RestOk, Rep, RepWord, HoldsHere, ObjectsOk, Here;
    SameOlderSelf(h.pages[..]);
    RepLength(m, S(h), regs.Words(), at);
    if r < regs.Count() && 2 <= n && n % 2 == 0 {
      HoldsAlike(m, S(h), regs.Words(), at, r, n - 1, true);
      HoldsAlike(m, S(h), regs.Words(), at, r, n - 1, false);
      var raw := Test(h, regs.Get(r), n - 1, true);
      var tagged := Test(h, regs.Get(r), n - 1, false);
      if raw || tagged {
        HereSize(S(h), regs.Get(r), n - 1, raw);
        IdleFacts(h);
        ghost var s, words := S(h), regs.Words();
        RepId(m, s, words, at, m.roots[r].id);
        var a := Target(regs.Get(r));
        Resting.Shrink(h, a, n);
        assert regs.Words() == words;
        assert Shortens(s, S(h), a, n);
        ShrunkOlder(s, S(h), a, n);
        RepShrink(m, s, S(h), words, at, m.roots[r].id, n);
      }
    }
  }

  lemma HereSize(s: State, w: int, i: nat, unboxed: bool)
    requires HoldsHere(s, w, i, unboxed)
    ensures Target(w) in s.objs && i < s.objs[Target(w)] - Target(w)
  {
  }

  method DoNew(h: Heap, regs: Registers, n: int, kind: bool, raw: bool, large: bool, tag: int, r: nat,
        ghost m: Machine, ghost at: map<nat, int>)
      returns (ok: bool, ghost at2: map<nat, int>)
    requires Runs(m, h, regs, at) && regs.Apart(h)
    modifies h, h.pages, h.mem, h.gens, regs.roots, regs.stack
    ensures h.Valid()
    ensures if ok then Runs(Step(m, New(n, kind, raw, large, tag, r), h.pages.Length), h, regs, at2)
            else h.Exhausted(n, kind)
    ensures ok ==> SameOlder(old(h.pages[..]), h.pages[..], 1)
  {
    hide HeapOk, RestOk, Rep, Allocates, ObjectsOk, SameOlder;
    SameOlderSelf(h.pages[..]);
    ok, at2 := true, at;
    RepLength(m, S(h), regs.Words(), at);
    IdleFacts(h);
    if n > 0 && n % 2 == 0 && Pointerp(tag) && r < regs.Count() {
      ghost var s, words := S(h), regs.Words();
      var a := Allocate(h, n, kind, raw, large);
      if !a.At? {
        return false, at;
      }
      IdleFacts(h);
      AllocatedHere(s, S(h), a.addr, n, kind, raw);
      AllocatedOlder(s, S(h), a.addr, n, kind, raw);
      ObjectDynamicHere(S(h), a.addr, Pointer(a.addr, tag));
      RepNew(m, s, S(h), words, at, a.addr, n, kind, raw, r, Pointer(a.addr, tag));
      at2 := at[|m.objs| := a.addr];
      ghost var s2 := S(h);
      regs.Set(r, Pointer(a.addr, tag));
      assert S(h) == s2 && regs.Words() == words[r := Pointer(a.addr, tag)];
    }
  }

  lemma ShrunkOlder(s: State, s2: State, a: int, n: nat)
    requires Shortens(s, s2, a, n)
    ensures SameOlder(s.t.ps, s2.t.ps, 1)
  {
  }

  lemma AllocatedOlder(s: State, s2: State, b: int, n: int, kind: bool, raw: bool)
    requires RestOk(s) && s.t.gen == 0 && Allocates(s, s2, b, n, kind, raw)
    ensures SameOlder(s.t.ps, s2.t.ps, 1)
  {
    hide SlackZero, RestWordOk, RawOk, PageOk, RegionOk, SizesOk, ObjectsOk, Evolves;
    FlushedOlder(s.t, s2.t);
  }

  lemma AllocatedHere(s: State, s2: State, b: int, n: int, kind: bool, raw: bool)
    requires Allocates(s, s2, b, n, kind, raw)
    ensures b in s2.objs && 0 <= b
  {
  }

  lemma ObjectDynamicHere(s: State, a: int, w: int)
    requires RestOk(s) && a in s.objs && Pointerp(w) && Target(w) == a
    ensures Dynamic(s.t, w)
  {
    hide SlackZero, RestWordOk, RawOk, PageOk, RegionOk, SizesOk;
    FirstInUse(s.t, s.objs, a);
  }

  /** What valid_dynamic_space_pointer says of words on the control stack: references are valid, and other words may
      be. */
  function Verdicts(t: Table, words: seq<int>, filter: int -> bool): seq<StackWord> {
    seq(|words|, i requires 0 <= i < |words| => StackWord(words[i], Dynamic(t, words[i]) || filter(words[i])))
  }

  lemma VerdictsCover(t: Table, words: seq<int>, filter: int -> bool, others: seq<StackWord>)
    ensures Covers(Verdicts(t, words, filter) + others, Verdicts(t, words, _ => false))
  {
    var stack, firm := Verdicts(t, words, filter), Verdicts(t, words, _ => false);
    forall k {:trigger firm[k]} | 0 <= k < |firm| && firm[k].valid ensures firm[k] in stack + others {
      assert (stack + others)[k] == firm[k];
    }
  }

  /** A register on the control stack refers to its object still. */
  lemma StackFollows(m: Machine, s: State, s2: State, words: seq<int>, at: map<nat, int>, loc: map<int, int>, k: nat,
        i: nat)
    requires Rep(m, s, words, at) && k <= i < |words| && |s2.t.ps| == |s.t.ps|
    requires forall a {:trigger a in s.objs} :: a in s.objs ==> a < s.objs[a]
    requires StackKept(s, Verdicts(s.t, words[k..], _ => false), loc)
    ensures WordFollows(s, s2, loc, words[i], words[i])
  {
    var w, stack := words[i], Verdicts(s.t, words[k..], _ => false);
    assert RepWord(s.t, at, m.roots[i], w);
    assert stack[i - k] == StackWord(w, Dynamic(s.t, w));
    if Dynamic(s.t, w) {
      RepBounds(m.objs[m.roots[i].id], s, at, at[m.roots[i].id]);
      assert Touched(s.objs, stack, Target(w));
    }
  }

  /** All registers have followed their objects. */
  lemma RegistersKept(m: Machine, s: State, s2: State, roots: seq<int>, roots2: seq<int>, stack: seq<int>,
        at: map<nat, int>, loc: map<int, int>)
    requires Rep(m, s, roots + stack, at) && |s2.t.ps| == |s.t.ps| && RootsKept(s, s2, loc, roots, roots2)
    requires forall a {:trigger a in s.objs} :: a in s.objs ==> a < s.objs[a]
    requires StackKept(s, Verdicts(s.t, stack, _ => false), loc)
    ensures RootsKept(s, s2, loc, roots + stack, roots2 + stack)
  {
    hide Rep, WordFollows, StackKept;
    var words, words2 := roots + stack, roots2 + stack;
    assert words[|roots|..] == stack;
    forall i {:trigger words2[i]} | 0 <= i < |words2| ensures WordFollows(s, s2, loc, words[i], words2[i]) {
      if i < |roots| {
        assert WordFollows(s, s2, loc, roots[i], roots2[i]);
      } else {
        StackFollows(m, s, s2, words, at, loc, |roots|, i);
      }
    }
  }

  // ---------- What a collection leaves ----------

  ghost predicate FieldsIn(o: Object, live: set<nat>) {
    forall i {:trigger o.words[i]} :: 0 <= i < |o.words| && o.words[i].Ref? ==> o.words[i].id in live
  }

  /** The set holds what the roots refer to and is closed under reference. */
  ghost predicate ClosedIn(m: Machine, live: set<nat>) {
    && (forall r {:trigger m.roots[r]} :: 0 <= r < |m.roots| && m.roots[r].Ref? ==> m.roots[r].id in live)
    && (forall id {:trigger id in live} :: id in live && id < |m.objs| ==> FieldsIn(m.objs[id], live))
  }

  /** The program can get at the object: every such set holds it. */
  ghost predicate Usable(m: Machine, id: nat) {
    forall live: set<nat> :: ClosedIn(m, live) ==> id in live
  }

  /** Object b of the heap is one that the program can get at. */
  ghost predicate UsableAt(m: Machine, at: map<nat, int>, b: int) {
    exists id {:trigger id in at} :: id in at && at[id] == b && Usable(m, id)
  }

  /** There are no objects in the heap but those that the program can get at. */
  ghost predicate OnlyUsable(m: Machine, s: State, at: map<nat, int>) {
    forall b {:trigger b in s.objs} :: b in s.objs ==> UsableAt(m, at, b)
  }

  ghost function Places(at: map<nat, int>, live: set<nat>): set<int> {
    set id | id in at && id in live :: at[id]
  }

  /** What is closed on the machine is closed in the heap. */
  lemma PlacesClosed(m: Machine, s: State, roots: seq<int>, at: map<nat, int>, n: nat, live: set<nat>)
    requires Rep(m, s, roots, at) && NoneOlder(s.t.ps, n) && RestOk(s) && s.t.gen == 0 && ClosedIn(m, live)
    ensures Closed(s, n, {}, roots, Places(at, live))
  {
    hide RepObject, FieldsIn, RestOk;
    forall i {:trigger roots[i]} | 0 <= i < |roots| && RefersYoung(s, n, roots[i])
      ensures Target(roots[i]) in Places(at, live)
    {
      assert RepWord(s.t, at, m.roots[i], roots[i]);
    }
    forall x {:trigger OlderWord(s, n, x)} ensures !OlderWord(s, n, x) {
      if OlderWord(s, n, x) {
        OlderPage(s, n, x);
      }
    }
    forall a {:trigger a in Places(at, live)} | a in Places(at, live) && Young(s, n, a) && !UnboxedAt(s, a)
      ensures HoldsFields(s, n, Places(at, live), a)
    {
      var id :| id in at && id in live && at[id] == a;
      FieldsHeld(m.objs[id], s, at, n, live, a);
    }
  }

  lemma FieldsHeld(o: Object, s: State, at: map<nat, int>, n: nat, live: set<nat>, a: int)
    requires RepObject(o, s, at, a) && FieldsIn(o, live) && !UnboxedAt(s, a)
    ensures HoldsFields(s, n, Places(at, live), a)
  {
    hide IsUnboxed;
    forall x {:trigger s.m[x]} | a <= x < s.objs[a] && 0 <= x < |s.m| && RefersYoung(s, n, s.m[x])
      ensures Target(s.m[x]) in Places(at, live)
    {
      assert RepCell(s, at, false, o.words[x - a], a + (x - a));
    }
  }

  /** The objects that are in the heap are a set that is closed. */
  lemma AllClosed(m: Machine, s: State, roots: seq<int>, at: map<nat, int>)
    requires Rep(m, s, roots, at)
    ensures ClosedIn(m, at.Keys)
  {
    hide RepObject;
    forall r {:trigger m.roots[r]} | 0 <= r < |m.roots| && m.roots[r].Ref? ensures m.roots[r].id in at {
      assert RepWord(s.t, at, m.roots[r], roots[r]);
    }
    forall id {:trigger id in at.Keys} | id in at.Keys ensures FieldsIn(m.objs[id], at.Keys) {
      AllFields(m.objs[id], s, at, at[id]);
    }
  }

  lemma AllFields(o: Object, s: State, at: map<nat, int>, a: int)
    requires RepObject(o, s, at, a)
    ensures FieldsIn(o, at.Keys)
  {
    forall i {:trigger o.words[i]} | 0 <= i < |o.words| && o.words[i].Ref? ensures o.words[i].id in at {
      assert RepCell(s, at, o.unboxed, o.words[i], a + i);
    }
  }

  lemma ReachedUsable(m: Machine, s: State, roots: seq<int>, at: map<nat, int>, n: nat, a: int) returns (id: nat)
    requires Rep(m, s, roots, at) && NoneOlder(s.t.ps, n) && RestOk(s) && s.t.gen == 0
    requires Reached(s, n, {}, roots, a)
    ensures id in at && at[id] == a && Usable(m, id)
  {
    AllClosed(m, s, roots, at);
    PlacesClosed(m, s, roots, at, n, at.Keys);
    id :| id in at && at[id] == a;
    forall live: set<nat> | ClosedIn(m, live) ensures id in live {
      PlacesClosed(m, s, roots, at, n, live);
      assert a in Places(at, live);
      var id2 :| id2 in at && id2 in live && at[id2] == a;
      assert id2 == id;
    }
  }

  /** When all generations have been collected and nothing has been pinned, only what the program can get at is left. */
  lemma CollectedUsable(m: Machine, s: State, s2: State, roots: seq<int>, at: map<nat, int>, loc: map<int, int>, n: nat)
    requires Rep(m, s, roots, at) && NoneOlder(s.t.ps, n) && RestOk(s) && s.t.gen == 0 && Kept(s, s2, loc)
    requires OnlyReached(s, s2, loc, n, {}, roots)
    ensures OnlyUsable(m, s2, Relocated(at, loc))
  {
    hide Rep, Reached, RestOk, Usable;
    var at2 := Relocated(at, loc);
    forall b {:trigger b in s2.objs} | b in s2.objs ensures UsableAt(m, at2, b) {
      var a :| a in loc && loc[a] == b;
      assert ObjectKept(s, s2, loc, a);
      AllYoung(s, n, a);
      var id := ReachedUsable(m, s, roots, at, n, a);
      assert id in at2 && at2[id] == b;
    }
  }

  lemma AllYoung(s: State, n: nat, a: int)
    requires RestOk(s) && s.t.gen == 0 && NoneOlder(s.t.ps, n) && a in s.objs
    ensures Young(s, n, a)
  {
    hide RestOk;
    if !Young(s, n, a) {
      OlderObject(s, n, a);
    }
  }

  ghost predicate NoneValid(stack: seq<StackWord>) {
    forall k {:trigger stack[k]} :: 0 <= k < |stack| ==> !stack[k].valid
  }

  /** All generations up to the oldest are collected, without conservative roots. */
  ghost predicate CollectsAll(oldest: int, stacked: nat, lastGen: nat, others: int -> seq<StackWord>) {
    stacked == 0 && oldest < LastGen(lastGen) && forall i: int :: NoneValid(others(i))
  }

  /** Such a collection leaves only what the program can get at. */
  method DoCollect(g: Generations, h: Heap, regs: Registers, lastGen: nat, types: (int, int) -> HeaderType,
        filter: (int, int) -> bool, others: int -> seq<StackWord>, ghost m: Machine, ghost at: map<nat, int>)
      returns (ok: bool, ghost at2: map<nat, int>)
    requires g.Valid() && Runs(m, h, regs, at) && regs.Apart(h)
    modifies h, h.pages, h.mem, h.gens, regs.roots, g.policies
    ensures h.Valid() && (ok ==> Runs(m, h, regs, at2))
    ensures !ok ==> OutOfMemory(h)
    ensures ok && NoneOlder(old(h.pages[..]), g.oldest) ==> NoneOlder(h.pages[..], g.oldest)
    ensures ok && NoneOlder(old(h.pages[..]), g.oldest) && CollectsAll(g.oldest, regs.stack.Length, lastGen, others) ==>
              OnlyUsable(m, S(h), at2)
  {
    hide OutOfMemory, HeapOk, RestOk, Rep, Kept, OlderStays, RootsKept, RootsOk, StackKept, Verdicts, Covers,
      OnlyUsable, NoneOlder, NoneValid, LastCollected;
    ghost var s, roots := S(h), regs.roots[..];
    var t, words := h.T(), regs.stack[..];
    IdleFacts(h);
    RepRootsOk(m, s, roots + words, at);
    SomeRootsOk(s, roots, words);
    var stack := i => Verdicts(t, words, w => filter(i, w)) + others(i);
    ghost var firm := Verdicts(t, words, _ => false);
    forall i: int ensures Covers(stack(i), firm) {
      VerdictsCover(t, words, w => filter(i, w), others(i));
    }
    var toProtect, last;
    ghost var loc, turn, locTurn, sizes;
    ok, toProtect, last, loc, turn, locTurn, sizes := g.CollectGarbage(h, lastGen, types, stack, regs.roots, firm);
    at2 := at;
    if ok {
      assert regs.stack[..] == words;
      KeptLength(s, S(h), loc);
      RegistersKept(m, s, S(h), roots, regs.roots[..], words, at, loc);
      RepCollected(m, s, S(h), roots + words, regs.Words(), at, loc);
      at2 := Relocated(at, loc);
      if CollectsAll(g.oldest, regs.stack.Length, lastGen, others) && NoneOlder(s.t.ps, g.oldest) {
        VerdictsNone(t, words, w => filter(last, w), others(last));
        OnlyCollected(s, turn, locTurn, S(h), loc, last, stack(last), roots);
        assert roots + words == roots;
        CollectedUsable(m, s, S(h), roots, at, loc, last);
      }
    }
  }

  lemma VerdictsNone(t: Table, words: seq<int>, filter: int -> bool, others: seq<StackWord>)
    requires NoneValid(others) && words == []
    ensures NoneValid(Verdicts(t, words, filter) + others)
  {
    assert Verdicts(t, words, filter) + others == others;
  }

  lemma OnlyCollected(s0: State, at: State, locAt: map<int, int>, s: State, loc: map<int, int>, last: nat,
        stack: seq<StackWord>, roots0: seq<int>)
    requires LastCollected(s0, at, locAt, s, loc, last, stack, roots0) && NoneValid(stack)
    ensures OnlyReached(s0, s, loc, last, {}, roots0)
  {
    hide Kept, OlderStays, AllLocated, PinnedObjects, OnlyReached;
    NothingPinned(at, locAt, last, stack);
  }

  lemma SomeRootsOk(s: State, roots: seq<int>, words: seq<int>)
    requires RootsOk(s, roots + words)
    ensures RootsOk(s, roots)
  {
    forall i {:trigger roots[i]} | 0 <= i < |roots| ensures WordOk(s, roots[i]) {
      assert (roots + words)[i] == roots[i];
    }
  }

  /** Memory has run out for an object that the program allocates or that the garbage collector copies. */
  ghost predicate Failed(h: Heap, a: Action)
    reads h, h.pages, h.gens
  {
    match a
    case New(n, kind, _, _, _, _) => h.Exhausted(n, kind)
    case Collect(_, _, _, _) => OutOfMemory(h)
    case _ => false
  }

  /** The action is a collection of all generations without conservative roots. */
  ghost predicate Cleans(a: Action, oldest: int, stacked: nat) {
    a.Collect? && CollectsAll(oldest, stacked, a.lastGen, a.others)
  }

  method Do(g: Generations, h: Heap, regs: Registers, a: Action, out: seq<int>, ghost m: Machine,
        ghost at: map<nat, int>)
      returns (ok: bool, out2: seq<int>, ghost at2: map<nat, int>)
    requires g.Valid() && Runs(m, h, regs, at) && regs.Apart(h) && m.out == out
    modifies h, h.pages, h.mem, h.gens, regs.roots, regs.stack, g.policies
    ensures h.Valid() && if ok then Runs(Step(m, a, h.pages.Length), h, regs, at2) else Failed(h, a)
    ensures ok ==> Step(m, a, h.pages.Length).out == out2
    ensures ok && NoneOlder(old(h.pages[..]), g.oldest) ==> NoneOlder(h.pages[..], g.oldest)
    ensures ok && NoneOlder(old(h.pages[..]), g.oldest) && Cleans(a, g.oldest, regs.stack.Length) ==>
              OnlyUsable(m, S(h), at2)
  {
    hide HeapOk, RestOk, Rep, OutOfMemory, SameOlder, NoneOlder, OnlyUsable, CollectsAll;
    IdleFacts(h);
    ghost var ps := h.pages[..];
    ok, out2, at2 := true, out, at;
    match a {
      case New(n, kind, raw, large, tag, r) => ok, at2 := DoNew(h, regs, n, kind, raw, large, tag, r, m, at);
      case Constant(w, r) => DoConstant(h, regs, w, r, m, at);
      case Load(r, i, r2) => DoLoad(h, regs, r, i, r2, m, at);
      case Store(r, i, r2) => DoStore(h, regs, r, i, r2, m, at); IdleFacts(h);
      case Poke(r, i, w) => DoPoke(h, regs, r, i, w, m, at); IdleFacts(h);
      case Peek(r, i) => out2 := DoPeek(h, regs, r, i, out, m, at);
      case Shrink(r, n) => DoShrink(h, regs, r, n, m, at); IdleFacts(h);
      case Collect(lastGen, types, filter, others) =>
        ok, at2 := DoCollect(g, h, regs, lastGen, types, filter, others, m, at);
    }
    if ok && !a.Collect? && NoneOlder(ps, g.oldest) && h.pages[..] != ps {
      NoneOlderStays(ps, h.pages[..], 1, g.oldest);
    }
  }

  lemma StepsNext(m: Machine, actions: seq<Action>, k: nat, pages: nat)
    requires k < |actions|
    ensures Steps(m, actions[..k + 1], pages) == Step(Steps(m, actions[..k], pages), actions[k], pages)
  {
    assert actions[..k + 1][..k] == actions[..k];
  }

  /** A run of any program from a heap that represents a machine: unless memory runs out it is a run of the machine,
      which has no garbage collector, with the same output; and the heap is as the program needs it, after a last
      collection of all generations without anything that the program cannot get at. */
  method Run(g: Generations, h: Heap, regs: Registers, actions: seq<Action>, ghost m: Machine,
        ghost at: map<nat, int>)
      returns (ok: bool, out: seq<int>, ghost at2: map<nat, int>)
    requires g.Valid() && Runs(m, h, regs, at) && regs.Apart(h) && m.out == []
    modifies h, h.pages, h.mem, h.gens, regs.roots, regs.stack, g.policies
    ensures h.Valid()
    ensures if ok then Idle(h) && RootsOk(S(h), regs.Words())
            else exists k :: 0 <= k < |actions| && Failed(h, actions[k])
    ensures ok ==> Rep(Steps(m, actions, h.pages.Length), S(h), regs.Words(), at2)
    ensures ok ==> out == Steps(m, actions, h.pages.Length).out
    ensures ok && NoneOlder(old(h.pages[..]), g.oldest) && |actions| > 0
            && Cleans(actions[|actions| - 1], g.oldest, regs.stack.Length) ==>
              OnlyUsable(Steps(m, actions, h.pages.Length), S(h), at2)
  {
    hide HeapOk, RestOk, Rep, RootsOk, Failed, NoneOlder, OnlyUsable, CollectsAll;
    IdleFacts(h);
    ok, out, at2 := true, [], at;
    for k := 0 to |actions|
      invariant h.Valid() && ok && Runs(Steps(m, actions[..k], h.pages.Length), h, regs, at2)
      invariant out == Steps(m, actions[..k], h.pages.Length).out
      invariant NoneOlder(old(h.pages[..]), g.oldest) ==> NoneOlder(h.pages[..], g.oldest)
      invariant
        NoneOlder(old(h.pages[..]), g.oldest) && k > 0 && Cleans(actions[k - 1], g.oldest, regs.stack.Length) ==>
                  OnlyUsable(Steps(m, actions[..k], h.pages.Length), S(h), at2)
    {
      StepsNext(m, actions, k, h.pages.Length);
      ok, out, at2 := Do(g, h, regs, actions[k], out, Steps(m, actions[..k], h.pages.Length), at2);
      if !ok {
        return;
      }
    }
    assert actions[..|actions|] == actions;
    RepRootsOk(Steps(m, actions, h.pages.Length), S(h), regs.Words(), at2);
  }

  /** At first there are only roots. */
  function FirstMachine(count: nat): Machine {
    Machine([], seq(count, _ => Imm(0)), [])
  }

  lemma RepAtFirst(s: State, roots: seq<int>)
    requires forall r {:trigger roots[r]} :: 0 <= r < |roots| ==> roots[r] == 0
    ensures Rep(FirstMachine(|roots|), s, roots, map[])
  {
  }

  /** In a heap of free pages there is nothing that could be wrong. */
  lemma FreeRest(h: Heap, n: nat)
    requires h.Valid() && h.T() == FreeTable(n) && h.objs == map[] && h.raw == {} && h.recording.Off?
    ensures Idle(h)
  {
    var s := S(h);
    forall x ensures !s.t.InUse(x) {
    }
  }

  lemma FreeNoneOlder(h: Heap, n: nat, oldest: int)
    requires h.T() == FreeTable(n)
    ensures NoneOlder(h.pages[..], oldest)
  {
    assert h.pages[..] == FreeTable(n).ps;
  }

  /** A program on a new heap with so many pages, and so many registers that are scavenged and on the control stack,
      puts out what it puts out on the machine without a collector; a last collection of generations 0 to 3 leaves only
      what it can get at. */
  method RunFromStart(pages: nat, reserved: nat, count: nat, stacked: nat, actions: seq<Action>)
        returns (ok: bool, out: seq<int>, h: Heap, ghost at: map<nat, int>)
    ensures ok ==> out == Steps(FirstMachine(count + stacked), actions, pages + 1).out
    ensures !ok ==> exists k :: 0 <= k < |actions| && Failed(h, actions[k])
    ensures ok && |actions| > 0 && Cleans(actions[|actions| - 1], 3, stacked) ==>
              OnlyUsable(Steps(FirstMachine(count + stacked), actions, pages + 1), S(h), at)
  {
    hide Rep, Steps, RestOk, HeapOk, Failed, FreeTable, OnlyUsable, Cleans, NoneOlder;
    h := new Heap(pages, reserved);
    var g := new Generations();
    var regs := new Registers(count, stacked);
    FreeRest(h, pages);
    RepAtFirst(S(h), regs.Words());
    FreeNoneOlder(h, pages, g.oldest);
    ok, out, at := Run(g, h, regs, actions, FirstMachine(count + stacked), map[]);
  }
}
