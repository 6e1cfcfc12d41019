/** Scavenging the new space of a generation until nothing in it refers to the old space,
    scavenge_newspace_generation in src/lisp/gencgc.c. */
module NewspaceScan {
  import opened PageTable
  import opened PageObjects
  import opened PageBlocks
  import opened PageGrowth
  import opened PageHeap
  import Gc = PageGc
  import opened PageRuns
  import opened NewAreas
  import opened Newspace
  import opened WordAccount
  import opened NewspaceMirror
  import opened NewspaceTrace

  ghost function S(h: Heap): State
    reads h, h.pages, h.mem
  {
    State(h.T(), h.objs, h.mem[..], h.areas, h.raw)
  }

  ghost predicate Sound(h: Heap, from: nat, shapes: map<int, Shape>, o: Origin)
    reads h, h.pages, h.mem, h.gens
  {
    && h.Valid() && from < NUM_GENERATIONS && InvOk(S(h), from, shapes) && Mirrors(S(h), from, o)
    && Clean(S(h), from, o.clean) && KindsOk(shapes, o)
  }

  /** A collection of generation from is under way. */
  ghost predicate Ready(h: Heap, from: nat, shapes: map<int, Shape>, o: Origin)
    reads h, h.pages, h.mem, h.gens
  {
    Sound(h, from, shapes, o) && Traced(S(h), from, o)
  }

  lemma HeapFacts(t: Table, objs: map<int, int>, gens: seq<Generation>, total: int, m: seq<int>)
    requires HeapOk(t, objs, gens, total, m)
    ensures t.Valid() && ObjectsOk(t, objs) && |m| == (|t.ps| - 1) * PAGE
  {
  }

  /** Boxed words are where they were, none of them has to be scavenged anew, and pages of other generations are the
      same. */
  ghost predicate KeepsOthers(s: State, s2: State, from: nat) {
    && Onward(s, s2, from)
    && (forall x {:trigger Boxed(s2.t, from, x)} :: Boxed(s.t, from, x) ==> Boxed(s2.t, from, x))
    && (forall x {:trigger Todo(s2, from, x)} :: Todo(s2, from, x) && Boxed(s.t, from, x) ==> Todo(s, from, x))
    && (forall i {:trigger s2.t.ps[i]} :: 0 <= i < |s.t.ps| && s2.t.ps[i].gen != from && s2.t.ps[i].gen != s.t.gen ==>
          s2.t.ps[i] == s.t.ps[i])
    && (forall i {:trigger s2.t.ps[i]} :: 0 <= i < |s.t.ps| && UsedElsewhere(s.t.ps[i], from, s.t.gen) ==>
          s2.t.ps[i] == s.t.ps[i])
  }

  lemma KeepsTwice(s: State, s1: State, s2: State, from: nat)
    requires KeepsOthers(s, s1, from) && KeepsOthers(s1, s2, from)
    ensures KeepsOthers(s, s2, from)
  {
    hide Todo, Boxed, Weight, ForwardingStays, Refers;
    OnwardTwice(s, s1, s2, from);
  }

  lemma KeepsOnward(s: State, s2: State, from: nat)
    requires KeepsOthers(s, s2, from)
    ensures Onward(s, s2, from)
    ensures forall x {:trigger Boxed(s2.t, from, x)} :: Boxed(s.t, from, x) ==> Boxed(s2.t, from, x)
  {
  }

  twostate predicate KeepsNew(h: Heap, from: nat)
    reads h, h.pages, h.mem
  {
    h.recording == old(h.recording) && h.allocGen == old(h.allocGen) && KeepsOthers(old(S(h)), S(h), from)
  }

  /** Sets the forwarding pointer of an object that has been copied. */
  method SetForwarding(h: Heap, from: nat, shapes: map<int, Shape>, ghost o: Origin, a: int, p: int)
    requires Sound(h, from, shapes, o) && OldObject(S(h), from, a) && a + 1 < h.objs[a] && WordOk(S(h), p)
    requires !Refers(h.T(), from, p) && a in o.live && TracedBut(S(h), from, o, Target(p))
    requires !Moved(S(h), a) && Pointerp(p) && CopyReady(S(h), from, o, a, Target(p))
    modifies h.mem
    ensures Ready(h, from, shapes, o) && Forwards(old(S(h)), S(h), a, p)
    ensures Unmoved(S(h), from) == Unmoved(old(S(h)), from) - {a}
    ensures forall later: iset<int> :: Safe(old(S(h)), from, later) ==> Safe(S(h), from, later)
    ensures forall x {:trigger Todo(S(h), from, x)} :: Todo(S(h), from, x) ==> Todo(old(S(h)), from, x)
    ensures Onward(old(S(h)), S(h), from)
  {
    hide ObjectsOk, Zeroed, CountersOk, NewWordOk, OldObjectOk, SlackZero, RawOk, RawApart, Unprotected, Safe, Unmoved,
      Mirrors, Traced, CopyReady;
    ghost var s, m := S(h), h.mem[..];
    OldNotBoxed(s, from, shapes, a, a);
    OldNotBoxed(s, from, shapes, a, a + 1);
    ObjectNotEmpty(s.t, s.objs, a);
    WordInHeap(s.t, m, a);
    WordInHeap(s.t, m, a + 1);
    h.mem[a] := FORWARDED;
    h.mem[a + 1] := p;
    Gc.WrittenZeroed(s.t, m, h.mem[..]);
    assert Forwards(s, S(h), a, p);
    ForwardInv(s, S(h), from, shapes, a, p);
    ForwardMirrors(s, S(h), from, shapes, a, p, o);
    ForwardTraced(s, S(h), from, shapes, a, p, o);
    ForwardOnward(s, S(h), from, shapes, a, p);
  }

  lemma WordInHeap(t: Table, m: seq<int>, x: int)
    requires t.Valid() && t.InUse(x) && |m| == (|t.ps| - 1) * PAGE
    ensures 0 <= x < |m|
  {
  }

  /** Stores a word that does not refer to the old space in place of one that does; its page is not write protected. */
  method UpdateWord(h: Heap, from: nat, shapes: map<int, Shape>, ghost o: Origin, y: int, w: int)
    requires Ready(h, from, shapes, o) && Todo(S(h), from, y) && WordOk(S(h), w) && !Refers(h.T(), from, w)
    requires Gone(S(h), from, h.mem[y], w)
    modifies h.mem
    ensures Ready(h, from, shapes, o) && h.mem[..] == old(h.mem[..])[y := w]
    ensures Unmoved(S(h), from) == Unmoved(old(S(h)), from)
    ensures forall later: iset<int> :: Safe(old(S(h)), from, later + iset{y}) ==> Safe(S(h), from, later)
    ensures forall x {:trigger Todo(S(h), from, x)} :: Todo(S(h), from, x) ==> Todo(old(S(h)), from, x) && x != y
    ensures Onward(old(S(h)), S(h), from)
  {
    hide ObjectsOk, Zeroed, CountersOk, NewWordOk, OldObjectOk, SlackZero, RawOk, RawApart, Unprotected, Safe, Unmoved,
      Mirrors, Traced;
    ghost var s, m := S(h), h.mem[..];
    WordInHeap(s.t, m, y);
    h.mem[y] := w;
    Gc.WrittenZeroed(s.t, m, h.mem[..]);
    assert Updates(s, S(h), from, y, w);
    UpdateInv(s, S(h), from, shapes, y, w);
    UpdateMirrors(s, S(h), from, shapes, y, w, o);
    UpdateTraced(s, S(h), from, shapes, y, w, o);
    UpdateOnward(s, S(h), from, shapes, y, w);
    assert !h.pages[y / PAGE].wp;
  }

  /** There is no room for as many words as object a has. */
  ghost predicate LacksRoom(h: Heap, a: int, kind: bool)
    reads h, h.pages, h.gens
  {
    a in h.objs && h.Exhausted(h.objs[a] - a, kind)
  }

  ghost predicate OutOfMemory(h: Heap)
    reads h, h.pages, h.gens
  {
    exists a, kind :: LacksRoom(h, a, kind)
  }

  lemma RoomLacking(h: Heap, a: int, kind: bool)
    requires LacksRoom(h, a, kind)
    ensures OutOfMemory(h)
  {
  }

  /** Copies an object to the new space. */
  method CopyOut(h: Heap, a: int, shape: Shape) returns (ok: bool, b: int)
    requires !Moved(S(h), a) && h.Valid() && a in h.objs && h.objs[a] == a + shape.words && shape.words > 0
    requires shape.words % 2 == 0
    modifies h, h.pages, h.mem, h.gens
    ensures h.Valid()
    ensures ok ==> CopiedTo(old(S(h)), S(h), h.recording, a, b, shape.words, shape.unboxed)
    ensures ok ==> h.recording == old(h.recording)
    ensures !ok ==> OutOfMemory(h)
  {
    hide HeapOk, Evolves, Fresh, Recorded, Gains, ObjectsOk, ObjectOk, PageOk, RegionOk, OutOfMemory;
    ghost var t, m := h.T(), h.mem[..];
    HeapFacts(t, h.objs, h.gens[..], h.bytesAllocated, m);
    Gc.ObjectBounds(t, h.objs, h.gens[..], h.bytesAllocated, m, a);
    var r := Gc.CopySmall(h, a, shape.words, shape.unboxed, shape.vector);
    if !r.At? {
      RoomLacking(h, a, shape.unboxed);
      return false, 0;
    }
    ok, b := true, r.addr;
    HeapFacts(h.T(), h.objs, h.gens[..], h.bytesAllocated, h.mem[..]);
  }

  lemma ObjectAt(s: State, from: nat, shapes: map<int, Shape>, a: int)
    requires InvOk(s, from, shapes) && OldObject(s, from, a) && !Moved(s, a)
    ensures a in shapes && s.objs[a] == a + shapes[a].words && shapes[a].words >= 2 && shapes[a].words % 2 == 0
    ensures a in s.objs && 0 <= a && (!shapes[a].unboxed ==> !s.t.ps[a / PAGE].unboxed)
  {
    assert OldObjectOk(s, from, shapes, a);
  }

  /** What copying means for the words that are there already. */
  lemma CopiedKeeps(s: State, s2: State, recording: Recording, from: nat, shapes: map<int, Shape>, a: int, b: int,
        n: int, kind: bool)
    requires InvOk(s, from, shapes) && CopiedTo(s, s2, recording, a, b, n, kind) && n > 0
    ensures forall x {:trigger Boxed(s2.t, from, x)} :: Boxed(s.t, from, x) ==> Boxed(s2.t, from, x)
    ensures forall x {:trigger s2.m[x]} :: 0 <= x < |s.m| && Boxed(s.t, from, x) ==> s2.m[x] == s.m[x]
    ensures |s2.t.ps| == |s.t.ps|
    ensures forall i {:trigger s2.t.ps[i]} :: 0 <= i < |s.t.ps| && s2.t.ps[i].gen != s.t.gen ==> s2.t.ps[i] == s.t.ps[i]
    ensures forall i {:trigger s2.t.ps[i]} ::
      0 <= i < |s.t.ps| && UsedElsewhere(s.t.ps[i], from, s.t.gen) ==> s2.t.ps[i] == s.t.ps[i]
    ensures forall x {:trigger Todo(s2, from, x)} :: Todo(s2, from, x) && Boxed(s.t, from, x) ==> Todo(s, from, x)
    ensures 0 <= b && forall w :: Target(w) == b ==> !Refers(s2.t, from, w)
    ensures s2.t.gen == s.t.gen && (a in s.objs ==> a in s2.objs && s2.objs[a] == s.objs[a])
    ensures OldObject(s, from, a) ==> OldObject(s2, from, a)
    ensures OldObject(s, from, a) ==> forall w :: Target(w) == a && Refers(s.t, from, w) ==> Refers(s2.t, from, w)
  {
    hide ObjectsOk, SlackZero, RawOk, RawApart, NewWordOk, OldObjectOk, Recorded;
    forall x {:trigger Boxed(s2.t, from, x)} | Boxed(s.t, from, x)
      ensures Boxed(s2.t, from, x) && (Todo(s2, from, x) ==> Todo(s, from, x))
    {
      EvolvedBoxed(s.t, s2.t, from, x);
      if Todo(s2, from, x) {
        EvolvedRefers(s.t, s2.t, from, s2.m[x]);
      }
    }
    assert s2.t.InUse(b) && FreshAt(s2.t, kind, b);
    CopiedOldObject(s, s2, recording, from, shapes, a, b, n, kind, a);
    forall i {:trigger s2.t.ps[i]} | 0 <= i < |s.t.ps| && UsedElsewhere(s.t.ps[i], from, s.t.gen)
      ensures s2.t.ps[i] == s.t.ps[i]
    {
      EvolvedUsed(s.t, s2.t, i);
    }
  }

  /** Word y has come into use, and may be a reference unless it belongs to an unboxed object. */
  ghost predicate NewWord(t: Table, s: State, from: nat, unboxed: bool, y: int) {
    !Boxed(t, from, y) && (!unboxed ==> Tagged(s, from, y))
  }

  lemma NewWordStays(t: Table, s: State, s2: State, from: nat, unboxed: bool, y: int)
    requires NewWord(t, s, from, unboxed, y) && s2.t == s.t && s2.raw == s.raw
    ensures NewWord(t, s2, from, unboxed, y)
  {
  }

  /** The second word of a copy is new. */
  lemma CopiedCdr(s: State, s2: State, recording: Recording, from: nat, shapes: map<int, Shape>, a: int, b: int,
        n: int, kind: bool)
    requires InvOk(s, from, shapes) && CopiedTo(s, s2, recording, a, b, n, kind) && n > 1
    ensures NewWord(s.t, s2, from, kind, b + 1)
  {
    hide ObjectsOk, SlackZero, RawOk, RawApart, NewWordOk, OldObjectOk, Recorded;
    assert s2.t.InUse(b + 1) && FreshAt(s2.t, kind, b + 1);
    NotRaw(s.t, s.objs, s.raw, b, b + n, b + 1);
  }

  /** Copies an object to the new space and forwards it. */
  method CopyObject(h: Heap, from: nat, shapes: map<int, Shape>, ghost o: Origin, w: int, ghost later: iset<int>)
        returns (ok: bool, w2: int)
    requires Ready(h, from, shapes, o) && Pointerp(w) && OldObject(S(h), from, Target(w)) && !Moved(S(h), Target(w))
    requires Target(w) in shapes && Target(w) in o.live && LaterOk(h.recording, later)
    modifies h, h.pages, h.mem, h.gens
    ensures h.Valid()
    ensures !ok ==> OutOfMemory(h)
    ensures ok ==> Ready(h, from, shapes, o) && KeepsNew(h, from) && FollowsTo(S(h), from, w, w2)
    ensures ok ==> MemoryKept(old(S(h)), S(h), from, -1)
    ensures ok ==> Unmoved(S(h), from) == Unmoved(old(S(h)), from) - {Target(w)}
    ensures ok ==> (Safe(old(S(h)), from, later) ==> Safe(S(h), from, later))
    ensures ok ==> NewWord(old(h.T()), S(h), from, shapes[Target(w)].unboxed, Target(w2) + 1)
    ensures ok ==> w2 % 8 == w % 8 && (UnboxedAt(S(h), Target(w2)) <==> shapes[Target(w)].unboxed)
  {
    hide OutOfMemory, HeapOk, CopiedTo, InvOk, OldObject, Moved, Refers, Boxed, Unmoved, Safe, LaterOk, NewWord, Todo,
      Tagged, FollowsTo, MemoryKept, Mirrors, Traced, TracedBut, CopyReady, Clean, UsedElsewhere, Onward, IsUnboxed;
    ghost var s := S(h);
    var a := Target(w);
    var shape := shapes[a];
    ObjectAt(s, from, shapes, a);
    var b;
    ok, b := CopyOut(h, a, shape);
    if !ok {
      return false, w;
    }
    ghost var s1 := S(h);
    CopiedInv(s, s1, h.recording, from, shapes, a, b, shape.words, shape.unboxed);
    CopiedKeeps(s, s1, h.recording, from, shapes, a, b, shape.words, shape.unboxed);
    CopiedMirrors(s, s1, h.recording, from, shapes, a, b, shape.words, shape.unboxed, o);
    CopiedClean(s, s1, h.recording, from, shapes, a, b, shape.words, shape.unboxed, o.clean);
    CopiedReady(s, s1, h.recording, from, shapes, a, b, shape.words, shape.unboxed, o);
    CopyPlaced(s1, from, o, a, b);
    CopiedTraced(s, s1, h.recording, from, shapes, a, b, shape.words, shape.unboxed, o);
    if Safe(s, from, later) {
      CopiedSafe(s, s1, h.recording, from, shapes, a, b, shape.words, shape.unboxed, later);
    }
    w2 := Pointer(b, w);
    SetForwarding(h, from, shapes, o, a, w2);
    CopiedCdr(s, s1, h.recording, from, shapes, a, b, shape.words, shape.unboxed);
    NewWordStays(s.t, s1, S(h), from, shape.unboxed, b + 1);
    MovedKeeps(s, s1, S(h), h.recording, from, shapes, a, b, shape.words, shape.unboxed, w, w2);
    MovedOnward(s, s1, S(h), h.recording, from, shapes, a, b, shape.words, shape.unboxed, w2);
  }

  /** Whether the list goes on from the cons whose cdr is word y with another one that has to be copied. */
  method ListGoesOn(h: Heap, from: nat, shapes: map<int, Shape>, ghost o: Origin, y: int) returns (more: bool)
    requires Ready(h, from, shapes, o) && Tagged(S(h), from, y)
    ensures 0 <= y < h.mem.Length
    ensures more <==> Listp(h.mem[y]) && Refers(h.T(), from, h.mem[y]) && !Moved(S(h), Target(h.mem[y]))
    ensures if more then CdrMoves(S(h), from, shapes, y) else ListEnds(S(h), from, y - 1)
  {
    hide HeapOk, InvOk, Mirrors, Traced, Clean, Boxed, Refers, OldObject;
    ReferredObject(S(h), from, shapes, y);
    more := Listp(h.mem[y]) && Refers(h.T(), from, h.mem[y]) && h.mem[Target(h.mem[y])] != FORWARDED;
  }

  /** Copies the cons that the cdr at y refers to, and lets the cdr follow it. */
  method TransCdr(h: Heap, from: nat, shapes: map<int, Shape>, ghost o: Origin, y: int, ghost later: iset<int>)
        returns (ok: bool, w2: int)
    requires Ready(h, from, shapes, o) && LaterOk(h.recording, later) && CdrMoves(S(h), from, shapes, y)
    modifies h, h.pages, h.mem, h.gens
    ensures h.Valid()
    ensures !ok ==> OutOfMemory(h)
    ensures ok ==> Ready(h, from, shapes, o) && KeepsNew(h, from)
    ensures ok ==> MemoryKept(old(S(h)), S(h), from, y)
    ensures ok ==> Unmoved(S(h), from) == Unmoved(old(S(h)), from) - {old(Target(h.mem[y]))}
    ensures ok ==> (Safe(old(S(h)), from, later) ==> Safe(S(h), from, later))
    ensures ok ==> NewWord(old(h.T()), S(h), from, old(shapes[Target(h.mem[y])].unboxed), Target(w2) + 1)
    ensures ok ==> 0 <= y < h.mem.Length && h.mem[y] == w2 && (old(Listp(h.mem[y])) ==> Listp(w2))
    ensures ok ==> (UnboxedAt(S(h), Target(w2)) <==> old(shapes[Target(h.mem[y])].unboxed))
  {
    hide OutOfMemory, Onward, HeapOk, InvOk, Mirrors, Traced, Clean, Boxed, Unmoved, Safe, LaterOk, OldObject, NewWord,
      IsUnboxed;
    ghost var s := S(h);
    TodoLive(h, from, shapes, o, y);
    var w := h.mem[y];
    ok, w2 := CopyObject(h, from, shapes, o, w, later);
    if ok {
      ghost var s1 := S(h);
      OnwardRaw(s, s1, from);
      RefersStill(s, s1, from, w, w2);
      if Safe(s1, from, later) {
        SafeMore(s1, from, later, later + iset{y});
      }
      UpdateWord(h, from, shapes, o, y, w2);
      OnwardTwice(s, s1, S(h), from);
      NewWordStays(s.t, s1, S(h), from, shapes[Target(w)].unboxed, Target(w2) + 1);
    }
  }

  /** What a word that has to be scavenged refers to may be moved. */
  lemma TodoLive(h: Heap, from: nat, shapes: map<int, Shape>, o: Origin, y: int)
    requires Ready(h, from, shapes, o)
    ensures Todo(S(h), from, y) ==> 0 <= y < h.mem.Length && Target(h.mem[y]) in o.live
  {
    hide Sound, Onto;
  }

  /** What w refers to has gone where w2 refers to. */
  ghost predicate FollowsTo(s: State, from: nat, w: int, w2: int) {
    WordOk(s, w2) && !Refers(s.t, from, w2) && Gone(s, from, w, w2)
  }

  lemma FollowsStays(s: State, s2: State, from: nat, w: int, w2: int)
    requires Onward(s, s2, from) && FollowsTo(s, from, w, w2)
    ensures FollowsTo(s2, from, w, w2)
  {
    hide Refers;
    assert OldObject(s, from, Target(w));
    assert !Refers(s2.t, from, w2);
  }

  /** Boxed words outside of the old space, but for the one at y, are what they were. */
  ghost predicate MemoryKept(s: State, s2: State, from: nat, y: int) {
    |s2.m| == |s.m| && forall x {:trigger s2.m[x]} :: 0 <= x < |s.m| && Boxed(s.t, from, x) && x != y ==>
        s2.m[x] == s.m[x]
  }

  lemma MemoryTwice(s: State, s1: State, s2: State, from: nat, y: int, z: int)
    requires MemoryKept(s, s1, from, y) && MemoryKept(s1, s2, from, z) && !Boxed(s.t, from, z)
    requires forall x {:trigger Boxed(s1.t, from, x)} :: Boxed(s.t, from, x) ==> Boxed(s1.t, from, x)
    ensures MemoryKept(s, s2, from, y)
  {
    hide Boxed;
  }

  /** A reference to an object of the old space refers to it still. */
  lemma RefersStill(s: State, s2: State, from: nat, w: int, w2: int)
    requires Refers(s.t, from, w) && |s2.t.ps| == |s.t.ps| && FollowsTo(s2, from, w, w2)
    ensures Refers(s2.t, from, w)
  {
  }

  /** Word y, a new one, is a reference to an object that has to be copied. */
  ghost predicate CdrMoves(s: State, from: nat, shapes: map<int, Shape>, y: int) {
    Todo(s, from, y) && Listp(s.m[y]) && OldObject(s, from, Target(s.m[y])) && !Moved(s, Target(s.m[y])) &&
        Target(s.m[y]) in shapes
  }

  lemma CdrUnmoved(s: State, from: nat, shapes: map<int, Shape>, y: int)
    requires CdrMoves(s, from, shapes, y)
    ensures 0 <= y < |s.m| && Target(s.m[y]) in shapes && Target(s.m[y]) in Unmoved(s, from)
    ensures Boxed(s.t, from, y) && Listp(s.m[y])
  {
  }

  /** The cdr of each of these copies, but for the last, is the next one. */
  ghost predicate Linked(s: State, from: nat, conses: seq<int>) {
    |conses| > 0 && forall i {:trigger conses[i]} :: 0 <= i < |conses| - 1 ==>
        && Boxed(s.t, from, conses[i] + 1) && 0 <= conses[i] + 1 < |s.m|
        && Listp(s.m[conses[i] + 1]) && Target(s.m[conses[i] + 1]) == conses[i + 1] && conses[i] != conses[|conses| - 1]
  }

  lemma LinkedNext(s: State, s2: State, from: nat, conses: seq<int>, b: int)
    requires Linked(s, from, conses) && Boxed(s.t, from, conses[|conses| - 1] + 1) && !Boxed(s.t, from, b + 1)
    requires MemoryKept(s, s2, from, conses[|conses| - 1] + 1)
    requires forall x {:trigger Boxed(s2.t, from, x)} :: Boxed(s.t, from, x) ==> Boxed(s2.t, from, x)
    requires var y := conses[|conses| - 1] + 1; 0 <= y < |s2.m| && Listp(s2.m[y]) && Target(s2.m[y]) == b
    ensures Linked(s2, from, conses + [b])
  {
    hide Boxed, Listp, Target;
    var conses2 := conses + [b];
    forall i {:trigger conses2[i]} | 0 <= i < |conses2| - 1
      ensures Boxed(s2.t, from, conses2[i] + 1) && 0 <= conses2[i] + 1 < |s2.m|
      ensures Listp(s2.m[conses2[i] + 1]) && Target(s2.m[conses2[i] + 1]) == conses2[i + 1] && conses2[i] != b
    {
      assert conses2[i] == conses[i];
    }
  }

  /** The list does not go on from the cons at b with one that has to be copied. */
  ghost predicate ListEnds(s: State, from: nat, b: int) {
    0 <= b + 1 < |s.m| ==>
      !(Listp(s.m[b + 1]) && Refers(s.t, from, s.m[b + 1]) && !Moved(s, Target(s.m[b + 1])))
  }

  lemma Fewer(a: set<int>, b: set<int>, x: int)
    requires a == b - {x} && x in b
    ensures |a| < |b| && a <= b
  {
  }

  /** The list that begins with w has been copied in part since state s: the conses say where, w2 refers to the first of
      them, and if more is set the cdr of the last one has to be copied too. */
  ghost predicate Listing(s: State, s2: State, from: nat, shapes: map<int, Shape>, w: int, w2: int, conses: seq<int>,
        more: bool, later: iset<int>)
  {
    && KeepsOthers(s, s2, from) && FollowsTo(s2, from, w, w2) && MemoryKept(s, s2, from, -1)
    && (Safe(s, from, later) ==> Safe(s2, from, later)) && Unmoved(s2, from) <= Unmoved(s, from) - {Target(w)}
    && Linked(s2, from, conses) && |conses| > 0 && conses[0] == Target(w2) && !Boxed(s.t, from, Last(conses) + 1)
    && (if more then CdrMoves(s2, from, shapes, Last(conses) + 1)
        else ListEnds(s2, from, Last(conses)) || UnboxedAt(s2, Last(conses)))
  }

  function Last(conses: seq<int>): int
    requires |conses| > 0
  {
    conses[|conses| - 1]
  }

  /** Another cons has been copied to b. */
  lemma ListingNext(s: State, s1: State, s2: State, from: nat, shapes: map<int, Shape>, w: int, w2: int,
        conses: seq<int>, next: int, unboxed: bool, more: bool, later: iset<int>)
    requires Listing(s, s1, from, shapes, w, w2, conses, true, later) && KeepsOthers(s1, s2, from)
    requires MemoryKept(s1, s2, from, Last(conses) + 1) && (Safe(s1, from, later) ==> Safe(s2, from, later))
    requires Unmoved(s2, from) <= Unmoved(s1, from) && NewWord(s1.t, s2, from, unboxed, Target(next) + 1)
    requires Listp(next) && 0 <= Last(conses) + 1 < |s2.m| && s2.m[Last(conses) + 1] == next
    requires if more then CdrMoves(s2, from, shapes, Target(next) + 1)
             else ListEnds(s2, from, Target(next)) || UnboxedAt(s2, Target(next))
    ensures Listing(s, s2, from, shapes, w, w2, conses + [Target(next)], more, later)
  {
    hide KeepsOthers, FollowsTo, MemoryKept, Safe, Unmoved, Linked, CdrMoves, ListEnds, IsUnboxed, Boxed, Target,
      Tagged, Listp;
    KeepsOnward(s, s1, from);
    KeepsOnward(s1, s2, from);
    KeepsTwice(s, s1, s2, from);
    CdrUnmoved(s1, from, shapes, Last(conses) + 1);
    FollowsStays(s1, s2, from, w, w2);
    MemoryTwice(s, s1, s2, from, -1, Last(conses) + 1);
    LinkedNext(s1, s2, from, conses, Target(next));
  }

  /** The step of trans_list: copies the next cons. */
  method TransNext(h: Heap, from: nat, shapes: map<int, Shape>, ghost o: Origin, last: int, ghost later: iset<int>,
        ghost s: State, ghost w: int, ghost w2: int, ghost conses: seq<int>)
      returns (ok: bool, last2: int, more: bool)
    requires Ready(h, from, shapes, o) && LaterOk(h.recording, later) && |conses| > 0 && last == Last(conses)
    requires Listing(s, S(h), from, shapes, w, w2, conses, true, later)
    modifies h, h.pages, h.mem, h.gens
    ensures h.Valid() && (!ok ==> OutOfMemory(h))
    ensures ok ==> Ready(h, from, shapes, o) && h.recording == old(h.recording)
    ensures ok ==> Listing(s, S(h), from, shapes, w, w2, conses + [last2], more, later)
    ensures ok ==> |Unmoved(S(h), from)| < |old(Unmoved(S(h), from))|
  {
    hide OutOfMemory, Onward, HeapOk, InvOk, Mirrors, Traced, Clean, Boxed, Unmoved, Safe, LaterOk, OldObject, Refers,
      NewWord, Tagged, Todo, FollowsTo, MemoryKept, CdrMoves, Ready, Moved, KeepsOthers, Linked, ListEnds, Listp,
      Pointerp, IsUnboxed, Target;
    ghost var s1 := S(h);
    CdrUnmoved(s1, from, shapes, last + 1);
    var a := Target(h.mem[last + 1]);
    var unboxed := shapes[a].unboxed;
    var next;
    ok, next := TransCdr(h, from, shapes, o, last + 1, later);
    last2, more := Target(next), false;
    if ok {
      Fewer(Unmoved(S(h), from), Unmoved(s1, from), a);
      NewTagged(s1.t, S(h), from, unboxed, last2 + 1);
      if !unboxed {
        more := ListGoesOn(h, from, shapes, o, last2 + 1);
      }
      ListingNext(s, s1, S(h), from, shapes, w, w2, conses, next, unboxed, more, later);
    }
  }

  /** trans_list: copies a cons, and in the cdr direction those that follow it, which are linked again, up to one that
      has been copied or is not in the old space. */
  method TransList(h: Heap, from: nat, shapes: map<int, Shape>, ghost o: Origin, w: int, ghost later: iset<int>)
        returns (ok: bool, w2: int, ghost conses: seq<int>)
    requires Ready(h, from, shapes, o) && Listp(w) && OldObject(S(h), from, Target(w)) && !Moved(S(h), Target(w))
    requires Target(w) in shapes && Target(w) in o.live && LaterOk(h.recording, later)
    modifies h, h.pages, h.mem, h.gens
    ensures h.Valid()
    ensures !ok ==> OutOfMemory(h)
    ensures ok ==> Ready(h, from, shapes, o) && KeepsNew(h, from)
    ensures ok ==> Listing(old(S(h)), S(h), from, shapes, w, w2, conses, false, later)
  {
    hide OutOfMemory, Onward, HeapOk, InvOk, Mirrors, Traced, Clean, Boxed, Unmoved, Safe, LaterOk, OldObject, Refers,
      NewWord, Tagged, Todo, FollowsTo, MemoryKept, CdrMoves, Ready, Moved, KeepsOthers, Linked, ListEnds, Listp,
      Pointerp, IsUnboxed;
    ghost var s := S(h);
    ListPointer(w);
    var unboxed := shapes[Target(w)].unboxed;
    ok, w2 := CopyObject(h, from, shapes, o, w, later);
    conses := [Target(w2)];
    if !ok {
      return;
    }
    NewTagged(s.t, S(h), from, unboxed, Target(w2) + 1);
    var last, more := Target(w2), false;
    if !unboxed {
      more := ListGoesOn(h, from, shapes, o, last + 1);
    }
    OneLinked(S(h), from, last);
    while more
      invariant ok && h.Valid() && Ready(h, from, shapes, o) && h.recording == old(h.recording)
      invariant |conses| > 0 && last == Last(conses) && Listing(s, S(h), from, shapes, w, w2, conses, more, later)
      decreases |Unmoved(S(h), from)|
    {
      ok, last, more := TransNext(h, from, shapes, o, last, later, s, w, w2, conses);
      conses := conses + [last];
      if !ok {
        return;
      }
    }
    KeepsOnward(s, S(h), from);
    OnwardLength(s, S(h), from);
  }

  lemma OnwardLength(s: State, s2: State, from: nat)
    requires Onward(s, s2, from)
    ensures s2.t.gen == s.t.gen && |s2.t.ps| == |s.t.ps|
  {
  }

  lemma ListPointer(w: int)
    requires Listp(w)
    ensures Pointerp(w)
  {
  }

  lemma OneLinked(s: State, from: nat, b: int)
    ensures Linked(s, from, [b])
  {
  }

  lemma NewTagged(t: Table, s: State, from: nat, unboxed: bool, y: int)
    requires NewWord(t, s, from, unboxed, y)
    ensures !Boxed(t, from, y) && (!unboxed ==> Tagged(s, from, y))
  {
  }

  lemma CopiedReady(s: State, s2: State, recording: Recording, from: nat, shapes: map<int, Shape>, a: int, b: int,
        n: int, kind: bool, o: Origin)
    requires InvOk(s, from, shapes) && CopiedTo(s, s2, recording, a, b, n, kind) && a in s.objs && s.objs[a] == a + n
    requires n > 0 && b !in o.objs
    requires forall c {:trigger MovedSince(s2, from, o, c)} :: MovedSince(s2, from, o, c) ==> Target(s2.m[c + 1]) != b
    requires OldObject(s, from, a) && (kind <==> a in o.unboxed)
    ensures CopyReady(s2, from, o, a, b) && (Moved(s2, a) <==> Moved(s, a))
  {
    hide ObjectsOk, SlackZero, RawOk, RawApart, NewWordOk, OldObjectOk, Recorded, Evolves, MovedSince;
    CopiedOldObject(s, s2, recording, from, shapes, a, b, n, kind, a);
    assert FreshAt(s2.t, kind, b);
    CopiedRaw(s, s2, recording, a, b, n, kind);
    ObjectInUse(s, a);
    forall x {:trigger s2.m[x]} | b <= x < b + n ensures s2.m[x] == s2.m[a + x - b] {
      assert s.t.InUse(a + x - b);
    }
  }

  lemma CopyPlaced(s: State, from: nat, o: Origin, a: int, b: int)
    requires CopyReady(s, from, o, a, b)
    ensures b in s.objs && (UnboxedAt(s, b) <==> a in o.unboxed)
  {
  }

  lemma ForwardKeeps(s: State, s2: State, from: nat, shapes: map<int, Shape>, a: int, p: int)
    requires InvOk(s, from, shapes) && OldObject(s, from, a) && a + 1 < s.objs[a] && Forwards(s, s2, a, p)
    ensures s2.t == s.t && forall x {:trigger s2.m[x]} :: 0 <= x < |s.m| && Boxed(s.t, from, x) ==> s2.m[x] == s.m[x]
  {
    hide InvOk, Boxed, OldObject;
    OldNotBoxed(s, from, shapes, a, a);
    OldNotBoxed(s, from, shapes, a, a + 1);
  }

  lemma MovedKeeps(s: State, s1: State, s2: State, recording: Recording, from: nat, shapes: map<int, Shape>, a: int,
        b: int, n: int, kind: bool, w: int, p: int)
    requires InvOk(s, from, shapes) && CopiedTo(s, s1, recording, a, b, n, kind) && n > 1 && Pointerp(w)
    requires Target(w) == a
    requires InvOk(s1, from, shapes) && OldObject(s1, from, a) && a + 1 < s1.objs[a] && Forwards(s1, s2, a, p)
    requires WordOk(s1, p) && !Refers(s1.t, from, p)
    ensures MemoryKept(s, s2, from, -1) && FollowsTo(s2, from, w, p)
  {
    hide InvOk, CopiedTo, Boxed, OldObject, Refers;
    CopiedKeeps(s, s1, recording, from, shapes, a, b, n, kind);
    CopiedLength(s, s1, recording, a, b, n, kind);
    ForwardKeeps(s1, s2, from, shapes, a, p);
    ForwardGone(s1, s2, from, a, w, p);
  }

  lemma ForwardGone(s: State, s2: State, from: nat, a: int, w: int, p: int)
    requires OldObject(s, from, a) && Forwards(s, s2, a, p) && Pointerp(w) && Target(w) == a && |s2.m| == |s.m|
    requires WordOk(s, p) && !Refers(s.t, from, p)
    ensures FollowsTo(s2, from, w, p)
  {
  }

  /** Moves a large object to the new space where it is. */
  method PromoteObject(h: Heap, from: nat, shapes: map<int, Shape>, ghost o: Origin, w: int, ghost later: iset<int>)
    requires Ready(h, from, shapes, o) && OldObject(S(h), from, Target(w)) && !Moved(S(h), Target(w))
    requires h.pages[Target(w) / PAGE].large && Target(w) in shapes && LaterOk(h.recording, later)
    requires Target(w) in o.live
    modifies h`bytesAllocated, h`areas, h.pages, h.gens
    ensures Ready(h, from, shapes, o) && KeepsNew(h, from) && !Refers(h.T(), from, w)
    ensures Unmoved(S(h), from) == Unmoved(old(S(h)), from) - {Target(w)}
    ensures Safe(old(S(h)), from, later) ==> Safe(S(h), from, later)
  {
    hide PageOk, RegionOk, ObjectsOk, LargeBlock, HeapOk, InvOk, Mirrors, Traced, Clean, Moved, Refers, Boxed, Unmoved,
      Safe, LaterOk;
    ghost var s := S(h);
    var a := Target(w);
    var shape := shapes[a];
    ObjectAt(s, from, shapes, a);
    OldObjectReady(h, from, shapes, o, a);
    ghost var last := Gc.PromoteLarge(h, from, a, shape.words, shape.unboxed);
    HeapFacts(h.T(), h.objs, h.gens[..], h.bytesAllocated, h.mem[..]);
    assert PromotedTo(s, S(h), h.recording, from, a, last, shape.words, shape.unboxed);
    hide PromotedTo, OldObject;
    PromotedInv(s, S(h), h.recording, from, shapes, a, last, shape.words, shape.unboxed);
    if Safe(s, from, later) {
      PromotedSafe(s, S(h), h.recording, from, shapes, a, last, shape.words, shape.unboxed, later);
    }
    PromotedOnward(s, S(h), h.recording, from, shapes, a, last, shape.words, shape.unboxed);
    PromotedClean(s, S(h), h.recording, from, shapes, a, last, shape.words, shape.unboxed, o.clean);
    PromotedMirrors(s, S(h), h.recording, from, shapes, a, last, shape.words, shape.unboxed, o);
    PromotedTraced(s, S(h), h.recording, from, shapes, a, last, shape.words, shape.unboxed, o);
    PromotedKeeps(s, S(h), h.recording, from, shapes, a, last, shape.words, shape.unboxed, w);
  }

  lemma PromotedKeeps(s: State, s2: State, recording: Recording, from: nat, shapes: map<int, Shape>, a: int, last: int,
        n: int, kind: bool, w: int)
    requires InvOk(s, from, shapes) && PromotedTo(s, s2, recording, from, a, last, n, kind) && Target(w) == a
    ensures forall x {:trigger Boxed(s2.t, from, x)} :: Boxed(s.t, from, x) ==> Boxed(s2.t, from, x)
    ensures |s2.t.ps| == |s.t.ps| && s2.t.gen == s.t.gen
    ensures forall i {:trigger s2.t.ps[i]} ::
      0 <= i < |s.t.ps| && s2.t.ps[i].gen != s.t.gen && s2.t.ps[i].gen != from ==> s2.t.ps[i] == s.t.ps[i]
    ensures forall i {:trigger s2.t.ps[i]} :: 0 <= i < |s.t.ps| && s.t.ps[i].gen != from ==> s2.t.ps[i] == s.t.ps[i]
    ensures forall x {:trigger Todo(s2, from, x)} :: Todo(s2, from, x) && Boxed(s.t, from, x) ==> Todo(s, from, x)
    ensures !Refers(s2.t, from, w)
  {
    hide Boxed, Refers;
    forall x {:trigger Boxed(s2.t, from, x)} | Boxed(s.t, from, x)
      ensures Boxed(s2.t, from, x) && (Todo(s2, from, x) ==> Todo(s, from, x))
    {
      PromotedWord(s, s2, recording, from, a, last, n, kind, x);
      if 0 <= x < |s.m| {
        PromotedRefers(s, s2, recording, from, a, last, n, kind, s.m[x]);
      }
    }
    forall i {:trigger s2.t.ps[i]} | 0 <= i < |s.t.ps|
      ensures (s2.t.ps[i].gen != s.t.gen && s2.t.ps[i].gen != from) || s.t.ps[i].gen != from ==> s2.t.ps[i] == s.t.ps[i]
    {
      PromotedPage(s, s2, recording, from, a, last, n, kind, i);
    }
    PromotedRefers(s, s2, recording, from, a, last, n, kind, w);
  }

  lemma PromotedPage(s: State, s2: State, recording: Recording, from: nat, a: int, last: int, n: int, kind: bool,
        i: int)
    requires PromotedTo(s, s2, recording, from, a, last, n, kind) && 0 <= i < |s.t.ps|
    ensures |s2.t.ps| == |s.t.ps|
    ensures s2.t.ps[i] == s.t.ps[i] || (s.t.ps[i].gen == from && (s2.t.ps[i].gen == s.t.gen || s2.t.ps[i].gen == from))
  {
    assert s2.t.ps[i] == ResizedPage(s.t.ps[i], i, a / PAGE, last, a + n, s.t.gen, kind);
    assert a / PAGE <= i <= last ==> LargePage(s.t.ps[i], s.t.ps[a / PAGE], from, a / PAGE - i);
  }

  lemma OldObjectReady(h: Heap, from: nat, shapes: map<int, Shape>, o: Origin, a: int)
    requires Ready(h, from, shapes, o) && OldObject(S(h), from, a) && !Moved(S(h), a) && a in shapes
    ensures Gc.Movable(h, from, a, shapes[a].words) && (!shapes[a].unboxed ==> !h.pages[a / PAGE].unboxed)
  {
    hide HeapOk, NewWordOk, Moved;
    ObjectAt(S(h), from, shapes, a);
    TailFromSlack(h.T(), h.objs, h.gens[..], h.bytesAllocated, h.mem[..]);
    Gc.ObjectBounds(h.T(), h.objs, h.gens[..], h.bytesAllocated, h.mem[..], a);
    Gc.ObjectWord(h.T(), a, h.objs[a], a);
  }

  /** What becomes of a word that may refer to the old space but is not in the heap: the object is moved unless it has
      been, and the word follows it. */
  method FollowWord(h: Heap, from: nat, shapes: map<int, Shape>, ghost o: Origin, w: int, ghost later: iset<int>)
        returns (ok: bool, w2: int)
    requires Ready(h, from, shapes, o) && WordOk(S(h), w) && LaterOk(h.recording, later)
    requires Refers(h.T(), from, w) ==> Target(w) in o.live
    modifies h, h.pages, h.mem, h.gens
    ensures h.Valid()
    ensures !ok ==> OutOfMemory(h)
    ensures ok ==> Ready(h, from, shapes, o) && KeepsNew(h, from) && WordOk(S(h), w2) && !Refers(h.T(), from, w2)
    ensures ok ==> (w2 == w || Gone(S(h), from, w, w2))
  {
    hide OutOfMemory, Onward, HeapOk, InvOk, Mirrors, Traced, Clean, Boxed, Unmoved, Safe, LaterOk, OldObject;
    ghost var s := S(h);
    OnwardSame(s, s, from);
    if !Refers(h.T(), from, w) {
      return true, w;
    }
    var a := Target(w);
    ReferredOld(s, from, shapes, w);
    if h.mem[a] == FORWARDED {
      return true, h.mem[a + 1];
    }
    if Listp(w) {
      ghost var conses;
      ok, w2, conses := TransList(h, from, shapes, o, w, later);
      return;
    }
    var shape := shapes[a];
    if shape.vector && h.pages[a / PAGE].large {
      PromoteObject(h, from, shapes, o, w, later);
      OnwardWord(s, S(h), from, w);
      return true, w;
    }
    ok, w2 := CopyObject(h, from, shapes, o, w, later);
  }

  lemma OnwardWord(s: State, s2: State, from: nat, w: int)
    requires Onward(s, s2, from) && WordOk(s, w)
    ensures WordOk(s2, w)
  {
  }

  lemma ReferredOld(s: State, from: nat, shapes: map<int, Shape>, w: int)
    requires InvOk(s, from, shapes) && WordOk(s, w) && Refers(s.t, from, w)
    ensures
      var a := Target(w);
      && OldObject(s, from, a) && 0 <= a && a + 1 < |s.m| && a in shapes && a / PAGE < |s.t.ps|
      && (Moved(s, a) ==> WordOk(s, s.m[a + 1]) && !Refers(s.t, from, s.m[a + 1]) && Gone(s, from, w, s.m[a + 1]))
  {
    hide ObjectsOk, PageOk, RegionOk, SlackZero, RawOk, RawApart, Unprotected, NewWordOk;
    assert OldObjectOk(s, from, shapes, Target(w));
  }

  /** What scavenging leaves: nothing more to be scavenged than before, and objects moved only if something has
      changed. */
  twostate predicate LeavesScavenged(h: Heap, from: nat)
    reads h, h.pages, h.mem
  {
    && KeepsNew(h, from) && Unmoved(S(h), from) <= Unmoved(old(S(h)), from)
    && (Unmoved(S(h), from) == Unmoved(old(S(h)), from) ==> h.T() == old(h.T()) && h.areas == old(h.areas))
  }

  lemma DoneWord(s: State, from: nat, later: iset<int>, y: int)
    requires Safe(s, from, later + iset{y}) && !Todo(s, from, y)
    ensures Safe(s, from, later)
  {
    hide Todo;
  }

  /** What a word of the new space that refers to the old space refers to. */
  lemma ReferredObject(s: State, from: nat, shapes: map<int, Shape>, y: int)
    requires InvOk(s, from, shapes) && Tagged(s, from, y)
    ensures 0 <= y < |s.m| && s.m[y] != FORWARDED
    ensures Refers(s.t, from, s.m[y]) ==>
              var a := Target(s.m[y]);
              && Pointerp(s.m[y]) && OldObject(s, from, a) && 0 <= a && a + 1 < |s.m| && a in shapes
              && a / PAGE < |s.t.ps| && a + 1 < s.objs[a]
              && (Moved(s, a) ==> WordOk(s, s.m[a + 1]) && !Refers(s.t, from, s.m[a + 1]))
  {
    hide ObjectsOk, SlackZero, RawOk, RawApart, Unprotected, SizesOk;
    WordInHeap(s.t, s.m, y);
    assert NewWordOk(s, from, y);
    if Refers(s.t, from, s.m[y]) {
      assert OldObjectOk(s, from, shapes, Target(s.m[y]));
    }
  }

  /** scavenge for one word: if it refers to the old space the object is moved unless it has been, and the word follows
      it. */
  method ScavengeWord(h: Heap, from: nat, shapes: map<int, Shape>, ghost o: Origin, y: int, ghost later: iset<int>)
        returns (ok: bool)
    requires Ready(h, from, shapes, o) && Tagged(S(h), from, y) && LaterOk(h.recording, later)
    requires Safe(S(h), from, later + iset{y})
    modifies h, h.pages, h.mem, h.gens
    ensures h.Valid()
    ensures ok ==> Ready(h, from, shapes, o) && LeavesScavenged(h, from) && Safe(S(h), from, later)
    ensures ok ==> !Todo(S(h), from, y)
    ensures !ok ==> OutOfMemory(h)
  {
    hide OutOfMemory, Onward, HeapOk, InvOk, Mirrors, Traced, Clean, Boxed, Unmoved, Safe, LaterOk, OldObject, Refers;
    ghost var s := S(h);
    ReferredObject(s, from, shapes, y);
    TodoLive(h, from, shapes, o, y);
    var w := h.mem[y];
    assert w != FORWARDED;
    if !Refers(h.T(), from, w) {
      DoneWord(s, from, later, y);
      OnwardSame(s, s, from);
      return true;
    }
    var a := Target(w);
    MovesOne(s, from, a);
    if h.mem[a] == FORWARDED {
      UpdateWord(h, from, shapes, o, y, h.mem[a + 1]);
      return true;
    }
    LaterMore(h.recording, later, y);
    var w2;
    if Listp(w) {
      ghost var conses;
      ok, w2, conses := TransList(h, from, shapes, o, w, later + iset{y});
    } else {
      var shape := shapes[a];
      if shape.vector && h.pages[a / PAGE].large {
        PromoteObject(h, from, shapes, o, w, later + iset{y});
        DoneWord(S(h), from, later, y);
        return true;
      }
      ok, w2 := CopyObject(h, from, shapes, o, w, later + iset{y});
    }
    if ok {
      ghost var s1 := S(h);
      OnwardRaw(s, s1, from);
      RefersStill(s, s1, from, w, w2);
      UpdateWord(h, from, shapes, o, y, w2);
      OnwardTwice(s, s1, S(h), from);
    }
  }

  lemma LaterMore(recording: Recording, later: iset<int>, y: int)
    requires LaterOk(recording, later)
    ensures LaterOk(recording, later + iset{y})
  {
  }

  lemma MovesOne(s: State, from: nat, a: int)
    requires OldObject(s, from, a)
    ensures !Moved(s, a) ==> a in Unmoved(s, from)
  {
  }

  /** The words from y up to end. */
  ghost function Words(y: int, end: int): iset<int> {
    iset x | Between(y, x, end)
  }

  lemma SafeMore(s: State, from: nat, later: iset<int>, more: iset<int>)
    requires Safe(s, from, later) && later <= more
    ensures Safe(s, from, more)
  {
    hide Todo;
  }

  /** No unboxed object on boxed pages runs over word y. */
  ghost predicate Uncut(s: State, y: int) {
    forall a {:trigger a in s.objs} :: a in s.objs && a in s.raw ==> !(a < y < s.objs[a])
  }

  /** A raw word that is not within an object begins one. */
  lemma RawStart(s: State, y: int, end: int)
    requires RawOk(s.objs, s.raw) && ObjectsOk(s.t, s.objs) && y in s.raw && Uncut(s, y) && Uncut(s, end) && y < end
    ensures y in s.objs && y < s.objs[y] <= end && Uncut(s, s.objs[y])
    ensures forall x {:trigger x in s.raw} :: y <= x < s.objs[y] ==> x in s.raw
  {
    hide ObjectsOk;
    var a :| a in s.objs && a <= y < s.objs[a];
    assert OneKind(s.objs, s.raw, a);
    UncutBehind(s, y);
  }

  /** The header of an object that is not in the old space is no forwarding mark. */
  lemma RawHeader(s: State, from: nat, shapes: map<int, Shape>, y: int)
    requires InvOk(s, from, shapes) && y in s.objs && Boxed(s.t, from, y)
    ensures 0 <= y < |s.m| && s.m[y] != FORWARDED
  {
    hide ObjectsOk, SlackZero, RawOk, RawApart, NewWordOk, PageOk, RegionOk;
    WordInHeap(s.t, s.m, y);
    assert OldObjectOk(s, from, shapes, y);
  }

  lemma UncutBehind(s: State, y: int)
    requires ObjectsOk(s.t, s.objs) && y in s.objs
    ensures Uncut(s, s.objs[y]) && Uncut(s, y)
  {
    ObjectNotEmpty(s.t, s.objs, y);
    hide Headed, AloneOk, ObjectOk;
    forall a {:trigger a in s.objs} | a in s.objs ensures !(a < s.objs[y] < s.objs[a]) && !(a < y < s.objs[a]) {
    }
  }

  /** Behind a word that is not raw no raw object is cut. */
  lemma UncutNext(s: State, y: int)
    requires RawOk(s.objs, s.raw) && y !in s.raw && Uncut(s, y)
    ensures Uncut(s, y + 1)
  {
    forall a {:trigger a in s.objs} | a in s.objs && a in s.raw ensures !(a < y + 1 < s.objs[a]) {
      assert OneKind(s.objs, s.raw, a);
      assert a <= y < s.objs[a] ==> (y in s.raw <==> a in s.raw);
    }
  }

  lemma UncutStays(s: State, s2: State, from: nat, y: int)
    requires Onward(s, s2, from) && Uncut(s, y)
    ensures Uncut(s2, y)
  {
    OnwardRaw(s, s2, from);
    hide Onward;
  }

  /** Raw words need not be scavenged. */
  lemma RawSafe(s: State, from: nat, later: iset<int>, y: int, z: int, end: int)
    requires Safe(s, from, later + Words(y, end)) && forall x {:trigger x in s.raw} :: y <= x < z ==> x in s.raw
    ensures Safe(s, from, later + Words(z, end))
    ensures forall x {:trigger Todo(s, from, x)} :: y <= x < z ==> !Todo(s, from, x)
  {
    hide Boxed, Refers;
    forall x {:trigger Todo(s, from, x)} | Todo(s, from, x) ensures !(y <= x < z) {
      assert x !in s.raw;
    }
  }

  lemma RawFacts(h: Heap, from: nat, shapes: map<int, Shape>, o: Origin)
    requires Ready(h, from, shapes, o)
    ensures RawOk(h.objs, h.raw) && ObjectsOk(h.T(), h.objs) && InvOk(S(h), from, shapes)
  {
  }

  /** scavenge: goes through n words from start on, stepping over unboxed objects, which do not run over the ends; at
      the end no words are left over, and nothing of them is left to be scavenged. */
  method Scavenge(h: Heap, from: nat, shapes: map<int, Shape>, ghost o: Origin, start: int, n: int,
        ghost later: iset<int>) returns (ok: bool)
    requires Ready(h, from, shapes, o) && LaterOk(h.recording, later) && n >= 0
    requires forall x {:trigger Boxed(h.T(), from, x)} :: start <= x < start + n ==> Boxed(h.T(), from, x)
    requires Uncut(S(h), start) && Uncut(S(h), start + n)
    requires Safe(S(h), from, later + Words(start, start + n))
    modifies h, h.pages, h.mem, h.gens
    ensures h.Valid()
    ensures ok ==> Ready(h, from, shapes, o) && LeavesScavenged(h, from) && Safe(S(h), from, later)
    ensures !ok ==> OutOfMemory(h)
    ensures ok ==> forall x {:trigger Todo(S(h), from, x)} :: start <= x < start + n ==> !Todo(S(h), from, x)
  {
    hide OutOfMemory, Onward, HeapOk, InvOk, Mirrors, Traced, Clean, Boxed, Unmoved, Safe, LaterOk, Ready, Todo, Uncut;
    hide RawOk, ObjectsOk;
    ReadyValid(h, from, shapes, o);
    ghost var s, end := S(h), start + n;
    OnwardSame(s, s, from);
    var y, left := start, n;
    ok := true;
    while left > 0
      invariant start <= y && left == end - y >= 0 && Uncut(S(h), y) && Uncut(S(h), end)
      invariant h.Valid() && Ready(h, from, shapes, o) && LeavesScavenged(h, from)
      invariant Safe(S(h), from, later + Words(y, end))
      invariant forall x {:trigger Todo(S(h), from, x)} :: start <= x < y ==> !Todo(S(h), from, x)
    {
      RawFacts(h, from, shapes, o);
      var step := 1;
      if y in h.raw {
        RawStart(S(h), y, end);
        RawHeader(S(h), from, shapes, y);
        assert h.mem[y] != FORWARDED;
        step := h.objs[y] - y;
        RawSafe(S(h), from, later, y, y + step, end);
      } else {
        SafeMore(S(h), from, later + Words(y, end), later + Words(y + 1, end) + iset{y});
        LaterWords(h.recording, later, Words(y + 1, end));
        ghost var s1 := S(h);
        UncutNext(s1, y);
        assert Boxed(h.T(), from, y);
        ok := ScavengeWord(h, from, shapes, o, y, later + Words(y + 1, end));
        if !ok {
          return;
        }
        UncutStays(s1, S(h), from, y + 1);
        UncutStays(s1, S(h), from, end);
        OnwardTwice(s, s1, S(h), from);
      }
      y, left := y + step, left - step;
    }
    assert left == 0;
    SafeMore(S(h), from, later + Words(y, end), later);
  }

  lemma ReadyValid(h: Heap, from: nat, shapes: map<int, Shape>, o: Origin)
    requires Ready(h, from, shapes, o)
    ensures h.Valid()
  {
  }

  lemma LaterWords(recording: Recording, later: iset<int>, words: iset<int>)
    requires LaterOk(recording, later)
    ensures LaterOk(recording, later + words)
  {
  }

  // ---------- One scan of the pages ----------

  /** The words on pages from i on. */
  ghost function From(i: int): iset<int> {
    iset x | OnPageFrom(x, i)
  }

  predicate OnPageFrom(x: int, i: int) {
    x / PAGE >= i
  }

  predicate NewPage(p: Page, gen: nat) {
    p.alloc && !p.unboxed && p.used != 0 && p.gen == gen
  }

  /** From the head of a page on, all words up to its end are in use on pages like it. */
  lemma {:induction false} HeadWords(t: Table, from: nat, objs: map<int, int>, i: int, x: int)
    requires from != t.gen && t.Valid() && ObjectsOk(t, objs) && 0 <= i < |t.ps| && NewPage(t.ps[i], t.gen)
    requires Head(t.ps, i) <= x < i * PAGE + t.ps[i].used
    ensures Boxed(t, from, x)
    decreases i
  {
    hide RegionOk, ObjectsOk;
    assert PageOk(t.ps, i);
    HeadBelow(t, objs, i);
    if x < i * PAGE {
      if t.ps[i].offset <= -PAGE || x < (i - 1) * PAGE {
        HeadWords(t, from, objs, i - 1, x);
      } else {
        assert x / PAGE == i - 1;
      }
    } else {
      assert x / PAGE == i;
    }
  }

  /** A block of new pages that belong together, as far as the last of them. */
  ghost predicate NewBlock(ps: seq<Page>, gen: nat, i: int, last: int) {
    && 0 <= i <= last < |ps|
    && (forall j {:trigger ps[j]} :: i <= j <= last ==> NewPage(ps[j], gen))
    && (forall j {:trigger ps[j]} :: i <= j < last ==> ps[j].used == PAGE)
  }

  lemma BlockWords(t: Table, from: nat, objs: map<int, int>, i: int, last: int)
    requires from != t.gen && t.Valid() && ObjectsOk(t, objs) && NewBlock(t.ps, t.gen, i, last)
    ensures t.ps[i].offset <= 0
    ensures forall x {:trigger Boxed(t, from, x)} ::
      Head(t.ps, i) <= x < last * PAGE + t.ps[last].used ==> Boxed(t, from, x)
  {
    hide ObjectsOk, Boxed, RegionOk;
    assert PageOk(t.ps, i);
    HeadBelow(t, objs, i);
    forall x {:trigger Boxed(t, from, x)} | Head(t.ps, i) <= x < last * PAGE + t.ps[last].used
      ensures Boxed(t, from, x)
    {
      if x < i * PAGE + t.ps[i].used {
        HeadWords(t, from, objs, i, x);
      } else {
        var j := x / PAGE;
        assert PageOk(t.ps, last) && i <= j <= last;
        assert PageOk(t.ps, j);
        HeadBelow(t, objs, j);
        HeadWords(t, from, objs, j, x);
      }
    }
  }

  /** A word to be scavenged on a page of the block is in the part that is scanned, or in the open region. */
  lemma TodoInBlock(s: State, from: nat, i: int, last: int, x: int)
    requires s.t.Valid() && NewBlock(s.t.ps, s.t.gen, i, last) && Todo(s, from, x) && i <= x / PAGE <= last
    ensures x < last * PAGE + s.t.ps[last].used || Pending(s.t, s.areas, x)
  {
    hide RegionOk;
    assert PageOk(s.t.ps, last) && PageOk(s.t.ps, x / PAGE);
    if s.t.unboxed.Holds(x) {
      HeldIsCovered(s.t, true, x);
      CoveredPage(s.t, true, x / PAGE);
    }
  }

  predicate TodoNew(s: State, from: nat, x: int) {
    Todo(s, from, x) ==> s.t.ps[x / PAGE].gen == s.t.gen
  }

  /** Only in the new space there is something left to be scavenged. */
  ghost predicate OthersClean(s: State, from: nat) {
    forall x {:trigger Todo(s, from, x)} {:trigger TodoNew(s, from, x)} :: TodoNew(s, from, x)
  }

  /** The generations that are neither the old nor the new space. */
  ghost function OtherGenerations(from: nat, to: nat): set<nat> {
    {0, 1, 2, 3, 4, 5, NUM_GENERATIONS} - {from, to}
  }

  lemma CleanOthers(s: State, from: nat, shapes: map<int, Shape>, clean: set<nat>)
    requires InvOk(s, from, shapes) && Clean(s, from, clean) && OtherGenerations(from, s.t.gen) <= clean
    ensures OthersClean(s, from)
  {
    hide NewWordOk, OldObjectOk, SlackZero, RawOk, RawApart, ObjectsOk, RegionOk, Refers;
    forall x {:trigger TodoNew(s, from, x)} ensures TodoNew(s, from, x) {
      if Todo(s, from, x) {
        assert PageOk(s.t.ps, x / PAGE);
        assert s.t.ps[x / PAGE].gen !in OtherGenerations(from, s.t.gen);
      }
    }
  }

  /** A word to be scavenged on a page that is not scanned is in the open region. */
  lemma TodoOffBlock(s: State, from: nat, shapes: map<int, Shape>, x: int)
    requires InvOk(s, from, shapes) && Todo(s, from, x) && s.t.ps[x / PAGE].gen == s.t.gen
    requires 0 <= x / PAGE < |s.t.ps| && (!NewPage(s.t.ps[x / PAGE], s.t.gen) || s.t.ps[x / PAGE].wp)
    ensures Pending(s.t, s.areas, x)
  {
    hide PageOk, RegionOk, SlackZero, RawOk, RawApart, Unprotected, OldObjectOk, ObjectsOk;
    assert NewWordOk(s, from, x);
    assert PageOk(s.t.ps, x / PAGE);
    if s.t.unboxed.Holds(x) {
      HeldIsCovered(s.t, true, x);
      CoveredPage(s.t, true, x / PAGE);
    }
  }

  lemma SafeToScan(s: State, from: nat, i: int, last: int)
    requires s.t.Valid() && NewBlock(s.t.ps, s.t.gen, i, last) && Safe(s, from, From(i)) && s.t.ps[i].offset <= 0
    ensures Safe(s, from, From(last + 1) + Words(Head(s.t.ps, i), last * PAGE + s.t.ps[last].used))
  {
    BlockInRange(s.t.ps, s.t.gen, i, last);
    hide NewBlock, Todo;
    if |s.areas| < NUM_NEW_AREAS {
      forall x {:trigger Todo(s, from, x)} | Todo(s, from, x) && !Pending(s.t, s.areas, x)
        ensures OnPageFrom(x, last + 1) || Between(Head(s.t.ps, i), x, last * PAGE + s.t.ps[last].used)
      {
        assert x in From(i);
        if x / PAGE <= last {
          TodoInBlock(s, from, i, last, x);
        }
      }
    }
  }

  /** Pages i to last need not be scanned if they are not boxed pages of the new space in use, or write protected. */
  lemma SafeToSkip(s: State, from: nat, shapes: map<int, Shape>, i: int, last: int)
    requires InvOk(s, from, shapes) && 0 <= i <= last < |s.t.ps| && Safe(s, from, From(i)) && OthersClean(s, from)
    requires forall j {:trigger s.t.ps[j]} :: i <= j <= last ==> !NewPage(s.t.ps[j], s.t.gen) || s.t.ps[j].wp
    ensures Safe(s, from, From(last + 1))
  {
    hide InvOk, Todo;
    if |s.areas| < NUM_NEW_AREAS {
      forall x {:trigger Todo(s, from, x)} | Todo(s, from, x) && !Pending(s.t, s.areas, x)
        ensures OnPageFrom(x, last + 1)
      {
        assert x in From(i) && TodoNew(s, from, x);
        if x / PAGE <= last {
          TodoOffBlock(s, from, shapes, x);
        }
      }
    }
  }

  /** Works forward to the last page of the block. */
  method BlockLast(h: Heap, gen: nat, i: int) returns (last: int)
    requires h.pages.Length > 0 && h.T().Valid() && 0 <= i < h.pages.Length && NewPage(h.pages[i], gen)
    ensures last < h.pages.Length - 1 && NewBlock(h.pages[..], gen, i, last) && BlockStops(h.pages[..], gen, last)
  {
    hide RegionOk;
    ghost var t := h.T();
    last := i;
    while !(h.pages[last].used < PAGE || !h.pages[last + 1].alloc || h.pages[last + 1].unboxed ||
        h.pages[last + 1].used == 0
            || h.pages[last + 1].gen != gen || h.pages[last + 1].offset == 0)
      invariant i <= last < h.pages.Length - 1 && NewBlock(t.ps, gen, i, last)
      decreases h.pages.Length - last
    {
      assert PageOk(t.ps, last);
      last := last + 1;
    }
  }

  /** Whether all pages of a block are write protected, and if movable is set none of them is pinned. */
  method AllProtected(h: Heap, i: int, last: int, movable: bool) returns (all: bool)
    requires 0 <= i <= last < h.pages.Length
    ensures all <==> forall j :: i <= j <= last ==> h.pages[j].wp && !(movable && h.pages[j].dontMove)
  {
    var j := i;
    all := true;
    while j <= last
      invariant i <= j <= last + 1 && (all <==> forall k :: i <= k < j ==>
          h.pages[k].wp && !(movable && h.pages[k].dontMove))
    {
      if !h.pages[j].wp || (movable && h.pages[j].dontMove) {
        return false;
      }
      j := j + 1;
    }
  }

  /** What a scan does besides changing what is recorded. */
  twostate predicate Progress(h: Heap, from: nat)
    reads h, h.pages, h.mem
  {
    && h.allocGen == old(h.allocGen) && Unmoved(S(h), from) <= Unmoved(old(S(h)), from) && Onward(old(S(h)), S(h), from)
    && (Unmoved(S(h), from) == Unmoved(old(S(h)), from) ==> h.T() == old(h.T()) && h.areas == old(h.areas))
  }

  /** Sets record_new_objects, which changes nothing else. */
  method Record(h: Heap, from: nat, shapes: map<int, Shape>, ghost o: Origin, recording: Recording)
    requires Ready(h, from, shapes, o)
    modifies h`recording
    ensures Ready(h, from, shapes, o) && h.recording == recording && S(h) == old(S(h))
  {
    hide OutOfMemory, Onward, HeapOk, InvOk, Mirrors, Traced, Clean;
    h.recording := recording;
  }

  /** Starts an empty list of new areas. */
  method ForgetRecorded(h: Heap, from: nat, shapes: map<int, Shape>, ghost o: Origin)
    requires Ready(h, from, shapes, o)
    modifies h`areas
    ensures Ready(h, from, shapes, o) && h.T() == old(h.T()) && S(h) == old(S(h)).(areas := [])
    ensures Unmoved(S(h), from) == Unmoved(old(S(h)), from)
    ensures Onward(old(S(h)), S(h), from)
  {
    hide OutOfMemory, Onward, HeapOk, InvOk, Mirrors, Traced, Clean;
    ForgetAreas(S(h), from, shapes);
    ghost var s := S(h);
    h.areas := [];
    assert S(h) == s.(areas := []);
    ForgetClean(s, from, o.clean);
    ForgetTraced(s, from, o);
    OnwardSame(s, S(h), from);
  }

  lemma ForgetClean(s: State, from: nat, clean: set<nat>)
    requires Clean(s, from, clean)
    ensures Clean(s.(areas := []), from, clean)
  {
    var s2 := s.(areas := []);
    forall x {:trigger Todo(s2, from, x)} | Todo(s2, from, x) ensures s2.t.ps[x / PAGE].gen !in clean {
      assert Todo(s, from, x);
    }
  }

  lemma ForgetTraced(s: State, from: nat, o: Origin)
    requires Traced(s, from, o)
    ensures Traced(s.(areas := []), from, o)
  {
    hide NewObject;
    var s2 := s.(areas := []);
    OnwardSame(s, s2, from);
    assert Unmoved(s2, from) == Unmoved(s, from);
    TracingStays(s, s2, from, o);
    OntoStays(s, s2, from, o);
  }

  /** The block ends here: the next page is no page of it, or something begins there. */
  predicate BlockStops(ps: seq<Page>, gen: nat, last: int) {
    0 <= last < |ps| - 1 && (ps[last].used < PAGE || !NewPage(ps[last + 1], gen) || ps[last + 1].offset == 0)
  }

  /** No raw object runs over the end of a block. */
  lemma BlockUncut(s: State, gen: nat, i: int, last: int)
    requires s.t.Valid() && ObjectsOk(s.t, s.objs) && RawOk(s.objs, s.raw) && RawApart(s.t, s.areas, s.raw)
    requires NewBlock(s.t.ps, gen, i, last) && BlockStops(s.t.ps, gen, last)
    ensures Uncut(s, last * PAGE + s.t.ps[last].used)
  {
    hide ObjectsOk, PageOk, RegionOk;
    var end := last * PAGE + s.t.ps[last].used;
    assert end in s.raw ==> !Pending(s.t, s.areas, end);
    forall a {:trigger a in s.objs} | a in s.objs && a in s.raw ensures !(a < end < s.objs[a]) {
      assert OneKind(s.objs, s.raw, a);
      if a < end < s.objs[a] {
        CutHeld(s, gen, last, a);
      }
    }
  }

  /** What runs over the end of a block is held by the open region. */
  lemma CutHeld(s: State, gen: nat, last: int, a: int)
    requires s.t.Valid() && ObjectsOk(s.t, s.objs) && a in s.objs
    requires 0 <= last < |s.t.ps| && NewPage(s.t.ps[last], gen) && BlockStops(s.t.ps, gen, last)
    requires a < last * PAGE + s.t.ps[last].used < s.objs[a]
    ensures s.t.boxed.Holds(last * PAGE + s.t.ps[last].used)
  {
    hide Headed, AloneOk, RegionOk;
    var end, j := last * PAGE + s.t.ps[last].used, last + 1;
    assert ObjectOk(s.t, a, s.objs[a]);
    assert s.t.InUse(end);
    assert PageOk(s.t.ps, last) && PageOk(s.t.ps, j);
    if s.t.unboxed.Holds(end) {
      HeldIsCovered(s.t, true, end);
      CoveredPage(s.t, true, end / PAGE);
    }
    if s.t.ps[last].used == PAGE {
      assert end == j * PAGE && s.t.ps[j].offset != 0;
      KindBefore(s.t, j);
    } else {
      assert end / PAGE == last;
    }
  }

  /** Nor over its beginning. */
  lemma HeadUncut(s: State, i: int)
    requires s.t.Valid() && ObjectsOk(s.t, s.objs) && 0 <= i < |s.t.ps| && s.t.ps[i].used != 0
    ensures Uncut(s, Head(s.t.ps, i))
  {
    assert PageOk(s.t.ps, i);
    hide PageOk, RegionOk, Placed;
    UncutBehind(s, Head(s.t.ps, i));
  }

  /** Scans a block, recording only what is allocated on its pages or before them. */
  method ScanBlock(h: Heap, from: nat, shapes: map<int, Shape>, ghost o: Origin, i: int, last: int) returns (ok: bool)
    requires Ready(h, from, shapes, o) && NewBlock(h.pages[..], h.allocGen, i, last) && Safe(S(h), from, From(i))
    requires BlockStops(h.pages[..], h.allocGen, last)
    modifies h, h.pages, h.mem, h.gens
    ensures h.Valid() && (ok ==> Ready(h, from, shapes, o) && Progress(h, from) && Safe(S(h), from, From(last + 1)))
    ensures !ok ==> OutOfMemory(h)
  {
    hide OutOfMemory, Onward, HeapOk, InvOk, Mirrors, Traced, Clean, Boxed, Unmoved, Safe, LaterOk, NewBlock, Ready,
      PageOk, RegionOk, ObjectsOk, From, Words, Uncut, RawOk, RawApart, BlockStops;
    ghost var s := S(h);
    ReadyFacts(h, from, shapes, o);
    InvParts(s, from, shapes);
    RawParts(s, from, shapes);
    BlockInRange(s.t.ps, s.t.gen, i, last);
    BlockUncut(s, s.t.gen, i, last);
    HeadUncut(s, i);
    BlockWords(s.t, from, s.objs, i, last);
    Gc.UsedBound(s.t, last);
    SafeToScan(s, from, i, last);
    var start := i * PAGE + h.pages[i].offset;
    var size := if last == i then h.pages[last].used - h.pages[i].offset
                else h.pages[last].used + PAGE * (last - i) - h.pages[i].offset;
    ghost var end := last * PAGE + s.t.ps[last].used;
    assert start == Head(s.t.ps, i) && start + size == end;
    assert Safe(s, from, From(last + 1) + Words(start, start + size));
    Record(h, from, shapes, o, UpTo(last));
    LaterPages(last);
    assert S(h) == s && h.T() == s.t;
    ok := Scavenge(h, from, shapes, o, start, size, From(last + 1));
  }

  lemma BlockInRange(ps: seq<Page>, gen: nat, i: int, last: int)
    requires NewBlock(ps, gen, i, last)
    ensures 0 <= i <= last < |ps| && ps[last].used != 0 && ps[i].used != 0
  {
  }

  lemma RawParts(s: State, from: nat, shapes: map<int, Shape>)
    requires InvOk(s, from, shapes)
    ensures RawOk(s.objs, s.raw) && RawApart(s.t, s.areas, s.raw)
  {
  }

  lemma LaterPages(last: int)
    ensures LaterOk(UpTo(last), From(last + 1))
  {
    forall x | x / PAGE > last ensures x in From(last + 1) {
      assert OnPageFrom(x, last + 1);
    }
  }

  /** scavenge_newspace_generation_one_scan: scans the boxed pages of the new space that are not write protected. */
  method OneScan(h: Heap, from: nat, shapes: map<int, Shape>, ghost o: Origin) returns (ok: bool)
    requires Ready(h, from, shapes, o) && OtherGenerations(from, h.allocGen) <= o.clean
    modifies h, h.pages, h.mem, h.gens
    ensures h.Valid() && (ok ==> Ready(h, from, shapes, o) && Progress(h, from) && Safe(S(h), from, iset{}))
    ensures !ok ==> OutOfMemory(h)
  {
    hide OutOfMemory, Onward, HeapOk, InvOk, Mirrors, Traced, Clean, Unmoved, Safe, NewBlock, Ready, PageOk, RegionOk,
      From;
    ReadyFacts(h, from, shapes, o);
    SafeFromStart(S(h), from, shapes);
    ghost var s := S(h);
    OnwardSame(s, s, from);
    ok := true;
    var i := 0;
    while i < h.lastFree
      invariant 0 <= i && Ready(h, from, shapes, o) && Progress(h, from) && Safe(S(h), from, From(i))
      invariant i <= h.pages.Length - 1
      decreases h.pages.Length - i
    {
      ReadyFacts(h, from, shapes, o);
      var last := i;
      if NewPage(h.pages[i], h.allocGen) && (!h.pages[i].wp || h.pages[i].dontMove) {
        last := BlockLast(h, h.allocGen, i);
        BlockInRange(h.pages[..], h.allocGen, i, last);
        var all := AllProtected(h, i, last, true);
        assert !all;
        ghost var s1 := S(h);
        ok := ScanBlock(h, from, shapes, o, i, last);
        if !ok {
          return;
        }
        OnwardTwice(s, s1, S(h), from);
      } else {
        CleanOthers(S(h), from, shapes, o.clean);
        SafeToSkip(S(h), from, shapes, i, i);
      }
      i := last + 1;
    }
    ReadyFacts(h, from, shapes, o);
    SafeAtEnd(S(h), from, shapes, i);
  }

  lemma ReadyFacts(h: Heap, from: nat, shapes: map<int, Shape>, o: Origin)
    requires Ready(h, from, shapes, o)
    ensures h.Valid() && h.T().Valid() && InvOk(S(h), from, shapes) && 0 <= h.lastFree < h.pages.Length
    ensures Clean(S(h), from, o.clean)
  {
  }

  lemma SafeFromStart(s: State, from: nat, shapes: map<int, Shape>)
    requires InvOk(s, from, shapes)
    ensures Safe(s, from, From(0))
  {
    hide InvOk, Boxed, Refers;
    forall x {:trigger Todo(s, from, x)} | Todo(s, from, x) ensures OnPageFrom(x, 0) {
    }
  }

  lemma SafeAtEnd(s: State, from: nat, shapes: map<int, Shape>, i: int)
    requires InvOk(s, from, shapes) && Safe(s, from, From(i)) && s.t.lastFree <= i
    ensures Safe(s, from, iset{})
  {
    hide PageOk, RegionOk, ObjectsOk, NewWordOk, OldObjectOk, SlackZero, RawOk, RawApart, Unprotected, Refers;
    if |s.areas| < NUM_NEW_AREAS {
      forall x {:trigger Todo(s, from, x)} | Todo(s, from, x) ensures Pending(s.t, s.areas, x) {
        assert x in From(i) ==> OnPageFrom(x, i);
      }
    }
  }

  // ---------- The whole new space ----------

  /** Closing the regions keeps the invariants, and what was in the open region is recorded. */
  lemma FlushedInv(s: State, s2: State, recording: Recording, from: nat, shapes: map<int, Shape>)
    requires InvOk(s, from, shapes) && s2 == s.(t := s2.t, areas := s2.areas) && s2.t.Valid()
    requires ObjectsOk(s2.t, s2.objs)
    requires Evolves(s.t, s2.t) && SameWords(s.t, s2.t)
    requires Recorded(s.t, s.areas, s2.t, s2.areas, recording, false, 0, 0)
    ensures InvOk(s2, from, shapes) && Unmoved(s2, from) == Unmoved(s, from)
    ensures Safe(s, from, iset{}) && recording.All? ==> Safe(s2, from, iset{})
  {
    hide ObjectsOk, SlackZero, RawOk, RawApart, NewWordOk, OldObjectOk, OldObject, Recorded, Evolves, Todo;
    forall x ensures NewWordOk(s2, from, x) && (Todo(s2, from, x) ==> Todo(s, from, x)) {
      FlushedWord(s, s2, from, x);
    }
    forall a ensures OldObjectOk(s2, from, shapes, a) && (OldObject(s2, from, a) <==> OldObject(s, from, a)) {
      FlushedOldObject(s, s2, from, shapes, a);
    }
    FlushedAreas(s, s2, recording, from);
    EvolvedShape(s.t, s2.t);
    FlushedUnprotected(s.t, s2.t, from);
    FlushedSlack(s, s2);
    FlushedApart(s, s2, recording);
    if Safe(s, from, iset{}) && recording.All? {
      FlushedSafe(s, s2, recording, from);
    }
  }

  lemma FlushedApart(s: State, s2: State, recording: Recording)
    requires s2 == s.(t := s2.t, areas := s2.areas) && RawApart(s.t, s.areas, s.raw)
    requires Recorded(s.t, s.areas, s2.t, s2.areas, recording, false, 0, 0)
    ensures RawApart(s2.t, s2.areas, s2.raw)
  {
    hide Pending;
    forall x {:trigger x in s.raw} | x in s.raw ensures !Pending(s2.t, s2.areas, x) {
      assert Pending(s2.t, s2.areas, x) ==> Pending(s.t, s.areas, x);
    }
  }

  lemma EvolvedShape(t: Table, t2: Table)
    requires Evolves(t, t2)
    ensures |t2.ps| == |t.ps| && t2.gen == t.gen
  {
  }

  lemma FlushedWord(s: State, s2: State, from: nat, x: int)
    requires s2 == s.(t := s2.t, areas := s2.areas) && Evolves(s.t, s2.t) && SameWords(s.t, s2.t) && from != s.t.gen
    requires NewWordOk(s, from, x)
    requires ObjectsOk(s.t, s.objs)
    ensures NewWordOk(s2, from, x) && (Todo(s2, from, x) ==> Todo(s, from, x))
  {
    hide ObjectsOk;
    if 0 <= x < |s.m| && s2.t.InUse(x) {
      EvolvedBoxed(s.t, s2.t, from, x);
      if Tagged(s, from, x) && s.t.ps[x / PAGE].wp {
        EvolvedOlder(s.t, s2.t, s.objs, s2.objs, s.t.ps[x / PAGE].gen, s.m[x]);
      }
      if Refers(s2.t, from, s.m[x]) {
        EvolvedRefers(s.t, s2.t, from, s.m[x]);
      }
    }
  }

  lemma FlushedClean(s: State, s2: State, from: nat, shapes: map<int, Shape>, clean: set<nat>)
    requires InvOk(s, from, shapes) && s2 == s.(t := s2.t, areas := s2.areas) && Evolves(s.t, s2.t)
    requires SameWords(s.t, s2.t) && Clean(s, from, clean)
    ensures Clean(s2, from, clean)
  {
    hide ObjectsOk, SlackZero, RawOk, RawApart, OldObjectOk, Refers, Boxed, Evolves;
    EvolvedShape(s.t, s2.t);
    forall x {:trigger Todo(s2, from, x)} | Todo(s2, from, x) ensures s2.t.ps[x / PAGE].gen !in clean {
      assert NewWordOk(s, from, x);
      FlushedWord(s, s2, from, x);
      TodoInUse(s, from, x);
      EvolvedBoxed(s.t, s2.t, from, x);
    }
  }

  /** Closing the regions moves nothing. */
  lemma FlushedTraced(s: State, s2: State, from: nat, shapes: map<int, Shape>, o: Origin)
    requires InvOk(s, from, shapes) && s2 == s.(t := s2.t, areas := s2.areas) && Evolves(s.t, s2.t)
    requires SameWords(s.t, s2.t) && Unmoved(s2, from) == Unmoved(s, from) && Traced(s, from, o)
    ensures Traced(s2, from, o)
  {
    FlushedOnward(s, s2, from, shapes);
    hide InvOk, Evolves, SameWords, Unmoved, OldObject, Todo, Tracing, Onto, Weight, ForwardingStays, Refers;
    forall a {:trigger OldObject(s2, from, a)} | OldObject(s2, from, a) ensures OldObject(s, from, a) {
      FlushedOld(s, s2, from, shapes, a);
    }
    forall x {:trigger Todo(s2, from, x)} | Todo(s2, from, x) ensures Todo(s, from, x) {
      FlushedTodo(s, s2, from, shapes, x);
    }
    TracingStays(s, s2, from, o);
    forall b {:trigger StaysNew(s, s2, b)} | b in s.objs ensures StaysNew(s, s2, b) {
      FlushedStaysNew(s, s2, from, shapes, b);
    }
    OntoStays(s, s2, from, o);
  }

  lemma FlushedTodo(s: State, s2: State, from: nat, shapes: map<int, Shape>, x: int)
    requires InvOk(s, from, shapes) && s2 == s.(t := s2.t, areas := s2.areas) && Evolves(s.t, s2.t)
    requires SameWords(s.t, s2.t) && Todo(s2, from, x)
    ensures Todo(s, from, x)
  {
    hide ObjectsOk, SlackZero, RawOk, RawApart, OldObjectOk, Refers, Boxed, Evolves;
    assert NewWordOk(s, from, x);
    FlushedWord(s, s2, from, x);
  }

  lemma FlushedStaysNew(s: State, s2: State, from: nat, shapes: map<int, Shape>, b: int)
    requires InvOk(s, from, shapes) && s2 == s.(t := s2.t, areas := s2.areas) && Evolves(s.t, s2.t) && b in s.objs
    ensures StaysNew(s, s2, b)
  {
    hide SlackZero, RawOk, RawApart, NewWordOk, OldObjectOk, Evolves;
    assert ObjectOk(s.t, b, s.objs[b]);
    assert s.t.InUse(b);
    EvolvedBoxed(s.t, s2.t, from, b);
    EvolvedShape(s.t, s2.t);
  }

  lemma TodoInUse(s: State, from: nat, x: int)
    ensures Todo(s, from, x) ==> s.t.InUse(x)
  {
  }

  lemma FlushedOldObject(s: State, s2: State, from: nat, shapes: map<int, Shape>, a: int)
    requires s2 == s.(t := s2.t, areas := s2.areas) && Evolves(s.t, s2.t) && from != s.t.gen && ObjectsOk(s.t, s.objs)
    requires OldObjectOk(s, from, shapes, a)
    ensures OldObjectOk(s2, from, shapes, a) && (OldObject(s2, from, a) <==> OldObject(s, from, a))
  {
    if a in s.objs {
      assert ObjectOk(s.t, a, s.objs[a]);
      ObjectStart(s.t, a, s.objs[a]);
      assert s.t.InUse(a);
      EvolvedBoxed(s.t, s2.t, from, a);
      forall w ensures Refers(s2.t, from, w) ==> Refers(s.t, from, w) {
        if Refers(s2.t, from, w) {
          EvolvedRefers(s.t, s2.t, from, w);
        }
      }
    }
  }

  lemma FlushedAreas(s: State, s2: State, recording: Recording, from: nat)
    requires from != s.t.gen && s.t.Valid() && Evolves(s.t, s2.t)
    requires Recorded(s.t, s.areas, s2.t, s2.areas, recording, false, 0, 0)
    requires forall x {:trigger Covered(s.areas, x)} :: Covered(s.areas, x) ==> Boxed(s.t, from, x)
    ensures forall x {:trigger Covered(s2.areas, x)} :: Covered(s2.areas, x) ==> Boxed(s2.t, from, x)
  {
    hide Covered;
    forall x {:trigger Covered(s2.areas, x)} | Covered(s2.areas, x) ensures Boxed(s2.t, from, x) {
      assert Pending(s2.t, s2.areas, x);
      if s.t.boxed.Holds(x) {
        HeldBoxed(s.t, from, x);
      }
      EvolvedBoxed(s.t, s2.t, from, x);
    }
  }

  lemma FlushedUnprotected(t: Table, t2: Table, from: nat)
    requires Evolves(t, t2) && from != t.gen && Unprotected(t.ps, from)
    ensures Unprotected(t2.ps, from)
  {
  }

  lemma FlushedSlack(s: State, s2: State)
    requires s2 == s.(t := s2.t, areas := s2.areas) && SameWords(s.t, s2.t) && SlackZero(s.t, s.objs, s.m)
    ensures SlackZero(s2.t, s2.objs, s2.m)
  {
  }

  lemma FlushedSafe(s: State, s2: State, recording: Recording, from: nat)
    requires Recorded(s.t, s.areas, s2.t, s2.areas, recording, false, 0, 0) && recording.All? && Safe(s, from, iset{})
    requires forall x {:trigger Todo(s2, from, x)} :: Todo(s2, from, x) ==> Todo(s, from, x)
    ensures Safe(s2, from, iset{})
  {
    hide Todo;
    if |s2.areas| < NUM_NEW_AREAS {
      forall x {:trigger Todo(s2, from, x)} | Todo(s2, from, x) ensures Pending(s2.t, s2.areas, x) {
        assert Todo(s, from, x);
        assert Pending(s.t, s.areas, x);
      }
    }
  }

  /** Closes the regions while everything is recorded. */
  method FlushAll(h: Heap, from: nat, shapes: map<int, Shape>, ghost o: Origin)
    requires Ready(h, from, shapes, o) && h.recording.All? && Safe(S(h), from, iset{})
    modifies h`boxed, h`unboxed, h`bytesAllocated, h`areas, h.pages, h.gens
    ensures Ready(h, from, shapes, o) && Safe(S(h), from, iset{}) && Flushed(h.T())
    ensures Unmoved(S(h), from) == Unmoved(old(S(h)), from) && h.allocGen == old(h.allocGen)
    ensures old(Flushed(h.T())) ==> h.T() == old(h.T()) && h.areas == old(h.areas)
    ensures Onward(old(S(h)), S(h), from)
  {
    hide OutOfMemory, Onward, HeapOk, InvOk, Mirrors, Traced, Clean, Unmoved, Safe, Evolves, Recorded;
    ghost var s := S(h);
    Gc.Flush(h);
    HeapFacts(h.T(), h.objs, h.gens[..], h.bytesAllocated, h.mem[..]);
    EvolvedShape(s.t, h.T());
    FlushedInv(s, S(h), h.recording, from, shapes);
    FlushedMirrors(s, S(h), from, shapes, o);
    FlushedTraced(s, S(h), from, shapes, o);
    FlushedClean(s, S(h), from, shapes, o.clean);
    FlushedOnward(s, S(h), from, shapes);
  }

  /** The words of the areas from the k-th on. */
  ghost function AreaWords(areas: seq<Area>, k: int): iset<int>
    requires 0 <= k <= |areas|
  {
    iset x | Covered(areas[k..], x)
  }

  /** Scavenges the areas that were recorded before. */
  method ScavengeAreas(h: Heap, from: nat, shapes: map<int, Shape>, ghost o: Origin, areas: seq<Area>)
        returns (ok: bool)
    requires Ready(h, from, shapes, o) && h.recording.All? && Safe(S(h), from, AreaWords(areas, 0))
    requires forall k :: 0 <= k < |areas| ==> areas[k].size > 0
    requires forall x {:trigger Covered(areas, x)} :: Covered(areas, x) ==> Boxed(h.T(), from, x) && x !in h.raw
    modifies h, h.pages, h.mem, h.gens
    ensures h.Valid()
    ensures ok ==> Ready(h, from, shapes, o) && h.recording.All? && Progress(h, from) && Safe(S(h), from, iset{})
    ensures !ok ==> OutOfMemory(h)
  {
    hide OutOfMemory, Onward, HeapOk, InvOk, Mirrors, Traced, Clean, Boxed, Unmoved, Safe, Ready, Covered, Uncut,
      RawOk;
    ReadyFacts(h, from, shapes, o);
    ghost var s := S(h);
    OnwardSame(s, s, from);
    ok := true;
    var i := 0;
    while i < |areas|
      invariant 0 <= i <= |areas| && Ready(h, from, shapes, o) && h.recording.All? && Progress(h, from)
      invariant forall x {:trigger Covered(areas, x)} :: Covered(areas, x) ==> Boxed(h.T(), from, x) && x !in h.raw
      invariant Safe(S(h), from, AreaWords(areas, i))
    {
      var start, size := areas[i].Start(), areas[i].size;
      AreaSplit(areas, i);
      SafeMore(S(h), from, AreaWords(areas, i), AreaWords(areas, i + 1) + Words(start, start + size));
      forall x {:trigger Boxed(h.T(), from, x)} | start <= x < start + size ensures Boxed(h.T(), from, x) {
        assert Between(areas[i].Start(), x, areas[i].End());
        assert Covered(areas, x);
      }
      ghost var s1 := S(h);
      RawFacts(h, from, shapes, o);
      forall x {:trigger x in h.raw} | start <= x < start + size ensures x !in h.raw {
        assert Between(areas[i].Start(), x, areas[i].End());
      }
      AreaUncut(s1, start, start + size);
      ok := Scavenge(h, from, shapes, o, start, size, AreaWords(areas, i + 1));
      if !ok {
        return;
      }
      OnwardRaw(s1, S(h), from);
      OnwardTwice(s, s1, S(h), from);
      ReadyFacts(h, from, shapes, o);
      i := i + 1;
    }
    NoAreaWords(areas);
    ReadyFacts(h, from, shapes, o);
    SafeMore(S(h), from, AreaWords(areas, i), iset{});
  }

  /** Words that are not raw are not part of a raw object that is cut. */
  lemma AreaUncut(s: State, start: int, end: int)
    requires RawOk(s.objs, s.raw) && start < end && forall x {:trigger x in s.raw} :: start <= x < end ==> x !in s.raw
    ensures Uncut(s, start) && Uncut(s, end)
  {
    forall a {:trigger a in s.objs} | a in s.objs && a in s.raw
      ensures !(a < start < s.objs[a]) && !(a < end < s.objs[a])
    {
      assert OneKind(s.objs, s.raw, a);
      assert a <= start < s.objs[a] ==> (start in s.raw <==> a in s.raw);
      assert a <= end - 1 < s.objs[a] ==> (end - 1 in s.raw <==> a in s.raw);
    }
  }

  lemma AreaSplit(areas: seq<Area>, i: int)
    requires 0 <= i < |areas|
    ensures AreaWords(areas, i) <= AreaWords(areas, i + 1) + Words(areas[i].Start(), areas[i].End())
    ensures forall x :: Between(areas[i].Start(), x, areas[i].End()) ==> Covered(areas, x)
  {
    forall x | x in AreaWords(areas, i)
      ensures x in AreaWords(areas, i + 1) || Between(areas[i].Start(), x, areas[i].End())
    {
      var rest := areas[i..];
      var k :| 0 <= k < |rest| && rest[k].Holds(x);
      if k > 0 {
        assert areas[i + 1..][k - 1].Holds(x);
      }
    }
    forall x | Between(areas[i].Start(), x, areas[i].End()) ensures Covered(areas, x) {
      assert areas[i].Holds(x);
    }
  }

  lemma NoAreaWords(areas: seq<Area>)
    ensures AreaWords(areas, |areas|) == iset{}
  {
  }

  /** scavenge_newspace_generation: when it is done no boxed word of the new space refers to the old space, although
      areas may have been left out, merged or lost; it ends because each round but the last moves an object. */
  method ScavengeNewspace(h: Heap, from: nat, shapes: map<int, Shape>, ghost o: Origin) returns (ok: bool)
    requires Ready(h, from, shapes, o) && OtherGenerations(from, h.allocGen) <= o.clean
    modifies h, h.pages, h.mem, h.gens
    ensures h.Valid()
    ensures ok ==> Ready(h, from, shapes, o) && Flushed(h.T()) && h.allocGen == old(h.allocGen) && h.recording.Off?
    ensures !ok ==> OutOfMemory(h)
    ensures ok ==>
      forall x {:trigger h.mem[x]} :: 0 <= x < h.mem.Length && Tagged(S(h), from, x) ==> !Refers(h.T(), from, h.mem[x])
    ensures ok ==> Mirrors(S(h), from, o) && Onward(old(S(h)), S(h), from)
  {
    hide OutOfMemory, Onward, HeapOk, InvOk, Mirrors, Traced, Clean, Boxed, Unmoved, Safe, Covered, Refers, Evolves,
      Recorded;
    ghost var s := S(h);
    ok := StartScan(h, from, shapes, o);
    if !ok {
      return;
    }
    while |h.areas| > 0
      invariant Onward(s, S(h), from)
      invariant Ready(h, from, shapes, o) && h.Valid() && Flushed(h.T()) && h.recording.All? && Safe(S(h), from, iset{})
      invariant h.allocGen == old(h.allocGen)
      decreases |Unmoved(S(h), from)|, |h.areas|
    {
      ghost var before, s1 := Unmoved(S(h), from), S(h);
      ok := Round(h, from, shapes, o);
      if !ok {
        return;
      }
      OnwardTwice(s, s1, S(h), from);
      if Unmoved(S(h), from) != before {
        SmallerSet(Unmoved(S(h), from), before);
      }
    }
    NothingTodo(h, from, shapes, o);
    Record(h, from, shapes, o, Off);
  }

  lemma SmallerSet(a: set<int>, b: set<int>)
    requires a < b
    ensures |a| < |b|
  {
    assert b == a + (b - a);
    assert |b| == |a| + |b - a|;
  }

  /** The first scan, and closing the regions after it. */
  method StartScan(h: Heap, from: nat, shapes: map<int, Shape>, ghost o: Origin) returns (ok: bool)
    requires Ready(h, from, shapes, o) && OtherGenerations(from, h.allocGen) <= o.clean
    modifies h, h.pages, h.mem, h.gens
    ensures h.Valid()
    ensures ok ==> Ready(h, from, shapes, o) && Flushed(h.T()) && h.recording.All? && Safe(S(h), from, iset{})
    ensures ok ==> h.allocGen == old(h.allocGen)
    ensures !ok ==> OutOfMemory(h)
    ensures ok ==> Onward(old(S(h)), S(h), from)
  {
    hide OutOfMemory, Onward, HeapOk, InvOk, Mirrors, Traced, Clean, Boxed, Unmoved, Safe, Evolves, Recorded;
    ghost var s := S(h);
    Gc.Flush(h);
    HeapFacts(h.T(), h.objs, h.gens[..], h.bytesAllocated, h.mem[..]);
    EvolvedShape(s.t, h.T());
    FlushedInv(s, S(h), h.recording, from, shapes);
    FlushedMirrors(s, S(h), from, shapes, o);
    FlushedTraced(s, S(h), from, shapes, o);
    FlushedClean(s, S(h), from, shapes, o.clean);
    FlushedOnward(s, S(h), from, shapes);
    ghost var s1 := S(h);
    ForgetRecorded(h, from, shapes, o);
    OnwardTwice(s, s1, S(h), from);
    Record(h, from, shapes, o, UpTo(0));
    ghost var s2 := S(h);
    ok := OneScan(h, from, shapes, o);
    if ok {
      OnwardTwice(s, s2, S(h), from);
      ghost var s3 := S(h);
      Record(h, from, shapes, o, All);
      FlushAll(h, from, shapes, o);
      OnwardTwice(s, s3, S(h), from);
    }
  }

  /** With no areas recorded less is known to be covered, but what there is stays as it is. */
  lemma ForgetAreas(s: State, from: nat, shapes: map<int, Shape>)
    requires InvOk(s, from, shapes)
    ensures InvOk(s.(areas := []), from, shapes) && Unmoved(s.(areas := []), from) == Unmoved(s, from)
    ensures forall o :: Mirrors(s, from, o) ==> Mirrors(s.(areas := []), from, o)
  {
    hide InvOk, Mirrors, Traced;
    forall o | Mirrors(s, from, o) ensures Mirrors(s.(areas := []), from, o) {
      ForgetMirrors(s, from, o);
    }
    ForgetInv(s, from, shapes);
  }

  lemma ForgetInv(s: State, from: nat, shapes: map<int, Shape>)
    requires InvOk(s, from, shapes)
    ensures InvOk(s.(areas := []), from, shapes) && Unmoved(s.(areas := []), from) == Unmoved(s, from)
  {
    hide ObjectsOk, SlackZero, RawOk, RawApart, Boxed, Refers, ShapeOk, WordOk, SizesOk, Unprotected;
    var s2 := s.(areas := []);
    forall x ensures NewWordOk(s2, from, x) {
      ForgetWord(s, from, x);
    }
    forall a ensures OldObjectOk(s2, from, shapes, a) && (OldObject(s2, from, a) <==> OldObject(s, from, a)) {
      ForgetObject(s, from, shapes, a);
    }
    ForgetApart(s);
  }

  lemma ForgetWord(s: State, from: nat, x: int)
    ensures NewWordOk(s.(areas := []), from, x) <==> NewWordOk(s, from, x)
  {
  }

  lemma ForgetObject(s: State, from: nat, shapes: map<int, Shape>, a: int)
    ensures OldObjectOk(s.(areas := []), from, shapes, a) <==> OldObjectOk(s, from, shapes, a)
    ensures OldObject(s.(areas := []), from, a) <==> OldObject(s, from, a)
  {
    var s2 := s.(areas := []);
    forall w: int ensures WordOk(s2, w) <==> WordOk(s, w) {
    }
  }

  lemma ForgetApart(s: State)
    requires RawApart(s.t, s.areas, s.raw)
    ensures RawApart(s.t, [], s.raw)
  {
  }

  lemma ForgetMirrors(s: State, from: nat, o: Origin)
    requires Mirrors(s, from, o)
    ensures Mirrors(s.(areas := []), from, o)
  {
    var s2 := s.(areas := []);
    forall c ensures (OldObject(s2, from, c) <==> OldObject(s, from, c)) && StaysKind(s, s2, from, o, c) {
    }
    StayingMirrors(s, s2, from, o);
  }

  /** One round: scavenges what was recorded in the round before, or everything if areas were lost. */
  method Round(h: Heap, from: nat, shapes: map<int, Shape>, ghost o: Origin) returns (ok: bool)
    requires Ready(h, from, shapes, o) && OtherGenerations(from, h.allocGen) <= o.clean && Flushed(h.T())
    requires h.recording.All? && Safe(S(h), from, iset{}) && h.areas != []
    modifies h, h.pages, h.mem, h.gens
    ensures h.Valid()
    ensures ok ==> Ready(h, from, shapes, o) && Flushed(h.T()) && h.recording.All? && Safe(S(h), from, iset{})
    ensures ok ==> h.allocGen == old(h.allocGen)
    ensures !ok ==> OutOfMemory(h)
    ensures ok ==> Unmoved(S(h), from) <= Unmoved(old(S(h)), from) && Onward(old(S(h)), S(h), from)
    ensures ok && Unmoved(S(h), from) == Unmoved(old(S(h)), from) ==> h.areas == []
  {
    hide OutOfMemory, Onward, HeapOk, InvOk, Mirrors, Traced, Clean, Boxed, Unmoved, Safe, Covered;
    ghost var s := S(h);
    var previous := h.areas;
    ReadyFacts(h, from, shapes, o);
    AreasToDo(s, from, shapes);
    ForgetRecorded(h, from, shapes, o);
    ghost var s1 := S(h);
    if |previous| >= NUM_NEW_AREAS {
      Record(h, from, shapes, o, UpTo(0));
      ok := OneScan(h, from, shapes, o);
      if ok {
        Record(h, from, shapes, o, All);
      }
    } else {
      ok := ScavengeAreas(h, from, shapes, o, previous);
    }
    if ok {
      OnwardTwice(s, s1, S(h), from);
      ghost var s2 := S(h);
      FlushAll(h, from, shapes, o);
      OnwardTwice(s, s2, S(h), from);
    }
  }

  lemma AreasToDo(s: State, from: nat, shapes: map<int, Shape>)
    requires InvOk(s, from, shapes) && Flushed(s.t) && Safe(s, from, iset{})
    ensures |s.areas| < NUM_NEW_AREAS ==> Safe(s.(areas := []), from, AreaWords(s.areas, 0))
    ensures forall x {:trigger Covered(s.areas, x)} :: Covered(s.areas, x) ==> Boxed(s.t, from, x) && x !in s.raw
  {
    hide Covered, Boxed, Refers;
    forall x {:trigger Covered(s.areas, x)} | Covered(s.areas, x) ensures x !in s.raw {
      assert Pending(s.t, s.areas, x);
    }
    assert s.areas[0..] == s.areas;
    if |s.areas| < NUM_NEW_AREAS {
      var s2 := s.(areas := []);
      forall x {:trigger Todo(s2, from, x)} | Todo(s2, from, x) ensures x in AreaWords(s.areas, 0) {
        assert Todo(s, from, x);
        assert Pending(s.t, s.areas, x);
      }
    }
  }

  lemma NothingTodo(h: Heap, from: nat, shapes: map<int, Shape>, o: Origin)
    requires Ready(h, from, shapes, o) && Flushed(h.T()) && Safe(S(h), from, iset{}) && |h.areas| == 0
    ensures forall x {:trigger h.mem[x]} ::
      0 <= x < h.mem.Length && Tagged(S(h), from, x) ==> !Refers(h.T(), from, h.mem[x])
  {
    hide OutOfMemory, Onward, HeapOk, InvOk, Mirrors, Traced, Clean, Boxed, Refers;
    forall x {:trigger h.mem[x]} | 0 <= x < h.mem.Length && Tagged(S(h), from, x)
      ensures !Refers(h.T(), from, h.mem[x])
    {
      assert Todo(S(h), from, x) ==> Pending(S(h).t, S(h).areas, x);
    }
  }
}
