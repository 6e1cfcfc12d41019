/** Scavenging moves only what can be reached: out of a set of objects of the beginning that is closed under reference
    nothing leads that is moved out of the old space, and every object that was not there at the beginning is a copy. */
module NewspaceTrace {
  import opened PageTable
  import opened PageObjects
  import opened PageBlocks
  import opened PageGrowth
  import opened PageRuns
  import opened NewAreas
  import opened Newspace
  import opened NewspaceMirror

  // ---------- Nothing else is moved ----------

  /** What object a of the beginning refers to in the old space is in the set. */
  ghost predicate TargetsIn(o: Origin, a: int)
    requires a in o.objs
  {
    forall x {:trigger o.m[x]} ::
      a <= x < o.objs[a] && 0 <= x < |o.m| && Pointerp(o.m[x]) && Target(o.m[x]) in o.oldObjs ==>
          Target(o.m[x]) in o.live
  }

  ghost predicate LiveClosed(o: Origin) {
    forall a {:trigger a in o.live} ::
      a in o.live && a in o.oldObjs && a in o.objs && a !in o.unboxed ==> TargetsIn(o, a)
  }

  /** The objects that have been moved, and those that words still to be scavenged refer to, are in the set. */
  ghost predicate Tracing(s: State, from: nat, o: Origin) {
    && LiveClosed(o)
    && (forall a {:trigger OldObject(s, from, a)} :: OldObject(s, from, a) ==> a in o.oldObjs)
    && (forall a {:trigger a in o.oldObjs} :: a in o.oldObjs && a !in Unmoved(s, from) ==> a in o.live)
    && (forall x {:trigger Todo(s, from, x)} :: Todo(s, from, x) ==> Target(s.m[x]) in o.live)
  }

  lemma TracingStays(s: State, s2: State, from: nat, o: Origin)
    requires Tracing(s, from, o)
    requires forall a {:trigger OldObject(s2, from, a)} :: OldObject(s2, from, a) ==> OldObject(s, from, a)
    requires forall a {:trigger a in Unmoved(s2, from)} :: a in Unmoved(s, from) && a !in o.live ==>
               a in Unmoved(s2, from)
    requires forall x {:trigger Todo(s2, from, x)} :: Todo(s2, from, x) ==>
               Target(s2.m[x]) in o.live || (Todo(s, from, x) && s2.m[x] == s.m[x])
    ensures Tracing(s2, from, o)
  {
    hide Todo, OldObject, Unmoved;
  }

  /** What object a, which has not been moved, refers to in the old space is in the set if it is. */
  lemma ReferredLive(s: State, from: nat, shapes: map<int, Shape>, o: Origin, a: int, x: int)
    requires InvOk(s, from, shapes) && Mirrors(s, from, o) && Tracing(s, from, o) && OldObject(s, from, a)
    requires !Moved(s, a) && a in shapes && !shapes[a].unboxed && a !in o.unboxed && a in o.live
    requires a <= x < a + shapes[a].words && 0 <= x < |s.m| && Refers(s.t, from, s.m[x])
    ensures Target(s.m[x]) in o.live
  {
    hide ObjectsOk, SlackZero, RawOk, RawApart, NewWordOk, LiveClosed, PageOk, RegionOk;
    assert OldObjectOk(s, from, shapes, a);
    assert ObjectMirrors(s, from, o, a);
    assert OldObject(s, from, Target(s.m[x]));
    assert s.m[x] == o.m[x];
    assert TargetsIn(o, a) by {
      ClosedAt(o, a);
    }
  }

  lemma ClosedAt(o: Origin, a: int)
    requires LiveClosed(o) && a in o.live && a in o.oldObjs && a in o.objs && a !in o.unboxed
    ensures TargetsIn(o, a)
  {
  }

  lemma CopiedTracing(s: State, s2: State, recording: Recording, from: nat, shapes: map<int, Shape>, a: int, b: int,
        n: int, kind: bool, o: Origin)
    requires InvOk(s, from, shapes) && CopiedTo(s, s2, recording, a, b, n, kind) && n > 0 && Mirrors(s, from, o)
    requires a in shapes && shapes[a].words == n && shapes[a].unboxed == kind && OldObject(s, from, a) && !Moved(s, a)
    requires (kind <==> a in o.unboxed) && a in o.live && Tracing(s, from, o)
    ensures Tracing(s2, from, o)
  {
    hide InvOk, Mirrors, CopiedTo, Tracing, OldObject, Unmoved, Todo, Refers, Moved;
    CopiedInv(s, s2, recording, from, shapes, a, b, n, kind);
    forall c {:trigger OldObject(s2, from, c)} | OldObject(s2, from, c) ensures OldObject(s, from, c) {
      CopiedOldObject(s, s2, recording, from, shapes, a, b, n, kind, c);
    }
    forall x {:trigger Todo(s2, from, x)} | Todo(s2, from, x)
      ensures 0 <= x < |s.m| == |s2.m| && (Target(s2.m[x]) in o.live || (Todo(s, from, x) && s2.m[x] == s.m[x]))
    {
      CopiedTodo(s, s2, recording, from, shapes, a, b, n, kind, x);
      if !Todo(s, from, x) || s2.m[x] != s.m[x] {
        ReferredLive(s, from, shapes, o, a, a + x - b);
      }
    }
    TracingStays(s, s2, from, o);
  }

  /** A word that still has to be scavenged had to be before, or it is one of the copy. */
  lemma CopiedTodo(s: State, s2: State, recording: Recording, from: nat, shapes: map<int, Shape>, a: int, b: int,
        n: int, kind: bool, x: int)
    requires a in shapes && shapes[a].words == n && shapes[a].unboxed == kind && OldObject(s, from, a) && !Moved(s, a)
    requires InvOk(s, from, shapes) && CopiedTo(s, s2, recording, a, b, n, kind) && Todo(s2, from, x)
    ensures 0 <= x < |s2.m| == |s.m|
    ensures (Todo(s, from, x) && s2.m[x] == s.m[x])
            || (!kind && b <= x < b + n && 0 <= a + x - b < |s.m| && s2.m[x] == s.m[a + x - b]
                && Refers(s.t, from, s.m[a + x - b]))
  {
    hide ObjectsOk, SlackZero, RawOk, RawApart, NewWordOk, OldObjectOk, Recorded, Evolves, Fresh;
    CopiedWord(s, s2, recording, from, shapes, a, b, n, kind, x);
    if !Todo(s, from, x) {
      EvolvedRefers(s.t, s2.t, from, s2.m[x]);
    }
  }

  lemma ForwardTracing(s: State, s2: State, from: nat, shapes: map<int, Shape>, a: int, p: int, o: Origin)
    requires InvOk(s, from, shapes) && OldObject(s, from, a) && a + 1 < s.objs[a] && Forwards(s, s2, a, p)
    requires WordOk(s, p) && !Refers(s.t, from, p) && a in o.live && Tracing(s, from, o)
    ensures Tracing(s2, from, o)
  {
    ForwardInv(s, s2, from, shapes, a, p);
    OldNotBoxed(s, from, shapes, a, a);
    OldNotBoxed(s, from, shapes, a, a + 1);
    hide InvOk, Tracing, Unmoved, Refers, Boxed;
    forall c {:trigger OldObject(s2, from, c)} | OldObject(s2, from, c) ensures OldObject(s, from, c) {
    }
    TracingStays(s, s2, from, o);
  }

  lemma UpdateTracing(s: State, s2: State, from: nat, shapes: map<int, Shape>, y: int, w: int, o: Origin)
    requires InvOk(s, from, shapes) && Updates(s, s2, from, y, w) && Tracing(s, from, o)
    ensures Tracing(s2, from, o)
  {
    UpdateInv(s, s2, from, shapes, y, w);
    hide InvOk, Tracing, Unmoved, Refers, Boxed;
    forall c {:trigger OldObject(s2, from, c)} | OldObject(s2, from, c) ensures OldObject(s, from, c) {
    }
    TracingStays(s, s2, from, o);
  }

  lemma PromotedTracing(s: State, s2: State, recording: Recording, from: nat, shapes: map<int, Shape>, a: int,
        last: int, n: int, kind: bool, o: Origin)
    requires InvOk(s, from, shapes) && PromotedTo(s, s2, recording, from, a, last, n, kind) && Mirrors(s, from, o)
    requires a in shapes && shapes[a].words == n && shapes[a].unboxed == kind && OldObject(s, from, a) && !Moved(s, a)
    requires (kind <==> a in o.unboxed) && a in o.live && Tracing(s, from, o)
    ensures Tracing(s2, from, o)
  {
    PromotedInv(s, s2, recording, from, shapes, a, last, n, kind);
    PromotedOld(s, s2, recording, from, shapes, a, last, n, kind);
    hide InvOk, Mirrors, PromotedTo, Tracing, OldObject, Unmoved, Todo, Refers, Moved;
    forall c {:trigger OldObject(s2, from, c)} | OldObject(s2, from, c) ensures OldObject(s, from, c) {
    }
    forall x {:trigger Todo(s2, from, x)} | Todo(s2, from, x)
      ensures 0 <= x < |s.m| == |s2.m| && (Target(s2.m[x]) in o.live || (Todo(s, from, x) && s2.m[x] == s.m[x]))
    {
      PromotedTodo(s, s2, recording, from, shapes, a, last, n, kind, x);
      if !Todo(s, from, x) {
        ReferredLive(s, from, shapes, o, a, x);
      }
    }
    TracingStays(s, s2, from, o);
  }

  /** A word that still has to be scavenged had to be before, or it is one of the object. */
  lemma PromotedTodo(s: State, s2: State, recording: Recording, from: nat, shapes: map<int, Shape>, a: int, last: int,
        n: int, kind: bool, x: int)
    requires a in shapes && shapes[a].words == n && shapes[a].unboxed == kind && OldObject(s, from, a) && !Moved(s, a)
    requires InvOk(s, from, shapes) && PromotedTo(s, s2, recording, from, a, last, n, kind) && Todo(s2, from, x)
    ensures 0 <= x < |s2.m| == |s.m| && s2.m[x] == s.m[x]
    ensures Todo(s, from, x) || (!kind && a <= x < a + n && Refers(s.t, from, s.m[x]))
  {
    PromotedSame(s, s2, recording, from, a, last, n, kind);
    PromotedNewWord(s, s2, recording, from, shapes, a, last, n, kind, x);
    NewGeneration(s, from, shapes);
    hide InvOk, PromotedTo;
    PromotedRefers(s, s2, recording, from, a, last, n, kind, s.m[x]);
  }

  // ---------- Nothing else comes into being ----------

  predicate CopiedFrom(s: State, from: nat, o: Origin, a: int, b: int) {
    MovedSince(s, from, o, a) && Target(s.m[a + 1]) == b
  }

  /** The object at b, in the new space, is the copy of one of the beginning. */
  ghost predicate NewObject(s: State, from: nat, o: Origin, b: int) {
    && 0 <= b / PAGE < |s.t.ps| && s.t.ps[b / PAGE].gen == s.t.gen
    && exists a {:trigger CopiedFrom(s, from, o, a, b)} :: CopiedFrom(s, from, o, a, b)
  }

  /** Every object was there at the beginning or is the copy of one. */
  ghost predicate Onto(s: State, from: nat, o: Origin) {
    forall b {:trigger b in s.objs} :: b in s.objs && b !in o.objs ==> NewObject(s, from, o, b)
  }

  /** But for the one at c, which is going to be one. */
  ghost predicate OntoBut(s: State, from: nat, o: Origin, c: int) {
    && (forall b {:trigger b in s.objs} :: b in s.objs && b !in o.objs && b != c ==> NewObject(s, from, o, b))
    && 0 <= c / PAGE < |s.t.ps| && s.t.ps[c / PAGE].gen == s.t.gen
  }

  /** An object in the new space stays there. */
  predicate StaysNew(s: State, s2: State, b: int) {
    0 <= b / PAGE < |s.t.ps| == |s2.t.ps| && s.t.ps[b / PAGE].gen == s.t.gen ==> s2.t.ps[b / PAGE].gen == s2.t.gen
  }

  lemma NewObjectStays(s: State, s2: State, from: nat, o: Origin, b: int)
    requires ForwardingStays(s, s2, from) && |s2.t.ps| == |s.t.ps| && StaysNew(s, s2, b) && NewObject(s, from, o, b)
    ensures NewObject(s2, from, o, b)
  {
    hide OldObject;
    var a :| CopiedFrom(s, from, o, a, b);
    assert OldObject(s, from, a);
    assert CopiedFrom(s2, from, o, a, b);
  }

  lemma OntoStays(s: State, s2: State, from: nat, o: Origin)
    requires ForwardingStays(s, s2, from) && |s2.t.ps| == |s.t.ps| && s2.objs == s.objs && Onto(s, from, o)
    requires forall b {:trigger StaysNew(s, s2, b)} :: b in s.objs ==> StaysNew(s, s2, b)
    ensures Onto(s2, from, o)
  {
    hide ForwardingStays, StaysNew, NewObject;
    forall b {:trigger b in s2.objs} | b in s2.objs && b !in o.objs ensures NewObject(s2, from, o, b) {
      assert StaysNew(s, s2, b);
      NewObjectStays(s, s2, from, o, b);
    }
  }

  lemma CopiedOnto(s: State, s2: State, recording: Recording, from: nat, shapes: map<int, Shape>, a: int, b: int,
        n: int, kind: bool, o: Origin)
    requires InvOk(s, from, shapes) && CopiedTo(s, s2, recording, a, b, n, kind) && n > 0 && Onto(s, from, o)
    ensures OntoBut(s2, from, o, b)
  {
    CopiedForwarding(s, s2, recording, from, shapes, a, b, n, kind);
    InvParts(s, from, shapes);
    CopiedPlace(s, s2, recording, a, b, n, kind);
    hide InvOk, CopiedTo, ForwardingStays, NewObject, ObjectsOk;
    forall c {:trigger c in s2.objs} | c in s2.objs && c !in o.objs && c != b ensures NewObject(s2, from, o, c) {
      CopiedStaysNew(s, s2, recording, a, b, n, kind, c);
      NewObjectStays(s, s2, from, o, c);
    }
  }

  lemma CopiedPlace(s: State, s2: State, recording: Recording, a: int, b: int, n: int, kind: bool)
    requires CopiedTo(s, s2, recording, a, b, n, kind) && n > 0
    ensures |s2.t.ps| == |s.t.ps| && 0 <= b / PAGE < |s2.t.ps| && s2.t.ps[b / PAGE].gen == s2.t.gen
    ensures forall c {:trigger c in s2.objs} :: c in s2.objs ==> c in s.objs || c == b
  {
    hide ObjectsOk, Recorded, PageOk, RegionOk;
    assert FreshAt(s2.t, kind, b);
  }

  lemma CopiedStaysNew(s: State, s2: State, recording: Recording, a: int, b: int, n: int, kind: bool, c: int)
    requires CopiedTo(s, s2, recording, a, b, n, kind) && ObjectsOk(s.t, s.objs) && c in s.objs
    ensures StaysNew(s, s2, c)
  {
    hide Recorded, Fresh, Gains, AloneOk, Headed;
    assert ObjectOk(s.t, c, s.objs[c]);
    assert s.t.InUse(c);
    assert SamePage(s.t, s2.t, c);
  }

  lemma ForwardOnto(s: State, s2: State, from: nat, shapes: map<int, Shape>, a: int, p: int, o: Origin)
    requires InvOk(s, from, shapes) && OldObject(s, from, a) && a + 1 < s.objs[a] && !Moved(s, a)
    requires Forwards(s, s2, a, p) && Mirrors(s, from, o) && OntoBut(s, from, o, Target(p))
    ensures Onto(s2, from, o)
  {
    ForwardStays(s, s2, from, shapes, a, p);
    assert ObjectMirrors(s, from, o, a);
    assert s.m[a] == o.m[a];
    hide InvOk, Mirrors, ForwardingStays, OldObject;
    forall b {:trigger b in s2.objs} | b in s2.objs && b !in o.objs ensures NewObject(s2, from, o, b) {
      if b == Target(p) {
        ForwardedFrom(s, s2, from, a, p, o);
      } else {
        NewObjectStays(s, s2, from, o, b);
      }
    }
  }

  lemma ForwardedFrom(s: State, s2: State, from: nat, a: int, p: int, o: Origin)
    requires OldObject(s, from, a) && Forwards(s, s2, a, p) && a in o.objs && |o.m| == |s.m| && o.m[a] != FORWARDED
    ensures CopiedFrom(s2, from, o, a, Target(p))
  {
  }

  // ---------- Both ----------

  ghost predicate Traced(s: State, from: nat, o: Origin) {
    Tracing(s, from, o) && Onto(s, from, o)
  }

  /** As it is when an object has been copied to b but not been forwarded yet. */
  ghost predicate TracedBut(s: State, from: nat, o: Origin, b: int) {
    Tracing(s, from, o) && OntoBut(s, from, o, b)
  }

  lemma CopiedTraced(s: State, s2: State, recording: Recording, from: nat, shapes: map<int, Shape>, a: int, b: int,
        n: int, kind: bool, o: Origin)
    requires InvOk(s, from, shapes) && CopiedTo(s, s2, recording, a, b, n, kind) && n > 0 && Mirrors(s, from, o)
    requires a in shapes && shapes[a].words == n && shapes[a].unboxed == kind && OldObject(s, from, a) && !Moved(s, a)
    requires (kind <==> a in o.unboxed) && a in o.live && Traced(s, from, o)
    ensures TracedBut(s2, from, o, b)
  {
    hide InvOk, CopiedTo, Mirrors, OldObject, Moved, Tracing, Onto, OntoBut;
    CopiedTracing(s, s2, recording, from, shapes, a, b, n, kind, o);
    CopiedOnto(s, s2, recording, from, shapes, a, b, n, kind, o);
  }

  lemma ForwardTraced(s: State, s2: State, from: nat, shapes: map<int, Shape>, a: int, p: int, o: Origin)
    requires InvOk(s, from, shapes) && OldObject(s, from, a) && a + 1 < s.objs[a] && !Moved(s, a)
    requires Forwards(s, s2, a, p) && Mirrors(s, from, o) && WordOk(s, p) && !Refers(s.t, from, p)
    requires a in o.live && TracedBut(s, from, o, Target(p))
    ensures Traced(s2, from, o)
  {
    hide InvOk, Forwards, Mirrors, OldObject, Moved, Refers, Tracing, Onto, OntoBut;
    ForwardTracing(s, s2, from, shapes, a, p, o);
    ForwardOnto(s, s2, from, shapes, a, p, o);
  }

  lemma UpdateTraced(s: State, s2: State, from: nat, shapes: map<int, Shape>, y: int, w: int, o: Origin)
    requires InvOk(s, from, shapes) && Follows(s, s2, from, y, w) && Traced(s, from, o)
    ensures Traced(s2, from, o)
  {
    hide InvOk, Boxed, Refers, Tracing, Onto;
    UpdateTracing(s, s2, from, shapes, y, w, o);
    UpdateStays(s, s2, from, shapes, y, w);
    OntoStays(s, s2, from, o);
  }

  lemma PromotedTraced(s: State, s2: State, recording: Recording, from: nat, shapes: map<int, Shape>, a: int,
        last: int, n: int, kind: bool, o: Origin)
    requires InvOk(s, from, shapes) && PromotedTo(s, s2, recording, from, a, last, n, kind) && Mirrors(s, from, o)
    requires a in shapes && shapes[a].words == n && shapes[a].unboxed == kind && OldObject(s, from, a) && !Moved(s, a)
    requires (kind <==> a in o.unboxed) && a in o.live && Traced(s, from, o)
    ensures Traced(s2, from, o)
  {
    hide InvOk, PromotedTo, Mirrors, OldObject, Refers, Tracing, Onto, Forth;
    PromotedTracing(s, s2, recording, from, shapes, a, last, n, kind, o);
    PromotedOnward(s, s2, recording, from, shapes, a, last, n, kind);
    PromotedOld(s, s2, recording, from, shapes, a, last, n, kind);
    ForthStays(s, s2, from);
    forall b {:trigger StaysNew(s, s2, b)} | b in s.objs ensures StaysNew(s, s2, b) {
      PromotedStaysNew(s, s2, recording, from, a, last, n, kind, b);
    }
    OntoStays(s, s2, from, o);
  }

  lemma ForthStays(s: State, s2: State, from: nat)
    requires Forth(s, s2, from)
    ensures ForwardingStays(s, s2, from) && |s2.t.ps| == |s.t.ps|
  {
  }

  lemma PromotedStaysNew(s: State, s2: State, recording: Recording, from: nat, a: int, last: int, n: int, kind: bool,
        b: int)
    requires PromotedTo(s, s2, recording, from, a, last, n, kind)
    ensures StaysNew(s, s2, b)
  {
    var i := b / PAGE;
    if 0 <= i < |s.t.ps| {
      assert s2.t.ps[i] == ResizedPage(s.t.ps[i], i, a / PAGE, last, a + n, s.t.gen, kind);
      assert a / PAGE <= i <= last ==> LargePage(s.t.ps[i], s.t.ps[a / PAGE], from, a / PAGE - i);
    }
  }
}
