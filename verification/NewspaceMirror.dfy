/** Scavenging the new space preserves what the objects refer to: compared with the contents at the beginning, words
    have changed only from references to old objects to references to where these have gone. */
module NewspaceMirror {
  import opened PageTable
  import opened PageObjects
  import opened PageBlocks
  import opened PageGrowth
  import opened PageRuns
  import opened NewAreas
  import opened Newspace
  import opened WordAccount

  /** The words, the objects and the unboxed ones of them at the beginning, the generations that refer to nothing in the
      old space, and for the statements the objects of the old space and some that may be moved out of it. */
  datatype Origin = Origin(m: seq<int>, objs: map<int, int>, unboxed: set<int>, clean: set<nat>, oldObjs: set<int>,
                           live: set<int>)

  /** The shapes say which objects were unboxed. */
  ghost predicate KindsOk(shapes: map<int, Shape>, o: Origin) {
    forall a {:trigger a in shapes} :: a in shapes ==> (a in o.unboxed <==> shapes[a].unboxed)
  }

  /** Word x is w0, or if it is a boxed word where the object that w0 refers to has gone. */
  predicate FollowedAt(s: State, from: nat, x: int, w0: int) {
    0 <= x < |s.m| && (s.m[x] == w0 || (Tagged(s, from, x) && Gone(s, from, w0, s.m[x])))
  }

  /** Word x mirrors the word of the beginning that is d words further on. */
  predicate WordMirrors(s: State, from: nat, m: seq<int>, d: int, x: int) {
    0 <= x + d < |m| && FollowedAt(s, from, x, m[x + d])
  }

  /** The words from lo up to hi mirror those of the beginning that are d words further on. */
  ghost predicate RangeMirrors(s: State, from: nat, m: seq<int>, d: int, lo: int, hi: int) {
    forall x {:trigger WordMirrors(s, from, m, d, x)} :: lo <= x < hi ==> WordMirrors(s, from, m, d, x)
  }

  predicate Gone(s: State, from: nat, w0: int, w: int) {
    var a := Target(w0);
    Pointerp(w0) && OldObject(s, from, a) && Moved(s, a) && a + 1 < |s.m| && w == s.m[a + 1]
  }

  /** Object a has been copied: the copy is a new object of the same size and kind, with a's original contents. */
  ghost predicate CopyMirrors(s: State, from: nat, o: Origin, a: int)
    requires a in o.objs && 0 <= a && a + 1 < |s.m|
  {
    var b := Target(s.m[a + 1]);
    && b in s.objs && b !in o.objs && s.objs[b] - b == o.objs[a] - a && 0 <= b && s.objs[b] <= |s.m|
    && o.objs[a] <= |o.m|
    && Pointerp(s.m[a + 1]) && s.m[a + 1] != FORWARDED && !Refers(s.t, from, s.m[a + 1])
    && (UnboxedAt(s, b) <==> a in o.unboxed)
    && RangeMirrors(s, from, o.m, a - b, b, s.objs[b])
  }

  /** A forwarding pointer is the one of the beginning, or it refers to a copy. */
  ghost predicate StaysOrCopied(s: State, from: nat, o: Origin, a: int)
    requires a in o.objs && 0 <= a && a + 1 < |s.m| == |o.m|
  {
    if o.m[a] == FORWARDED then s.m[a + 1] == o.m[a + 1] else CopyMirrors(s, from, o, a)
  }

  /** What has become of object a of the beginning. */
  ghost predicate ObjectMirrors(s: State, from: nat, o: Origin, a: int) {
    && (OldObject(s, from, a) ==> a in o.objs)
    && (a in o.objs ==>
      && a in s.objs && s.objs[a] == o.objs[a] && 0 <= a < o.objs[a] <= |s.m| == |o.m|
      && (if !OldObject(s, from, a) then RangeMirrors(s, from, o.m, 0, a, o.objs[a]) &&
          (UnboxedAt(s, a) <==> a in o.unboxed)
          else if !Moved(s, a) then forall x {:trigger s.m[x]} :: a <= x < o.objs[a] ==> s.m[x] == o.m[x]
          else a + 1 < o.objs[a] && StaysOrCopied(s, from, o, a)))
  }

  predicate MovedSince(s: State, from: nat, o: Origin, a: int) {
    a in o.objs && 0 <= a && a + 1 < |s.m| == |o.m| && OldObject(s, from, a) && Moved(s, a) && o.m[a] != FORWARDED
  }

  ghost predicate Mirrors(s: State, from: nat, o: Origin) {
    && |s.m| == |o.m|
    && (forall a {:trigger ObjectMirrors(s, from, o, a)} :: ObjectMirrors(s, from, o, a))
    && (forall a, c {:trigger MovedSince(s, from, o, a), MovedSince(s, from, o, c)} ::
          MovedSince(s, from, o, a) && MovedSince(s, from, o, c) && a != c ==> Target(s.m[a + 1]) != Target(s.m[c + 1]))
  }

  /** At the beginning everything is as it was. */
  lemma MirrorsAtFirst(s: State, from: nat, shapes: map<int, Shape>, o: Origin)
    requires InvOk(s, from, shapes) && o.m == s.m && o.objs == s.objs
    requires forall a {:trigger a in o.unboxed} {:trigger a in s.objs} :: a in s.objs && !OldObject(s, from, a) ==>
               (a in o.unboxed <==> UnboxedAt(s, a))
    ensures Mirrors(s, from, o)
  {
    hide NewWordOk, SlackZero, RawOk, RawApart, Unprotected;
    forall a ensures ObjectMirrors(s, from, o, a) {
      assert OldObjectOk(s, from, shapes, a);
      if a in s.objs {
        assert ObjectOk(s.t, a, s.objs[a]);
        assert s.t.InUse(s.objs[a] - 1);
      }
    }
  }

  /** Forwarding pointers that are there stay. */
  ghost predicate ForwardingStays(s: State, s2: State, from: nat) {
    && |s2.m| == |s.m| && s2.raw == s.raw
    && (forall a {:trigger OldObject(s, from, a)} :: OldObject(s, from, a) && Moved(s, a) ==>
          OldObject(s2, from, a) && Moved(s2, a) && (a + 1 < |s.m| ==> s2.m[a + 1] == s.m[a + 1]))
  }

  lemma MirrorStays(s: State, s2: State, from: nat, o: Origin, d: int, x: int)
    requires ForwardingStays(s, s2, from) && WordMirrors(s, from, o.m, d, x) && s2.m[x] == s.m[x]
    requires Boxed(s.t, from, x) ==> Boxed(s2.t, from, x)
    ensures WordMirrors(s2, from, o.m, d, x)
  {
    hide OldObject;
  }

  /** Word x is the same, and boxed if it was. */
  predicate SameWord(s: State, s2: State, from: nat, x: int) {
    0 <= x < |s.m| == |s2.m| && s2.m[x] == s.m[x] && (Boxed(s.t, from, x) ==> Boxed(s2.t, from, x))
  }

  ghost predicate SameRange(s: State, s2: State, from: nat, lo: int, hi: int) {
    forall x {:trigger SameWord(s, s2, from, x)} :: lo <= x < hi ==> SameWord(s, s2, from, x)
  }

  lemma RangeStays(s: State, s2: State, from: nat, o: Origin, d: int, lo: int, hi: int)
    requires ForwardingStays(s, s2, from) && RangeMirrors(s, from, o.m, d, lo, hi) && 0 <= lo && hi <= |s.m|
    requires SameRange(s, s2, from, lo, hi)
    ensures RangeMirrors(s2, from, o.m, d, lo, hi)
  {
    hide WordMirrors;
    forall x {:trigger WordMirrors(s2, from, o.m, d, x)} | lo <= x < hi ensures WordMirrors(s2, from, o.m, d, x) {
      assert SameWord(s, s2, from, x);
      MirrorStays(s, s2, from, o, d, x);
    }
  }

  /** A copy that keeps its words still mirrors the original. */
  lemma CopyStays(s: State, s2: State, from: nat, o: Origin, a: int)
    requires ForwardingStays(s, s2, from) && a in o.objs && 0 <= a && a + 1 < |s.m| && CopyMirrors(s, from, o, a)
    requires var b := Target(s.m[a + 1]);
      b in s2.objs && s2.objs[b] == s.objs[b] && SameRange(s, s2, from, b, s.objs[b]) &&
          (UnboxedAt(s2, b) <==> UnboxedAt(s, b))
    requires s2.m[a + 1] == s.m[a + 1] && (Refers(s2.t, from, s.m[a + 1]) ==> Refers(s.t, from, s.m[a + 1]))
    ensures CopyMirrors(s2, from, o, a)
  {
    hide OldObject, RangeMirrors;
    var b := Target(s.m[a + 1]);
    RangeStays(s, s2, from, o, a - b, b, s.objs[b]);
  }

  // ---------- Copying ----------

  lemma CopiedForwarding(s: State, s2: State, recording: Recording, from: nat, shapes: map<int, Shape>, a: int, b: int,
        n: int, kind: bool)
    requires InvOk(s, from, shapes) && CopiedTo(s, s2, recording, a, b, n, kind) && n > 0
    ensures ForwardingStays(s, s2, from)
  {
    hide ObjectsOk, SlackZero, RawOk, RawApart, NewWordOk, Recorded, Evolves;
    forall c {:trigger OldObject(s, from, c)} | OldObject(s, from, c) && Moved(s, c)
      ensures OldObject(s2, from, c) && Moved(s2, c) && (c + 1 < |s.m| ==> s2.m[c + 1] == s.m[c + 1])
    {
      CopiedOldObject(s, s2, recording, from, shapes, a, b, n, kind, c);
      assert OldObjectOk(s, from, shapes, c);
      OldNotBoxed(s, from, shapes, c, c + 1);
    }
  }

  /** The words of an object are in use. */
  lemma ObjectInUse(s: State, c: int)
    requires ObjectsOk(s.t, s.objs) && c in s.objs && s.t.Valid() && |s.m| == (|s.t.ps| - 1) * PAGE
    ensures forall x {:trigger s.t.InUse(x)} :: c <= x < s.objs[c] ==> s.t.InUse(x)
    ensures 0 <= c < s.objs[c] <= |s.m|
  {
    assert ObjectOk(s.t, c, s.objs[c]);
    assert s.t.InUse(s.objs[c] - 1);
  }

  lemma CopiedRange(s: State, s2: State, recording: Recording, from: nat, a: int, b: int, n: int, kind: bool, c: int)
    requires CopiedTo(s, s2, recording, a, b, n, kind) && ObjectsOk(s.t, s.objs) && c in s.objs && s.t.Valid()
    requires |s.m| == (|s.t.ps| - 1) * PAGE
    ensures SameRange(s, s2, from, c, s.objs[c])
  {
    hide ObjectsOk, Recorded, Evolves, Fresh, Gains, Boxed;
    ObjectInUse(s, c);
    forall x {:trigger SameWord(s, s2, from, x)} | c <= x < s.objs[c] ensures SameWord(s, s2, from, x) {
      assert s.t.InUse(x);
      EvolvedBoxed(s.t, s2.t, from, x);
    }
  }

  lemma CopiedKind(s: State, s2: State, recording: Recording, a: int, b: int, n: int, kind: bool, c: int)
    requires CopiedTo(s, s2, recording, a, b, n, kind) && ObjectsOk(s.t, s.objs) && c in s.objs
    ensures UnboxedAt(s2, c) <==> UnboxedAt(s, c)
  {
    hide Recorded, Fresh, Gains, AloneOk, Headed;
    assert ObjectOk(s.t, c, s.objs[c]);
    assert s.t.InUse(c);
    assert SamePage(s.t, s2.t, c);
  }

  lemma CopiedObject(s: State, s2: State, recording: Recording, from: nat, shapes: map<int, Shape>, a: int, b: int,
        n: int, kind: bool,
                     o: Origin, c: int)
    requires InvOk(s, from, shapes) && CopiedTo(s, s2, recording, a, b, n, kind) && n > 0
    requires ObjectMirrors(s, from, o, c)
    ensures ObjectMirrors(s2, from, o, c)
  {
    hide ObjectsOk, SlackZero, RawOk, RawApart, NewWordOk, OldObjectOk, Recorded, Evolves, RangeMirrors, OldObject,
      Refers;
    CopiedOldObject(s, s2, recording, from, shapes, a, b, n, kind, c);
    if c in o.objs {
      CopiedForwarding(s, s2, recording, from, shapes, a, b, n, kind);
      ObjectInUse(s, c);
      if OldObject(s, from, c) && Moved(s, c) && o.m[c] != FORWARDED {
        var d := Target(s.m[c + 1]);
        ObjectInUse(s, d);
        if Refers(s2.t, from, s.m[c + 1]) {
          EvolvedRefers(s.t, s2.t, from, s.m[c + 1]);
        }
        CopiedRange(s, s2, recording, from, a, b, n, kind, d);
        CopiedKind(s, s2, recording, a, b, n, kind, d);
        CopyStays(s, s2, from, o, c);
      } else if !OldObject(s, from, c) {
        CopiedRange(s, s2, recording, from, a, b, n, kind, c);
        CopiedKind(s, s2, recording, a, b, n, kind, c);
        RangeStays(s, s2, from, o, 0, c, o.objs[c]);
      }
    }
  }

  /** Copying changes nothing about what mirrors the beginning, and nothing refers to the copy yet. */
  lemma CopiedMirrors(s: State, s2: State, recording: Recording, from: nat, shapes: map<int, Shape>, a: int, b: int,
        n: int, kind: bool, o: Origin)
    requires InvOk(s, from, shapes) && CopiedTo(s, s2, recording, a, b, n, kind) && n > 0 && Mirrors(s, from, o)
    ensures Mirrors(s2, from, o) && b !in o.objs
    ensures forall c {:trigger MovedSince(s2, from, o, c)} :: MovedSince(s2, from, o, c) ==> Target(s2.m[c + 1]) != b
  {
    hide InvOk, ObjectMirrors, CopiedTo;
    assert |s2.m| == |s.m| by {
      CopiedForwarding(s, s2, recording, from, shapes, a, b, n, kind);
    }
    forall c ensures ObjectMirrors(s2, from, o, c) {
      assert ObjectMirrors(s, from, o, c);
      CopiedObject(s, s2, recording, from, shapes, a, b, n, kind, o, c);
    }
    forall c {:trigger MovedSince(s2, from, o, c)} | MovedSince(s2, from, o, c)
      ensures MovedSince(s, from, o, c) && s2.m[c + 1] == s.m[c + 1] && Target(s2.m[c + 1]) != b
    {
      CopiedMoved(s, s2, recording, from, shapes, a, b, n, kind, o, c);
    }
    CopyIsNew(s, s2, recording, a, b, n, kind);
    assert ObjectMirrors(s, from, o, b);
    MirrorsOld(s, from, o, b);
  }

  lemma CopyIsNew(s: State, s2: State, recording: Recording, a: int, b: int, n: int, kind: bool)
    requires CopiedTo(s, s2, recording, a, b, n, kind)
    ensures b !in s.objs
  {
  }

  lemma MirrorsOld(s: State, from: nat, o: Origin, a: int)
    requires ObjectMirrors(s, from, o, a)
    ensures (a in o.objs ==> a in s.objs) && (OldObject(s, from, a) ==> a in o.objs)
  {
  }

  lemma CopiedMoved(s: State, s2: State, recording: Recording, from: nat, shapes: map<int, Shape>, a: int, b: int,
        n: int, kind: bool, o: Origin, c: int)
    requires InvOk(s, from, shapes) && CopiedTo(s, s2, recording, a, b, n, kind) && n > 0 && Mirrors(s, from, o)
    requires MovedSince(s2, from, o, c)
    ensures MovedSince(s, from, o, c) && s2.m[c + 1] == s.m[c + 1] && Target(s2.m[c + 1]) != b
  {
    hide ObjectsOk, SlackZero, RawOk, RawApart, NewWordOk, Recorded, Evolves;
    CopiedOldObject(s, s2, recording, from, shapes, a, b, n, kind, c);
    CopiedForwarding(s, s2, recording, from, shapes, a, b, n, kind);
    assert ObjectMirrors(s, from, o, c);
  }

  // ---------- Forwarding ----------

  /** What has been copied to b is what was at a in the beginning, and nothing else has gone there. */
  ghost predicate CopyReady(s: State, from: nat, o: Origin, a: int, b: int) {
    && a in s.objs && b in s.objs && b !in o.objs && s.objs[b] - b == s.objs[a] - a
    && 0 <= a && s.objs[a] <= |s.m| && 0 <= b && s.objs[b] <= |s.m| && (UnboxedAt(s, b) <==> a in o.unboxed)
    && (forall x {:trigger s.m[x]} :: b <= x < s.objs[b] ==> s.m[x] == s.m[a + x - b])
    && (forall c {:trigger MovedSince(s, from, o, c)} :: MovedSince(s, from, o, c) ==> Target(s.m[c + 1]) != b)
  }

  lemma ForwardStays(s: State, s2: State, from: nat, shapes: map<int, Shape>, a: int, p: int)
    requires InvOk(s, from, shapes) && OldObject(s, from, a) && a + 1 < s.objs[a] && !Moved(s, a)
    requires Forwards(s, s2, a, p)
    ensures ForwardingStays(s, s2, from)
    ensures forall c, x {:trigger c in s.objs, s2.m[x]} ::
      c in s.objs && c != a && c <= x < s.objs[c] && 0 <= x < |s.m| ==> s2.m[x] == s.m[x]
  {
    hide SlackZero, RawOk, RawApart, NewWordOk, AloneOk, Headed, ObjectOk;
    forall c {:trigger OldObject(s, from, c)} | OldObject(s, from, c) && Moved(s, c)
      ensures OldObject(s2, from, c) && Moved(s2, c) && (c + 1 < |s.m| ==> s2.m[c + 1] == s.m[c + 1])
    {
      assert OldObjectOk(s, from, shapes, c);
      assert c < a ==> s.objs[c] <= a;
      assert a < c ==> s.objs[a] <= c;
    }
    forall c, x {:trigger c in s.objs, s2.m[x]} | c in s.objs && c != a && c <= x < s.objs[c] && 0 <= x < |s.m|
      ensures s2.m[x] == s.m[x]
    {
      assert c < a ==> s.objs[c] <= a;
      assert a < c ==> s.objs[a] <= c;
    }
  }

  lemma ForwardObject(s: State, s2: State, from: nat, shapes: map<int, Shape>, a: int, p: int, o: Origin, c: int)
    requires InvOk(s, from, shapes) && OldObject(s, from, a) && a + 1 < s.objs[a] && !Moved(s, a)
    requires Forwards(s, s2, a, p)
    requires Pointerp(p) && WordOk(s, p) && !Refers(s.t, from, p) && CopyReady(s, from, o, a, Target(p))
    requires ObjectMirrors(s, from, o, c) && a in o.objs
    ensures ObjectMirrors(s2, from, o, c)
  {
    hide InvOk, RangeMirrors;
    ForwardStays(s, s2, from, shapes, a, p);
    if c in o.objs && c != a {
      if OldObject(s, from, c) && Moved(s, c) && o.m[c] != FORWARDED {
        ForwardCopy(s, s2, from, o, a, c, p);
      } else if !OldObject(s, from, c) {
        RangeStays(s, s2, from, o, 0, c, o.objs[c]);
      }
    } else if c == a {
      ForwardedNow(s, s2, from, o, a, p);
    }
  }

  lemma ForwardCopy(s: State, s2: State, from: nat, o: Origin, a: int, c: int, p: int)
    requires ForwardingStays(s, s2, from) && s2.t == s.t && s2.objs == s.objs && a in o.objs
    requires forall d, x {:trigger d in s.objs, s2.m[x]} ::
      d in s.objs && d != a && d <= x < s.objs[d] && 0 <= x < |s.m| ==> s2.m[x] == s.m[x]
    requires c in o.objs && 0 <= c && c + 1 < |s.m| && s2.m[c + 1] == s.m[c + 1] && CopyMirrors(s, from, o, c)
    ensures CopyMirrors(s2, from, o, c)
  {
    hide RangeMirrors;
    CopyStays(s, s2, from, o, c);
  }

  lemma ForwardedNow(s: State, s2: State, from: nat, o: Origin, a: int, p: int)
    requires ObjectMirrors(s, from, o, a) && OldObject(s, from, a) && !Moved(s, a) && a + 1 < s.objs[a]
    requires Forwards(s, s2, a, p)
    requires Pointerp(p) && WordOk(s, p) && !Refers(s.t, from, p) && CopyReady(s, from, o, a, Target(p))
    requires forall d, x {:trigger d in s.objs, s2.m[x]} ::
      d in s.objs && d != a && d <= x < s.objs[d] && 0 <= x < |s.m| ==> s2.m[x] == s.m[x]
    ensures ObjectMirrors(s2, from, o, a)
  {
    var b := Target(p);
    ForwardedCopy(s, s2, from, o, a, b);
  }

  lemma ForwardedCopy(s: State, s2: State, from: nat, o: Origin, a: int, b: int)
    requires CopyReady(s, from, o, a, b) && a in o.objs && o.objs[a] == s.objs[a] && |s2.m| == |s.m| == |o.m|
    requires s2.objs == s.objs
    requires forall x {:trigger s.m[x]} :: a <= x < o.objs[a] ==> s.m[x] == o.m[x]
    requires forall x {:trigger s2.m[x]} :: b <= x < s.objs[b] ==> s2.m[x] == s.m[x]
    ensures RangeMirrors(s2, from, o.m, a - b, b, s2.objs[b])
  {
    forall x {:trigger WordMirrors(s2, from, o.m, a - b, x)} | b <= x < s2.objs[b]
      ensures WordMirrors(s2, from, o.m, a - b, x)
    {
      var y := a + x - b;
      assert s2.m[x] == s.m[x] == s.m[y] == o.m[y];
      assert x + (a - b) == y;
    }
  }

  lemma ForwardMirrors(s: State, s2: State, from: nat, shapes: map<int, Shape>, a: int, p: int, o: Origin)
    requires InvOk(s, from, shapes) && OldObject(s, from, a) && a + 1 < s.objs[a] && !Moved(s, a)
    requires Forwards(s, s2, a, p)
    requires Pointerp(p) && WordOk(s, p) && !Refers(s.t, from, p) && CopyReady(s, from, o, a, Target(p))
    requires Mirrors(s, from, o)
    ensures Mirrors(s2, from, o)
  {
    hide InvOk, ObjectMirrors;
    assert ObjectMirrors(s, from, o, a);
    MirrorsOld(s, from, o, a);
    forall c ensures ObjectMirrors(s2, from, o, c) {
      assert ObjectMirrors(s, from, o, c);
      ForwardObject(s, s2, from, shapes, a, p, o, c);
    }
    forall c {:trigger MovedSince(s2, from, o, c)} | MovedSince(s2, from, o, c) && c != a
      ensures MovedSince(s, from, o, c) && s2.m[c + 1] == s.m[c + 1]
    {
      ForwardMoved(s, s2, from, shapes, a, p, o, c);
    }
  }

  lemma ForwardMoved(s: State, s2: State, from: nat, shapes: map<int, Shape>, a: int, p: int, o: Origin, c: int)
    requires InvOk(s, from, shapes) && OldObject(s, from, a) && a + 1 < s.objs[a] && !Moved(s, a)
    requires Forwards(s, s2, a, p)
    requires MovedSince(s2, from, o, c) && c != a && |o.m| == |s.m|
    ensures MovedSince(s, from, o, c) && s2.m[c + 1] == s.m[c + 1]
  {
    hide SlackZero, RawOk, RawApart, NewWordOk, AloneOk, Headed, ObjectOk;
    assert OldObjectOk(s, from, shapes, c);
    assert c < a ==> s.objs[c] <= a;
    assert a < c ==> s.objs[a] <= c;
  }

  // ---------- Updating, promoting, flushing ----------

  /** Word y has become what the forwarding pointer of the object says that it referred to. */
  ghost predicate Follows(s: State, s2: State, from: nat, y: int, w: int) {
    Updates(s, s2, from, y, w) && Gone(s, from, s.m[y], w)
  }

  lemma UpdateStays(s: State, s2: State, from: nat, shapes: map<int, Shape>, y: int, w: int)
    requires InvOk(s, from, shapes) && Follows(s, s2, from, y, w)
    ensures ForwardingStays(s, s2, from)
    ensures forall c {:trigger OldObject(s, from, c)} :: OldObject(s, from, c) ==> !(c <= y < s.objs[c])
  {
    hide InvOk, Boxed, Refers;
    forall c {:trigger OldObject(s, from, c)} | OldObject(s, from, c)
      ensures !(c <= y < s.objs[c]) && (Moved(s, c) ==> Moved(s2, c) && (c + 1 < |s.m| ==> s2.m[c + 1] == s.m[c + 1]))
    {
      if c <= y < s.objs[c] {
        OldNotBoxed(s, from, shapes, c, y);
      }
      OldSize(s, from, shapes, c);
    }
  }

  lemma OldSize(s: State, from: nat, shapes: map<int, Shape>, c: int)
    requires InvOk(s, from, shapes) && OldObject(s, from, c)
    ensures 0 <= c && c + 1 < s.objs[c] <= |s.m|
  {
    assert OldObjectOk(s, from, shapes, c);
  }

  /** A word that still refers to the old space is the one of the beginning. */
  lemma UpdatedMirrors(s: State, s2: State, from: nat, shapes: map<int, Shape>, y: int, w: int, o: Origin, d: int,
        x: int)
    requires InvOk(s, from, shapes) && Follows(s, s2, from, y, w) && WordMirrors(s, from, o.m, d, x)
    ensures WordMirrors(s2, from, o.m, d, x)
  {
    UpdateStays(s, s2, from, shapes, y, w);
    if x == y {
      UpdatedWordMirrors(s, s2, from, shapes, y, w, o, d);
    } else {
      hide InvOk, WordMirrors, Boxed, Refers;
      assert s2.m[x] == s.m[x] by {
        InRange(s, from, o, d, x);
      }
      MirrorStays(s, s2, from, o, d, x);
    }
  }

  lemma InRange(s: State, from: nat, o: Origin, d: int, x: int)
    requires WordMirrors(s, from, o.m, d, x)
    ensures 0 <= x < |s.m|
  {
  }

  lemma UpdatedWordMirrors(s: State, s2: State, from: nat, shapes: map<int, Shape>, y: int, w: int, o: Origin, d: int)
    requires InvOk(s, from, shapes) && Follows(s, s2, from, y, w) && WordMirrors(s, from, o.m, d, y)
    requires ForwardingStays(s, s2, from)
    ensures WordMirrors(s2, from, o.m, d, y)
  {
    hide ObjectsOk, SlackZero, RawOk, RawApart, NewWordOk, Unprotected;
    var w0 := o.m[y + d];
    assert OldObjectOk(s, from, shapes, Target(w0));
    assert s.m[y] == w0;
  }

  lemma RangeUpdated(s: State, s2: State, from: nat, shapes: map<int, Shape>, y: int, w: int, o: Origin, d: int,
        lo: int, hi: int)
    requires InvOk(s, from, shapes) && Follows(s, s2, from, y, w) && RangeMirrors(s, from, o.m, d, lo, hi)
    ensures RangeMirrors(s2, from, o.m, d, lo, hi)
  {
    hide InvOk, WordMirrors, Follows;
    forall x {:trigger WordMirrors(s2, from, o.m, d, x)} | lo <= x < hi ensures WordMirrors(s2, from, o.m, d, x) {
      UpdatedMirrors(s, s2, from, shapes, y, w, o, d, x);
    }
  }

  lemma UpdateObject(s: State, s2: State, from: nat, shapes: map<int, Shape>, y: int, w: int, o: Origin, c: int)
    requires InvOk(s, from, shapes) && Follows(s, s2, from, y, w) && ObjectMirrors(s, from, o, c)
    ensures ObjectMirrors(s2, from, o, c)
  {
    hide InvOk, RangeMirrors, Boxed;
    UpdateStays(s, s2, from, shapes, y, w);
    if c in o.objs {
      if OldObject(s, from, c) && Moved(s, c) {
        OldSize(s, from, shapes, c);
        if o.m[c] != FORWARDED {
          var b := Target(s.m[c + 1]);
          RangeUpdated(s, s2, from, shapes, y, w, o, c - b, b, s.objs[b]);
        }
      } else if !OldObject(s, from, c) {
        RangeUpdated(s, s2, from, shapes, y, w, o, 0, c, o.objs[c]);
      }
    }
  }

  lemma UpdateMirrors(s: State, s2: State, from: nat, shapes: map<int, Shape>, y: int, w: int, o: Origin)
    requires InvOk(s, from, shapes) && Follows(s, s2, from, y, w) && Mirrors(s, from, o)
    ensures Mirrors(s2, from, o)
  {
    hide InvOk, ObjectMirrors;
    forall c ensures ObjectMirrors(s2, from, o, c) {
      assert ObjectMirrors(s, from, o, c);
      UpdateObject(s, s2, from, shapes, y, w, o, c);
    }
    UpdateStays(s, s2, from, shapes, y, w);
    forall c {:trigger MovedSince(s2, from, o, c)} | MovedSince(s2, from, o, c)
      ensures MovedSince(s, from, o, c) && s2.m[c + 1] == s.m[c + 1]
    {
      OldSize(s, from, shapes, c);
    }
  }

  lemma PromotedMirrors(s: State, s2: State, recording: Recording, from: nat, shapes: map<int, Shape>, a: int,
        last: int, n: int, kind: bool, o: Origin)
    requires InvOk(s, from, shapes) && PromotedTo(s, s2, recording, from, a, last, n, kind) && OldObject(s, from, a)
    requires !Moved(s, a) && a in shapes && shapes[a].unboxed == kind
    requires Mirrors(s, from, o) && (kind <==> a in o.unboxed)
    ensures Mirrors(s2, from, o)
  {
    hide InvOk, PromotedTo, OldObject, Refers, StaysKind;
    assert ObjectMirrors(s, from, o, a);
    forall c {:trigger StaysKind(s, s2, from, o, c)} | c in s.objs ensures StaysKind(s, s2, from, o, c) {
      PromotedKind(s, s2, recording, from, shapes, a, last, n, kind, o, c);
    }
    forall c ensures OldObject(s2, from, c) <==> OldObject(s, from, c) && c != a {
      InObjs(s, from, a);
      PromotedOldObject(s, s2, recording, from, shapes, a, last, n, kind, c);
    }
    PromotedSame(s, s2, recording, from, a, last, n, kind);
    NewGeneration(s, from, shapes);
    forall w: int ensures Refers(s2.t, from, w) ==> Refers(s.t, from, w) {
      PromotedRefers(s, s2, recording, from, a, last, n, kind, w);
    }
    PromotedParts(s, from, shapes);
    forall x {:trigger Boxed(s2.t, from, x)} | Boxed(s.t, from, x) ensures Boxed(s2.t, from, x) {
      PromotedWord(s, s2, recording, from, a, last, n, kind, x);
    }
    StayingMirrors(s, s2, from, o);
  }

  lemma PromotedKind(s: State, s2: State, recording: Recording, from: nat, shapes: map<int, Shape>, a: int, last: int,
        n: int, kind: bool,
                     o: Origin, c: int)
    requires InvOk(s, from, shapes) && PromotedTo(s, s2, recording, from, a, last, n, kind) && OldObject(s, from, a)
    requires !Moved(s, a) && a in shapes && shapes[a].unboxed == kind
    requires (kind <==> a in o.unboxed) && c in s.objs && a in o.objs
    ensures StaysKind(s, s2, from, o, c)
  {
    hide SlackZero, RawOk, RawApart, Unprotected, NewWordOk, ObjectsOk, Records;
    assert OldObjectOk(s, from, shapes, a);
    hide OldObjectOk;
    PromotedOldObject(s, s2, recording, from, shapes, a, last, n, kind, c);
    var first, i := a / PAGE, c / PAGE;
    if 0 <= i < |s.t.ps| {
      assert s2.t.ps[i] == ResizedPage(s.t.ps[i], i, first, last, a + n, s.t.gen, kind);
      if c != a {
        LargeAlone(s.t, from, first, last, s.objs, c);
        ObjectNotEmpty(s.t, s.objs, c);
      }
    }
  }

  lemma NewGeneration(s: State, from: nat, shapes: map<int, Shape>)
    requires InvOk(s, from, shapes)
    ensures from != s.t.gen
  {
  }

  lemma PromotedSame(s: State, s2: State, recording: Recording, from: nat, a: int, last: int, n: int, kind: bool)
    requires PromotedTo(s, s2, recording, from, a, last, n, kind)
    ensures s2.m == s.m && s2.objs == s.objs && s2.raw == s.raw
  {
  }

  /** Object c is on pages of the same kind, or if it has left the old space, on pages of its own kind. */
  predicate StaysKind(s: State, s2: State, from: nat, o: Origin, c: int) {
    if c in o.objs && OldObject(s, from, c) && !OldObject(s2, from, c) then UnboxedAt(s2, c) <==> c in o.unboxed
    else UnboxedAt(s2, c) <==> UnboxedAt(s, c)
  }

  /** If no word changes and no forwarded object stops being old, everything mirrors the beginning as before. */
  lemma StayingMirrors(s: State, s2: State, from: nat, o: Origin)
    requires s2.m == s.m && s2.objs == s.objs && s2.raw == s.raw && Mirrors(s, from, o)
    requires forall c {:trigger OldObject(s, from, c)} {:trigger OldObject(s2, from, c)} ::
      OldObject(s2, from, c) ==> OldObject(s, from, c)
    requires forall c {:trigger OldObject(s, from, c)} {:trigger OldObject(s2, from, c)} ::
      OldObject(s, from, c) && Moved(s, c) ==> OldObject(s2, from, c)
    requires forall w: int :: Refers(s2.t, from, w) ==> Refers(s.t, from, w)
    requires forall x {:trigger Boxed(s2.t, from, x)} :: Boxed(s.t, from, x) ==> Boxed(s2.t, from, x)
    requires forall c {:trigger StaysKind(s, s2, from, o, c)} :: c in s.objs ==> StaysKind(s, s2, from, o, c)
    ensures Mirrors(s2, from, o)
  {
    hide OldObject, Refers, Boxed;
    forall c ensures ObjectMirrors(s2, from, o, c) {
      assert ObjectMirrors(s, from, o, c);
      StayingObject(s, s2, from, o, c);
    }
    forall c {:trigger MovedSince(s2, from, o, c)} | MovedSince(s2, from, o, c) ensures MovedSince(s, from, o, c) {
    }
  }

  lemma StayingObject(s: State, s2: State, from: nat, o: Origin, c: int)
    requires s2.m == s.m && s2.objs == s.objs && s2.raw == s.raw && ObjectMirrors(s, from, o, c)
    requires forall c {:trigger OldObject(s, from, c)} {:trigger OldObject(s2, from, c)} ::
      OldObject(s2, from, c) ==> OldObject(s, from, c)
    requires forall c {:trigger OldObject(s, from, c)} {:trigger OldObject(s2, from, c)} ::
      OldObject(s, from, c) && Moved(s, c) ==> OldObject(s2, from, c)
    requires forall w: int :: Refers(s2.t, from, w) ==> Refers(s.t, from, w)
    requires forall x {:trigger Boxed(s2.t, from, x)} :: Boxed(s.t, from, x) ==> Boxed(s2.t, from, x)
    requires forall c {:trigger StaysKind(s, s2, from, o, c)} :: c in s.objs ==> StaysKind(s, s2, from, o, c)
    ensures ObjectMirrors(s2, from, o, c)
  {
    hide OldObject, Refers, RangeMirrors, Boxed;
    assert ForwardingStays(s, s2, from);
    if c in o.objs {
      assert StaysKind(s, s2, from, o, c);
      if OldObject(s, from, c) && Moved(s, c) && o.m[c] != FORWARDED {
        assert StaysKind(s, s2, from, o, Target(s.m[c + 1]));
        CopyStays(s, s2, from, o, c);
      } else if !OldObject(s, from, c) {
        RangeStays(s, s2, from, o, 0, c, o.objs[c]);
      } else if !OldObject(s2, from, c) {
        SameMirrors(s2, from, o, c, o.objs[c]);
      }
    }
  }

  lemma SameMirrors(s: State, from: nat, o: Origin, lo: int, hi: int)
    requires 0 <= lo && hi <= |s.m| == |o.m| && forall x {:trigger s.m[x]} :: lo <= x < hi ==> s.m[x] == o.m[x]
    ensures RangeMirrors(s, from, o.m, 0, lo, hi)
  {
  }

  lemma FlushedMirrors(s: State, s2: State, from: nat, shapes: map<int, Shape>, o: Origin)
    requires InvOk(s, from, shapes) && s2 == s.(t := s2.t, areas := s2.areas) && Evolves(s.t, s2.t)
    requires Mirrors(s, from, o)
    ensures Mirrors(s2, from, o)
  {
    hide InvOk, Evolves, Refers, OldObject;
    forall c ensures OldObject(s2, from, c) <==> OldObject(s, from, c) {
      FlushedOld(s, s2, from, shapes, c);
    }
    NewGeneration(s, from, shapes);
    forall w: int ensures Refers(s2.t, from, w) ==> Refers(s.t, from, w) {
      if Refers(s2.t, from, w) {
        EvolvedRefers(s.t, s2.t, from, w);
      }
    }
    forall x {:trigger Boxed(s2.t, from, x)} | Boxed(s.t, from, x) ensures Boxed(s2.t, from, x) {
      EvolvedBoxed(s.t, s2.t, from, x);
    }
    forall c {:trigger StaysKind(s, s2, from, o, c)} | c in s.objs ensures StaysKind(s, s2, from, o, c) {
      FlushedKind(s, s2, from, shapes, o, c);
    }
    StayingMirrors(s, s2, from, o);
  }

  lemma FlushedKind(s: State, s2: State, from: nat, shapes: map<int, Shape>, o: Origin, c: int)
    requires InvOk(s, from, shapes) && s2 == s.(t := s2.t, areas := s2.areas) && Evolves(s.t, s2.t) && c in s.objs
    ensures StaysKind(s, s2, from, o, c)
  {
    hide SlackZero, RawOk, RawApart, NewWordOk, OldObjectOk, Evolves;
    FlushedOld(s, s2, from, shapes, c);
    assert ObjectOk(s.t, c, s.objs[c]);
    ObjectStart(s.t, c, s.objs[c]);
    assert s.t.InUse(c);
    EvolvedBoxed(s.t, s2.t, from, c);
    EvolvedLength(s.t, s2.t);
  }

  lemma FlushedOld(s: State, s2: State, from: nat, shapes: map<int, Shape>, c: int)
    requires InvOk(s, from, shapes) && s2 == s.(t := s2.t, areas := s2.areas) && Evolves(s.t, s2.t)
    ensures OldObject(s2, from, c) <==> OldObject(s, from, c)
  {
    hide SlackZero, RawOk, RawApart, NewWordOk, OldObjectOk, Evolves;
    if c in s.objs {
      assert ObjectOk(s.t, c, s.objs[c]);
      ObjectStart(s.t, c, s.objs[c]);
      assert s.t.InUse(c);
      EvolvedBoxed(s.t, s2.t, from, c);
      EvolvedLength(s.t, s2.t);
    }
  }

  lemma EvolvedLength(t: Table, t2: Table)
    requires Evolves(t, t2)
    ensures |t2.ps| == |t.ps|
  {
  }

  // ---------- What only grows ----------

  lemma InvParts(s: State, from: nat, shapes: map<int, Shape>)
    requires InvOk(s, from, shapes)
    ensures s.t.Valid() && ObjectsOk(s.t, s.objs) && |s.m| == (|s.t.ps| - 1) * PAGE && from != s.t.gen
  {
  }

  /** A page in use that belongs neither to the old nor to the new space. */
  predicate UsedElsewhere(p: Page, from: nat, to: nat) {
    p.alloc && p.used != 0 && p.gen != from && p.gen != to
  }

  /** Forwarding pointers and objects stay, no word comes to refer to the old space, and pages that belong neither to it
      nor to the new space change in nothing but write protection. */
  ghost predicate Forth(s: State, s2: State, from: nat) {
    && ForwardingStays(s, s2, from) && |s2.t.ps| == |s.t.ps| && s2.t.gen == s.t.gen
    && (forall a {:trigger a in s2.objs} {:trigger a in s.objs} :: a in s.objs ==> a in s2.objs)
    && (forall w: int {:trigger Refers(s2.t, from, w)} :: Refers(s2.t, from, w) ==> Refers(s.t, from, w))
    && (forall i {:trigger s2.t.ps[i]} :: 0 <= i < |s.t.ps| && s2.t.ps[i].gen != from && s2.t.ps[i].gen != s.t.gen ==>
          s2.t.ps[i] == s.t.ps[i].(wp := s2.t.ps[i].wp))
    && (forall i {:trigger s2.t.ps[i]} :: 0 <= i < |s.t.ps| && UsedElsewhere(s.t.ps[i], from, s.t.gen) ==>
          s2.t.ps[i] == s.t.ps[i].(wp := s2.t.ps[i].wp))
    && SameRaw(s, s2)
  }

  /** The same objects are raw. */
  ghost predicate SameRaw(s: State, s2: State) {
    && s2.raw == s.raw
    && (forall a {:trigger a in s2.objs} {:trigger a in s.objs} :: a in s.raw ==>
          (a in s2.objs <==> a in s.objs) && (a in s.objs ==> s2.objs[a] == s.objs[a]))
  }

  lemma OnwardRaw(s: State, s2: State, from: nat)
    requires Onward(s, s2, from)
    ensures SameRaw(s, s2)
  {
  }

  /** Besides, whatever has come into use is paid for by objects that have been forwarded. */
  ghost predicate Onward(s: State, s2: State, from: nat) {
    Forth(s, s2, from) && Weight(s2, from) <= Weight(s, from)
  }

  lemma OnwardTwice(s: State, s1: State, s2: State, from: nat)
    requires Onward(s, s1, from) && Onward(s1, s2, from)
    ensures Onward(s, s2, from)
  {
    hide Weight;
    ForthTwice(s, s1, s2, from);
  }

  lemma ForthTwice(s: State, s1: State, s2: State, from: nat)
    requires Forth(s, s1, from) && Forth(s1, s2, from)
    ensures Forth(s, s2, from)
  {
    hide OldObject, Refers;
    forall a {:trigger OldObject(s, from, a)} | OldObject(s, from, a) && Moved(s, a)
      ensures OldObject(s2, from, a) && Moved(s2, a) && (a + 1 < |s.m| ==> s2.m[a + 1] == s.m[a + 1])
    {
      assert OldObject(s1, from, a);
    }
    forall w: int {:trigger Refers(s2.t, from, w)} | Refers(s2.t, from, w) ensures Refers(s.t, from, w) {
      assert Refers(s1.t, from, w);
    }
  }

  /** Nothing has happened, or only in what is recorded. */
  lemma OnwardSame(s: State, s2: State, from: nat)
    requires s2.t == s.t && s2.objs == s.objs && s2.m == s.m && s2.raw == s.raw
    ensures Onward(s, s2, from)
  {
    forall a ensures OldObject(s2, from, a) <==> OldObject(s, from, a) {
    }
    SameWeight(s, s2, from);
  }

  lemma CopiedForth(s: State, s2: State, recording: Recording, from: nat, shapes: map<int, Shape>, a: int, b: int,
        n: int, kind: bool)
    requires InvOk(s, from, shapes) && CopiedTo(s, s2, recording, a, b, n, kind) && n > 0
    ensures Forth(s, s2, from)
  {
    CopiedForwarding(s, s2, recording, from, shapes, a, b, n, kind);
    InvParts(s, from, shapes);
    hide InvOk, ForwardingStays, Refers, Recorded, Fresh, Gains, ObjectsOk, Evolves;
    NewGeneration(s, from, shapes);
    EvolvedPages(s.t, s2.t, from);
    CopiedNotRaw(s, s2, recording, from, shapes, a, b, n, kind);
    forall w: int {:trigger Refers(s2.t, from, w)} | Refers(s2.t, from, w) ensures Refers(s.t, from, w) {
      EvolvedRefers(s.t, s2.t, from, w);
    }
    EvolvedLength(s.t, s2.t);
  }

  lemma CopiedNotRaw(s: State, s2: State, recording: Recording, from: nat, shapes: map<int, Shape>, a: int, b: int,
        n: int, kind: bool)
    requires InvOk(s, from, shapes) && CopiedTo(s, s2, recording, a, b, n, kind) && n > 0
    ensures SameRaw(s, s2)
  {
    hide ObjectsOk, RawOk, RawApart, SlackZero, NewWordOk, OldObjectOk, Evolves, Fresh, Gains, Recorded;
    CopiedRaw(s, s2, recording, a, b, n, kind);
  }

  lemma ForwardForth(s: State, s2: State, from: nat, shapes: map<int, Shape>, a: int, p: int)
    requires InvOk(s, from, shapes) && OldObject(s, from, a) && a + 1 < s.objs[a] && !Moved(s, a)
    requires Forwards(s, s2, a, p)
    ensures Forth(s, s2, from)
  {
    ForwardStays(s, s2, from, shapes, a, p);
  }

  lemma ForwardOnward(s: State, s2: State, from: nat, shapes: map<int, Shape>, a: int, p: int)
    requires InvOk(s, from, shapes) && OldObject(s, from, a) && a + 1 < s.objs[a] && !Moved(s, a)
    requires Forwards(s, s2, a, p)
    requires WordOk(s, p) && !Refers(s.t, from, p)
    ensures Onward(s, s2, from)
  {
    hide InvOk, Forwards, Weight, OldObject, Moved, Forth, Refers;
    ForwardForth(s, s2, from, shapes, a, p);
    ForwardWeight(s, s2, from, shapes, a, p);
  }

  /** An object has been copied and then forwarded. */
  lemma MovedOnward(s: State, s1: State, s2: State, recording: Recording, from: nat, shapes: map<int, Shape>, a: int,
        b: int, n: int,
                    kind: bool, p: int)
    requires InvOk(s, from, shapes) && CopiedTo(s, s1, recording, a, b, n, kind) && n > 0
    requires InvOk(s1, from, shapes) && OldObject(s1, from, a) && s1.objs[a] == a + n && a + 1 < s1.objs[a]
    requires !Moved(s1, a)
    requires Forwards(s1, s2, a, p) && WordOk(s1, p) && !Refers(s1.t, from, p)
    ensures Onward(s, s2, from)
  {
    hide InvOk, CopiedTo, Forwards, Weight, OldObject, Moved, Forth, Refers;
    CopiedForth(s, s1, recording, from, shapes, a, b, n, kind);
    CopiedWeight(s, s1, recording, from, shapes, a, b, n, kind);
    ForwardForth(s1, s2, from, shapes, a, p);
    ForwardWeight(s1, s2, from, shapes, a, p);
    ForthTwice(s, s1, s2, from);
  }

  lemma UpdateOnward(s: State, s2: State, from: nat, shapes: map<int, Shape>, y: int, w: int)
    requires InvOk(s, from, shapes) && Follows(s, s2, from, y, w)
    ensures Onward(s, s2, from)
  {
    hide InvOk, Boxed, Refers;
    UpdateStays(s, s2, from, shapes, y, w);
    forall c ensures OldObject(s2, from, c) <==> OldObject(s, from, c) {
    }
    SameWeight(s, s2, from);
  }

  lemma PromotedOld(s: State, s2: State, recording: Recording, from: nat, shapes: map<int, Shape>, a: int, last: int,
        n: int, kind: bool)
    requires InvOk(s, from, shapes) && PromotedTo(s, s2, recording, from, a, last, n, kind) && OldObject(s, from, a)
    requires !Moved(s, a)
    ensures forall c {:trigger OldObject(s, from, c)} :: OldObject(s2, from, c) <==> OldObject(s, from, c) && c != a
    ensures forall w: int {:trigger Refers(s2.t, from, w)} :: Refers(s2.t, from, w) ==> Refers(s.t, from, w)
    ensures s2.t.gen == s.t.gen && s2.m == s.m && s2.objs == s.objs && s2.raw == s.raw
  {
    PromotedGen(s, s2, recording, from, a, last, n, kind);
    PromotedSame(s, s2, recording, from, a, last, n, kind);
    hide InvOk, PromotedTo, OldObject, Refers;
    NewGeneration(s, from, shapes);
    InObjs(s, from, a);
    forall c {:trigger OldObject(s, from, c)} ensures OldObject(s2, from, c) <==> OldObject(s, from, c) && c != a {
      PromotedOldObject(s, s2, recording, from, shapes, a, last, n, kind, c);
    }
    forall w: int {:trigger Refers(s2.t, from, w)} | Refers(s2.t, from, w) ensures Refers(s.t, from, w) {
      PromotedRefers(s, s2, recording, from, a, last, n, kind, w);
    }
  }

  lemma PromotedOnward(s: State, s2: State, recording: Recording, from: nat, shapes: map<int, Shape>, a: int, last: int,
        n: int, kind: bool)
    requires InvOk(s, from, shapes) && PromotedTo(s, s2, recording, from, a, last, n, kind) && OldObject(s, from, a)
    requires !Moved(s, a)
    ensures Onward(s, s2, from)
  {
    hide InvOk, PromotedTo, OldObject, Refers;
    PromotedOld(s, s2, recording, from, shapes, a, last, n, kind);
    PromotedPages(s, s2, recording, from, a, last, n, kind);
    PromotedInUse(s, s2, recording, from, shapes, a, last, n, kind);
    SameWeight(s, s2, from);
  }

  lemma PromotedInUse(s: State, s2: State, recording: Recording, from: nat, shapes: map<int, Shape>, a: int, last: int,
        n: int, kind: bool)
    requires InvOk(s, from, shapes) && PromotedTo(s, s2, recording, from, a, last, n, kind)
    ensures forall x {:trigger s2.t.InUse(x)} :: s2.t.InUse(x) ==> s.t.InUse(x)
  {
    hide ObjectsOk, SlackZero, RawOk, RawApart, NewWordOk, OldObjectOk, LargeBlock, Resizes, Records, PageOk, RegionOk;
    forall x {:trigger s2.t.InUse(x)} ensures s2.t.InUse(x) ==> s.t.InUse(x) {
      ResizeInUse(s.t, s2.t, from, a / PAGE, last, n, s.t.gen, kind, x);
    }
  }

  lemma PromotedPages(s: State, s2: State, recording: Recording, from: nat, a: int, last: int, n: int, kind: bool)
    requires PromotedTo(s, s2, recording, from, a, last, n, kind)
    ensures |s2.t.ps| == |s.t.ps|
    ensures forall i {:trigger s2.t.ps[i]} ::
      0 <= i < |s.t.ps| && s2.t.ps[i].gen != from && s2.t.ps[i].gen != s.t.gen ==> s2.t.ps[i] == s.t.ps[i]
    ensures forall i {:trigger s2.t.ps[i]} ::
      0 <= i < |s.t.ps| && UsedElsewhere(s.t.ps[i], from, s.t.gen) ==> s2.t.ps[i] == s.t.ps[i]
  {
    assert forall i {:trigger s.t.ps[i]} :: a / PAGE <= i <= last ==> s.t.ps[i].gen == from;
  }

  lemma EvolvedUsed(t: Table, t2: Table, i: int)
    requires t.Valid() && Evolves(t, t2) && 0 <= i < |t.ps| && t.ps[i].alloc && t.ps[i].used != 0
    requires t.ps[i].gen != t.gen
    ensures |t2.ps| == |t.ps| && t2.ps[i] == t.ps[i]
  {
    assert PageOk(t.ps, i) && i * PAGE / PAGE == i;
    assert t.InUse(i * PAGE);
    assert SamePage(t, t2, i * PAGE);
  }

  lemma EvolvedPages(t: Table, t2: Table, from: nat)
    requires t.Valid() && Evolves(t, t2)
    ensures |t2.ps| == |t.ps| && t2.gen == t.gen
    ensures forall i {:trigger t2.ps[i]} ::
      0 <= i < |t.ps| && t2.ps[i].gen != from && t2.ps[i].gen != t.gen ==> t2.ps[i] == t.ps[i]
    ensures forall i {:trigger t2.ps[i]} ::
      0 <= i < |t.ps| && UsedElsewhere(t.ps[i], from, t.gen) ==> t2.ps[i] == t.ps[i]
  {
    forall i {:trigger t2.ps[i]} | 0 <= i < |t.ps| && UsedElsewhere(t.ps[i], from, t.gen) ensures t2.ps[i] == t.ps[i] {
      EvolvedUsed(t, t2, i);
    }
  }

  lemma FlushedOnward(s: State, s2: State, from: nat, shapes: map<int, Shape>)
    requires InvOk(s, from, shapes) && s2 == s.(t := s2.t, areas := s2.areas) && Evolves(s.t, s2.t)
    requires SameWords(s.t, s2.t)
    ensures Onward(s, s2, from)
  {
    InvParts(s, from, shapes);
    EvolvedPages(s.t, s2.t, from);
    hide InvOk, Refers, OldObject, Evolves;
    forall c ensures OldObject(s2, from, c) <==> OldObject(s, from, c) {
      FlushedOld(s, s2, from, shapes, c);
    }
    NewGeneration(s, from, shapes);
    forall w: int {:trigger Refers(s2.t, from, w)} | Refers(s2.t, from, w) ensures Refers(s.t, from, w) {
      EvolvedRefers(s.t, s2.t, from, w);
    }
    SameWeight(s, s2, from);
  }
}
