/** The account of words during a collection of a generation, src/lisp/gencgc.c: every copy is paid for by its original,
    which is freed at the end. */
module WordAccount {
  import opened PageTable
  import opened PageObjects
  import opened PageBlocks
  import opened PageGrowth
  import opened PageRuns
  import opened NewAreas
  import opened Newspace

  /** The words from lo up to hi. */
  function Span(lo: int, hi: int): set<int> {
    set x | lo <= x < hi && Between(lo, x, hi)
  }

  predicate Between(lo: int, x: int, hi: int) {
    lo <= x < hi
  }

  lemma {:induction false} SpanSize(lo: int, hi: int)
    requires lo <= hi
    ensures |Span(lo, hi)| == hi - lo
    decreases hi - lo
  {
    if lo < hi {
      SpanSize(lo, hi - 1);
      assert Span(lo, hi) == Span(lo, hi - 1) + {hi - 1};
    } else {
      assert Span(lo, hi) == {};
    }
  }

  /** The words that are in use. */
  ghost function WordsInUse(t: Table): set<int> {
    set x | 0 <= x < (|t.ps| - 1) * PAGE && t.InUse(x)
  }

  /** Word x belongs to an object of the old space that has been forwarded. */
  ghost predicate InMoved(s: State, from: nat, x: int) {
    exists a {:trigger OldObject(s, from, a)} :: OldObject(s, from, a) && Moved(s, a) && a <= x < s.objs[a]
  }

  ghost function MovedWords(s: State, from: nat): set<int> {
    set x | 0 <= x < |s.m| && InMoved(s, from, x)
  }

  /** The words in use that are not to be freed because of a copy. */
  ghost function Weight(s: State, from: nat): int {
    |WordsInUse(s.t)| - |MovedWords(s, from)|
  }

  lemma AddedWords(a: set<int>, b: set<int>, lo: int, hi: int)
    requires lo <= hi && a !! Span(lo, hi) && b == a + Span(lo, hi)
    ensures |b| == |a| + hi - lo
  {
    SpanSize(lo, hi);
  }

  lemma FewerWords(a: set<int>, b: set<int>)
    requires a <= b
    ensures |a| <= |b|
  {
    assert b == a + (b - a);
  }

  /** If the same old objects have been forwarded and no word has come into use the weight has not become greater. */
  lemma SameWeight(s: State, s2: State, from: nat)
    requires s2.objs == s.objs && |s2.m| == |s.m| && |s2.t.ps| == |s.t.ps|
    requires forall c {:trigger OldObject(s, from, c)} {:trigger OldObject(s2, from, c)} ::
               OldObject(s2, from, c) && Moved(s2, c) <==> OldObject(s, from, c) && Moved(s, c)
    requires forall x {:trigger s2.t.InUse(x)} :: s2.t.InUse(x) ==> s.t.InUse(x)
    ensures Weight(s2, from) <= Weight(s, from)
  {
    hide OldObject, Moved;
    FewerWords(WordsInUse(s2.t), WordsInUse(s.t));
    assert MovedWords(s2, from) == MovedWords(s, from);
  }

  /** A copy weighs what it has in words. */
  lemma CopiedWeight(s: State, s2: State, recording: Recording, from: nat, shapes: map<int, Shape>, a: int, b: int,
        n: int, kind: bool)
    requires InvOk(s, from, shapes) && CopiedTo(s, s2, recording, a, b, n, kind) && n > 0
    ensures Weight(s2, from) == Weight(s, from) + n
  {
    hide ObjectsOk, SlackZero, RawOk, RawApart, NewWordOk, OldObjectOk, Recorded, Evolves, Fresh, OldObject, Moved;
    forall c {:trigger OldObject(s, from, c)} {:trigger OldObject(s2, from, c)}
      ensures OldObject(s2, from, c) && Moved(s2, c) <==> OldObject(s, from, c) && Moved(s, c)
    {
      CopiedOldObject(s, s2, recording, from, shapes, a, b, n, kind, c);
    }
    SameForwarded(s, s2, from, b, n);
    CopiedLength(s, s2, recording, a, b, n, kind);
    assert forall x {:trigger s.t.InUse(x)} :: b <= x < b + n ==> !s.t.InUse(x);
    assert WordsInUse(s2.t) == WordsInUse(s.t) + Span(b, b + n);
    AddedWords(WordsInUse(s.t), WordsInUse(s2.t), b, b + n);
  }

  lemma CopiedLength(s: State, s2: State, recording: Recording, a: int, b: int, n: int, kind: bool)
    requires CopiedTo(s, s2, recording, a, b, n, kind)
    ensures |s2.t.ps| == |s.t.ps| && |s2.m| == |s.m|
  {
  }

  lemma SameForwarded(s: State, s2: State, from: nat, b: int, n: int)
    requires b !in s.objs && s2.objs == s.objs[b := b + n] && |s2.m| == |s.m|
    requires forall c {:trigger OldObject(s, from, c)} {:trigger OldObject(s2, from, c)} ::
               OldObject(s2, from, c) && Moved(s2, c) <==> OldObject(s, from, c) && Moved(s, c)
    ensures MovedWords(s2, from) == MovedWords(s, from)
  {
    forall x ensures InMoved(s2, from, x) <==> InMoved(s, from, x) {
    }
  }

  /** Forwarding an object takes its weight away. */
  lemma ForwardWeight(s: State, s2: State, from: nat, shapes: map<int, Shape>, a: int, p: int)
    requires InvOk(s, from, shapes) && OldObject(s, from, a) && a + 1 < s.objs[a] && !Moved(s, a)
    requires Forwards(s, s2, a, p)
    requires WordOk(s, p) && !Refers(s.t, from, p)
    ensures Weight(s2, from) == Weight(s, from) - (s.objs[a] - a)
  {
    hide SlackZero, RawOk, RawApart, NewWordOk, OldObjectOk, Headed, AloneOk, ObjectOk;
    forall c {:trigger OldObject(s2, from, c)} ensures OldObject(s2, from, c) <==> OldObject(s, from, c) {
    }
    forall c {:trigger OldObject(s, from, c)} | OldObject(s, from, c)
      ensures (c != a ==> (Moved(s2, c) <==> Moved(s, c)) && (s.objs[c] <= a || s.objs[a] <= c))
    {
      ForwardOldObject(s, s2, from, shapes, a, p, c);
    }
    ForwardSize(s, from, shapes, a);
    ForwardedWords(s, s2, from, a);
    ObjectNotEmpty(s.t, s.objs, a);
    AddedWords(MovedWords(s, from), MovedWords(s2, from), a, s.objs[a]);
  }

  lemma ForwardSize(s: State, from: nat, shapes: map<int, Shape>, a: int)
    requires InvOk(s, from, shapes) && OldObject(s, from, a)
    ensures 0 <= a && s.objs[a] <= |s.m|
  {
    assert OldObjectOk(s, from, shapes, a);
  }

  lemma ForwardedWords(s: State, s2: State, from: nat, a: int)
    requires s2.objs == s.objs && |s2.m| == |s.m| && OldObject(s, from, a) && !Moved(s, a) && Moved(s2, a) && 0 <= a
    requires s.objs[a] <= |s.m|
    requires forall c {:trigger OldObject(s2, from, c)} :: OldObject(s2, from, c) <==> OldObject(s, from, c)
    requires forall c {:trigger OldObject(s, from, c)} :: OldObject(s, from, c) && c != a ==>
               (Moved(s2, c) <==> Moved(s, c)) && (s.objs[c] <= a || s.objs[a] <= c)
    ensures MovedWords(s2, from) == MovedWords(s, from) + Span(a, s.objs[a])
    ensures MovedWords(s, from) !! Span(a, s.objs[a])
  {
    hide Moved;
    forall x ensures InMoved(s2, from, x) <==> InMoved(s, from, x) || a <= x < s.objs[a] {
      if a <= x < s.objs[a] {
        assert OldObject(s2, from, a);
      } else if InMoved(s, from, x) {
        var c :| OldObject(s, from, c) && Moved(s, c) && c <= x < s.objs[c];
        assert OldObject(s2, from, c);
      }
    }
    forall x ensures !(InMoved(s, from, x) && a <= x < s.objs[a]) {
    }
  }

  // ---------- The end of a collection ----------

  /** At the beginning everything in use has its weight. */
  lemma WeightAtFirst(s: State, from: nat)
    requires forall a {:trigger a in s.objs} :: a in s.objs && 0 <= a < |s.m| ==> s.m[a] != FORWARDED
    ensures Weight(s, from) == |WordsInUse(s.t)|
  {
    forall x ensures !InMoved(s, from, x) {
    }
    assert MovedWords(s, from) == {};
  }

  lemma MovedInUse(s: State, from: nat, shapes: map<int, Shape>, x: int)
    requires InvOk(s, from, shapes) && InMoved(s, from, x)
    ensures s.t.InUse(x) && s.t.ps[x / PAGE].gen == from && 0 <= x < |s.m|
  {
    hide SlackZero, RawOk, RawApart, NewWordOk, OldObjectOk, Headed, AloneOk, PageOk, RegionOk;
    var a :| OldObject(s, from, a) && Moved(s, a) && a <= x < s.objs[a];
    assert ObjectOk(s.t, a, s.objs[a]);
    OldWords(s.t, a, s.objs[a], x);
    ForwardSize(s, from, shapes, a);
  }

  /** What is left when the old space has been freed is no more than the weight. */
  lemma WeightAtEnd(s: State, s2: State, from: nat, shapes: map<int, Shape>)
    requires InvOk(s, from, shapes) && |s2.t.ps| == |s.t.ps|
    requires forall x {:trigger s2.t.InUse(x)} :: s2.t.InUse(x) <==> s.t.InUse(x) && s.t.ps[x / PAGE].gen != from
    ensures |WordsInUse(s2.t)| <= Weight(s, from)
  {
    InvLength(s, from, shapes);
    hide InvOk, InMoved;
    var used, moved := WordsInUse(s.t), MovedWords(s, from);
    forall x | x in moved ensures x in used && x !in WordsInUse(s2.t) {
      MovedInUse(s, from, shapes, x);
    }
    FewerWords(WordsInUse(s2.t), used - moved);
    assert used == (used - moved) + moved;
  }

  lemma InvLength(s: State, from: nat, shapes: map<int, Shape>)
    requires InvOk(s, from, shapes)
    ensures |s.m| == (|s.t.ps| - 1) * PAGE
  {
  }

  /** The words in use on the first n pages. */
  ghost function FirstWords(t: Table, n: nat): set<int> {
    set x | 0 <= x < n * PAGE && t.InUse(x)
  }

  /** If the regions are closed the words in use on a page are its first ones. */
  lemma PageWords(t: Table, n: nat, x: int)
    requires t.Valid() && Flushed(t) && 0 < n <= |t.ps|
    ensures x in FirstWords(t, n) <==>
      x in FirstWords(t, n - 1) || x in Span((n - 1) * PAGE, (n - 1) * PAGE + t.ps[n - 1].used)
  {
    hide RegionOk;
    assert PageOk(t.ps, n - 1);
    if (n - 1) * PAGE <= x < n * PAGE {
      assert x / PAGE == n - 1;
    }
  }

  /** So the pages count the words in use. */
  lemma {:induction false} WordsCounted(t: Table, n: nat)
    requires t.Valid() && Flushed(t) && n <= |t.ps|
    ensures |FirstWords(t, n)| == Sum(t.ps, ALL, n)
  {
    hide PageOk, RegionOk, FirstWords;
    if n == 0 {
      NoWords(t);
    } else {
      WordsCounted(t, n - 1);
      var lo, used := (n - 1) * PAGE, t.ps[n - 1].used;
      forall x ensures x in FirstWords(t, n) <==> x in FirstWords(t, n - 1) || x in Span(lo, lo + used) {
        PageWords(t, n, x);
      }
      assert FirstWords(t, n) == FirstWords(t, n - 1) + Span(lo, lo + used);
      WordsBefore(t, n - 1);
      AddedWords(FirstWords(t, n - 1), FirstWords(t, n), lo, lo + used);
    }
  }

  lemma NoWords(t: Table)
    ensures FirstWords(t, 0) == {}
  {
  }

  lemma WordsBefore(t: Table, n: nat)
    requires t.Valid() && n < |t.ps|
    ensures FirstWords(t, n) !! Span(n * PAGE, n * PAGE + t.ps[n].used)
    ensures t.ps[n].used >= 0 && (!t.ps[n].alloc ==> t.ps[n].used == 0)
  {
    hide RegionOk;
    assert PageOk(t.ps, n);
  }
}
