/** What a garbage collection, of one generation or of several in a row, keeps of the objects and of what they refer
    to. */
module KeptObjects {
  import opened PageTable
  import opened PageObjects
  import opened PageRuns
  import opened Newspace
  import opened ConservativeRoots
  import opened NewspaceMirror
  import opened Resting

  /** Word w, which was w0, refers to where the object is now that w0 referred to, or is the same if w0 referred to
      none. */
  predicate WordFollows(s0: State, s: State, loc: map<int, int>, w0: int, w: int) {
    if Dynamic(s0.t, w0)
    then Target(w0) in loc && Dynamic(s.t, w) && Target(w) == loc[Target(w0)]
    else w == w0
  }

  /** Word x was the word d words further on, and has followed its object unless it belongs to an unboxed object. */
  predicate WordStays(s0: State, s: State, loc: map<int, int>, unboxed: bool, d: int, x: int) {
    && 0 <= x < |s.m| && 0 <= x + d < |s0.m|
    && (if unboxed then s.m[x] == s0.m[x + d] else WordFollows(s0, s, loc, s0.m[x + d], s.m[x]))
  }

  ghost predicate WordsStay(s0: State, s: State, loc: map<int, int>, unboxed: bool, d: int, lo: int, hi: int) {
    forall x {:trigger WordStays(s0, s, loc, unboxed, d, x)} :: lo <= x < hi ==> WordStays(s0, s, loc, unboxed, d, x)
  }

  /** The object that was at a is at loc[a] now, with its size, its kind and its contents. */
  ghost predicate ObjectKept(s0: State, s: State, loc: map<int, int>, a: int)
    requires a in loc
  {
    && a in s0.objs && loc[a] in s.objs && s.objs[loc[a]] - loc[a] == s0.objs[a] - a
    && (UnboxedAt(s, loc[a]) <==> UnboxedAt(s0, a))
    && WordsStay(s0, s, loc, UnboxedAt(s0, a), a - loc[a], loc[a], s.objs[loc[a]])
  }

  /** The objects that are left, which loc says where to find, are apart and are what they were; so all that they refer
      to is left too. */
  ghost predicate Kept(s0: State, s: State, loc: map<int, int>) {
    && |s.t.ps| == |s0.t.ps|
    && (forall a {:trigger a in loc} :: a in loc ==> ObjectKept(s0, s, loc, a))
    && (forall a, c {:trigger a in loc, c in loc} :: a in loc && c in loc && a != c ==> loc[a] != loc[c])
  }

  /** The roots refer to where their objects are now. */
  ghost predicate RootsKept(s0: State, s: State, loc: map<int, int>, roots0: seq<int>, roots: seq<int>) {
    |roots| == |roots0| && forall i {:trigger roots[i]} :: 0 <= i < |roots| ==>
        WordFollows(s0, s, loc, roots0[i], roots[i])
  }

  ghost predicate RootsOk(s: State, roots: seq<int>) {
    forall i {:trigger roots[i]} :: 0 <= i < |roots| ==> WordOk(s, roots[i])
  }

  // ---------- The control stack ----------

  /** A valid word on the control stack points into the object at a. */
  ghost predicate Touched(objs: map<int, int>, stack: seq<StackWord>, a: int) {
    a in objs &&
    exists k {:trigger stack[k]} :: 0 <= k < |stack| && stack[k].valid && a <= Target(stack[k].word) < objs[a]
  }

  /** What the control stack may refer to has stayed where it was. */
  ghost predicate StackKept(s0: State, stack: seq<StackWord>, loc: map<int, int>) {
    forall a {:trigger Touched(s0.objs, stack, a)} :: Touched(s0.objs, stack, a) ==> a in loc && loc[a] == a
  }

  /** The words that are valid in firm are valid on the stack too. */
  ghost predicate Covers(stack: seq<StackWord>, firm: seq<StackWord>) {
    forall k {:trigger firm[k]} :: 0 <= k < |firm| && firm[k].valid ==> firm[k] in stack
  }

  lemma StackLess(s0: State, stack: seq<StackWord>, firm: seq<StackWord>, loc: map<int, int>)
    requires StackKept(s0, stack, loc) && Covers(stack, firm)
    ensures StackKept(s0, firm, loc)
  {
    forall a {:trigger Touched(s0.objs, firm, a)} | Touched(s0.objs, firm, a) ensures a in loc && loc[a] == a {
      var k :| 0 <= k < |firm| && firm[k].valid && a <= Target(firm[k].word) < s0.objs[a];
      assert firm[k] in stack;
      assert Touched(s0.objs, stack, a);
    }
  }

  lemma StackStill(s0: State, stack: seq<StackWord>)
    ensures StackKept(s0, stack, Still(s0.objs))
  {
  }

  lemma StackThen(s0: State, s1: State, stack: seq<StackWord>, loc1: map<int, int>, loc2: map<int, int>)
    requires Kept(s0, s1, loc1) && StackKept(s0, stack, loc1) && StackKept(s1, stack, loc2)
    ensures StackKept(s0, stack, Then(loc1, loc2))
  {
    forall a {:trigger Touched(s0.objs, stack, a)} | Touched(s0.objs, stack, a)
      ensures a in Then(loc1, loc2) && Then(loc1, loc2)[a] == a
    {
      assert ObjectKept(s0, s1, loc1, a);
      assert Touched(s1.objs, stack, a);
    }
  }

  // ---------- Older generations ----------

  /** A page in use of generation n or an older one. */
  predicate OfOlder(p: Page, n: nat) {
    p.alloc && p.used != 0 && n <= p.gen < NUM_GENERATIONS
  }

  /** The pages of generation n and older ones are the same but for flags. */
  ghost predicate SameOlder(ps: seq<Page>, ps2: seq<Page>, n: nat) {
    && |ps2| == |ps|
    && (forall i {:trigger ps2[i]} :: 0 <= i < |ps| && (OfOlder(ps[i], n) || OfOlder(ps2[i], n)) ==>
          ps2[i] == ps[i].(wp := ps2[i].wp, dontMove := ps2[i].dontMove))
  }

  predicate InOlder(s: State, n: nat, a: int) {
    a in s.objs && 0 <= a / PAGE < |s.t.ps| && OfOlder(s.t.ps[a / PAGE], n)
  }

  /** Generation n and older ones have the pages and the objects that they had, and no others. */
  ghost predicate OlderStays(s0: State, s: State, loc: map<int, int>, n: nat) {
    && SameOlder(s0.t.ps, s.t.ps, n)
    && (forall a {:trigger InOlder(s0, n, a)} :: InOlder(s0, n, a) ==> a in loc && loc[a] == a)
    && (forall a {:trigger InOlder(s, n, a)} :: InOlder(s, n, a) ==> a in loc && loc[a] == a)
  }

  lemma OlderMore(s0: State, s: State, loc: map<int, int>, n: nat, n2: nat)
    requires OlderStays(s0, s, loc, n) && n <= n2
    ensures OlderStays(s0, s, loc, n2)
  {
    forall a {:trigger InOlder(s0, n2, a)} | InOlder(s0, n2, a) ensures a in loc && loc[a] == a {
      assert InOlder(s0, n, a);
    }
    forall a {:trigger InOlder(s, n2, a)} | InOlder(s, n2, a) ensures a in loc && loc[a] == a {
      assert InOlder(s, n, a);
    }
  }

  lemma OlderThen(s0: State, s1: State, s2: State, loc1: map<int, int>, loc2: map<int, int>, n: nat)
    requires OlderStays(s0, s1, loc1, n) && OlderStays(s1, s2, loc2, n) && Kept(s0, s1, loc1) && Kept(s1, s2, loc2)
    ensures OlderStays(s0, s2, Then(loc1, loc2), n)
  {
    forall i {:trigger s2.t.ps[i]} | 0 <= i < |s0.t.ps| && (OfOlder(s0.t.ps[i], n) || OfOlder(s2.t.ps[i], n))
      ensures s2.t.ps[i] == s0.t.ps[i].(wp := s2.t.ps[i].wp, dontMove := s2.t.ps[i].dontMove)
    {
      assert s1.t.ps[i] == s1.t.ps[i];
    }
    forall a {:trigger InOlder(s0, n, a)} | InOlder(s0, n, a)
      ensures a in Then(loc1, loc2) && Then(loc1, loc2)[a] == a
    {
      assert ObjectKept(s0, s1, loc1, a);
      assert s1.t.ps[a / PAGE] == s1.t.ps[a / PAGE];
      assert InOlder(s1, n, a);
    }
    forall a {:trigger InOlder(s2, n, a)} | InOlder(s2, n, a)
      ensures a in Then(loc1, loc2) && Then(loc1, loc2)[a] == a
    {
      assert ObjectKept(s1, s2, loc2, a);
      assert s2.t.ps[a / PAGE] == s2.t.ps[a / PAGE];
      assert InOlder(s1, n, a);
    }
  }

  lemma OlderStill(s0: State, s: State, n: nat)
    requires SameOlder(s0.t.ps, s.t.ps, n) && s.objs == s0.objs
    ensures OlderStays(s0, s, Still(s0.objs), n)
  {
  }

  /** So they have as many bytes as before. */
  lemma OlderBytes(ps: seq<Page>, ps2: seq<Page>, n: nat, g: nat)
    requires SameOlder(ps, ps2, n) && n <= g < NUM_GENERATIONS
    requires forall i {:trigger ps[i]} {:trigger ps2[i]} ::
      0 <= i < |ps| && i < |ps2| ==> ps[i].used >= 0 && ps2[i].used >= 0
    ensures Bytes(ps2, g) == Bytes(ps, g)
  {
    forall i {:trigger ps2[i]} | 0 <= i < |ps| ensures Count(ps2[i], g) == Count(ps[i], g) {
      assert ps[i] == ps[i];
    }
    SumSame(ps, ps2, g, |ps|);
  }

  // ---------- One after the other ----------

  /** Where the objects are after they have gone to loc1 and then to loc2. */
  ghost function Then(loc1: map<int, int>, loc2: map<int, int>): map<int, int> {
    map a | a in loc1 && loc1[a] in loc2 :: loc2[loc1[a]]
  }

  /** Where the objects are if nothing has moved. */
  ghost function Still(objs: map<int, int>): map<int, int> {
    map a | a in objs :: a
  }

  lemma FollowsThen(s0: State, s1: State, s2: State, loc1: map<int, int>, loc2: map<int, int>, w0: int, w1: int,
        w2: int)
    requires |s1.t.ps| == |s0.t.ps| && WordFollows(s0, s1, loc1, w0, w1) && WordFollows(s1, s2, loc2, w1, w2)
    ensures WordFollows(s0, s2, Then(loc1, loc2), w0, w2)
  {
  }

  lemma WordsThen(s0: State, s1: State, s2: State, loc1: map<int, int>, loc2: map<int, int>, u: bool, a: int, b: int,
        c: int, n: int)
    requires |s1.t.ps| == |s0.t.ps| && WordsStay(s0, s1, loc1, u, a - b, b, b + n)
    requires WordsStay(s1, s2, loc2, u, b - c, c, c + n)
    ensures WordsStay(s0, s2, Then(loc1, loc2), u, a - c, c, c + n)
  {
    hide WordFollows;
    var loc := Then(loc1, loc2);
    forall x {:trigger WordStays(s0, s2, loc, u, a - c, x)} | c <= x < c + n
      ensures WordStays(s0, s2, loc, u, a - c, x)
    {
      assert WordStays(s1, s2, loc2, u, b - c, x);
      var y := x + (b - c);
      assert WordStays(s0, s1, loc1, u, a - b, y);
      assert y + (a - b) == x + (a - c);
      if !u {
        FollowsThen(s0, s1, s2, loc1, loc2, s0.m[x + (a - c)], s1.m[y], s2.m[x]);
      }
    }
  }

  lemma ObjectThen(s0: State, s1: State, s2: State, loc1: map<int, int>, loc2: map<int, int>, a: int)
    requires |s1.t.ps| == |s0.t.ps| && a in loc1 && loc1[a] in loc2
    requires ObjectKept(s0, s1, loc1, a) && ObjectKept(s1, s2, loc2, loc1[a])
    ensures ObjectKept(s0, s2, Then(loc1, loc2), a)
  {
    hide WordsStay;
    var b := loc1[a];
    assert UnboxedAt(s1, b) == UnboxedAt(s0, a);
    WordsThen(s0, s1, s2, loc1, loc2, UnboxedAt(s0, a), a, b, loc2[b], s0.objs[a] - a);
  }

  /** What two collections in a row keep. */
  lemma KeptThen(s0: State, s1: State, s2: State, loc1: map<int, int>, loc2: map<int, int>)
    requires Kept(s0, s1, loc1) && Kept(s1, s2, loc2)
    ensures Kept(s0, s2, Then(loc1, loc2))
  {
    hide ObjectKept;
    var loc := Then(loc1, loc2);
    forall a {:trigger a in loc} | a in loc ensures ObjectKept(s0, s2, loc, a) {
      ObjectThen(s0, s1, s2, loc1, loc2, a);
    }
  }

  lemma RootsThen(s0: State, s1: State, s2: State, loc1: map<int, int>, loc2: map<int, int>, r0: seq<int>, r1: seq<int>,
        r2: seq<int>)
    requires Kept(s0, s1, loc1) && RootsKept(s0, s1, loc1, r0, r1) && RootsKept(s1, s2, loc2, r1, r2)
    ensures RootsKept(s0, s2, Then(loc1, loc2), r0, r2)
  {
    hide ObjectKept, WordFollows;
    forall i {:trigger r2[i]} | 0 <= i < |r2| ensures WordFollows(s0, s2, Then(loc1, loc2), r0[i], r2[i]) {
      assert WordFollows(s0, s1, loc1, r0[i], r1[i]);
      FollowsThen(s0, s1, s2, loc1, loc2, r0[i], r1[i], r2[i]);
    }
  }

  /** Nothing has moved if words, objects and kinds are the same. */
  lemma KeptStill(s0: State, s: State)
    requires RestOk(s0) && s.objs == s0.objs && s.m == s0.m && |s.t.ps| == |s0.t.ps|
    requires forall a {:trigger a in s.objs} :: a in s.objs ==> (UnboxedAt(s, a) <==> UnboxedAt(s0, a))
    ensures Kept(s0, s, Still(s0.objs))
  {
    hide ObjectKept, RestWordOk, SlackZero, SizesOk;
    var loc := Still(s0.objs);
    forall a {:trigger a in loc} | a in loc ensures ObjectKept(s0, s, loc, a) {
      ObjectStill(s0, s, a);
    }
  }

  lemma ObjectStill(s0: State, s: State, a: int)
    requires RestOk(s0) && s.objs == s0.objs && s.m == s0.m && |s.t.ps| == |s0.t.ps| && a in s.objs
    requires UnboxedAt(s, a) <==> UnboxedAt(s0, a)
    ensures ObjectKept(s0, s, Still(s0.objs), a)
  {
    hide SlackZero, SizesOk, RestWordOk, ObjectsOk, RawOk;
    ObjectInUse(s0, a);
    var loc, u := Still(s0.objs), UnboxedAt(s0, a);
    forall x {:trigger WordStays(s0, s, loc, u, 0, x)} | a <= x < s.objs[a] ensures WordStays(s0, s, loc, u, 0, x) {
      if !u {
        BoxedWord(s0, a, x);
      }
    }
  }

  /** A word of a boxed object is well formed. */
  lemma BoxedWord(s: State, a: int, x: int)
    requires RestOk(s) && a in s.objs && a <= x < s.objs[a] && !UnboxedAt(s, a)
    ensures 0 <= x < |s.m| && s.t.InUse(x) && !s.t.ps[x / PAGE].unboxed && x !in s.raw && WordOk(s, s.m[x])
  {
    hide SlackZero, SizesOk, Headed, AloneOk, PageOk, RegionOk;
    ObjectInUse(s, a);
    assert ObjectOk(s.t, a, s.objs[a]) && OneKind(s.objs, s.raw, a) && RestWordOk(s, x);
    ObjectKind(s.t, a, s.objs[a], x);
  }
}
