/** The words on the control stack of the ports on which they need not be references: whatever they may refer to stays
    where it is, src/lisp/gencgc.c. */
module ConservativeRoots {
  import opened PageTable
  import opened PageObjects
  import opened PageBlocks
  import opened PageHeap
  import opened PageGc
  import opened PageRuns
  import opened Newspace

  /** A word on the control stack, and what valid_dynamic_space_pointer says of it. */
  datatype StackWord = StackWord(word: int, valid: bool)

  /** No object that word x belongs to is in the old space. */
  ghost predicate Saved(ps: seq<Page>, objs: map<int, int>, from: nat, x: int) {
    forall a {:trigger a in objs} :: a in objs && a <= x < objs[a] && 0 <= a / PAGE < |ps| ==> ps[a / PAGE].gen != from
  }

  ghost predicate AllSaved(ps: seq<Page>, objs: map<int, int>, from: nat, stack: seq<StackWord>, i: nat) {
    forall k {:trigger stack[k]} :: i <= k < |stack| && stack[k].valid ==> Saved(ps, objs, from, Target(stack[k].word))
  }

  lemma SavedStays(ps: seq<Page>, ps2: seq<Page>, objs: map<int, int>, from: nat, to: nat, x: int)
    requires Saved(ps, objs, from, x) && Begun(ps, ps2, from, to)
    ensures Saved(ps2, objs, from, x)
  {
    forall a {:trigger a in objs} | a in objs && a <= x < objs[a] && 0 <= a / PAGE < |ps2|
      ensures ps2[a / PAGE].gen != from
    {
      assert BegunPage(ps[a / PAGE], ps2[a / PAGE], from, to);
    }
  }

  lemma AllSavedStay(ps: seq<Page>, ps2: seq<Page>, objs: map<int, int>, from: nat, to: nat, stack: seq<StackWord>,
        i: nat)
    requires AllSaved(ps, objs, from, stack, i) && Begun(ps, ps2, from, to)
    ensures AllSaved(ps2, objs, from, stack, i)
  {
    hide Saved, Begun;
    forall k {:trigger stack[k]} | i <= k < |stack| && stack[k].valid
      ensures Saved(ps2, objs, from, Target(stack[k].word))
    {
      SavedStays(ps, ps2, objs, from, to, Target(stack[k].word));
    }
  }

  // ---------- Nothing else is pinned ----------

  /** Pages i and j belong together: on the pages from the earlier to the later one something runs on. */
  ghost predicate Together(ps: seq<Page>, i: int, j: int) {
    && 0 <= i < |ps| && 0 <= j < |ps|
    && (forall k {:trigger ps[k]} :: i < k <= j || j < k <= i ==> ps[k].offset != 0)
  }

  /** The word pins page i. */
  ghost predicate PinsPage(ps: seq<Page>, from: nat, w: StackWord, i: int) {
    w.valid && PassesTests(ps, from, Target(w.word)) && Together(ps, Target(w.word) / PAGE, i)
  }

  /** One of the words from the k-th on does. */
  ghost predicate PinnedFrom(ps: seq<Page>, from: nat, stack: seq<StackWord>, k: nat, i: int) {
    exists j {:trigger stack[j]} :: k <= j < |stack| && PinsPage(ps, from, stack[j], i)
  }

  /** A page that was in the old space and is not there any more. */
  predicate LeftOldSpace(p: Page, p2: Page, from: nat) {
    p.gen == from && p2.used > 0 && p2.gen != from
  }

  /** Only pages that a word pins have left the old space. */
  ghost predicate PinnedOnly(ps: seq<Page>, ps2: seq<Page>, from: nat, stack: seq<StackWord>, k: nat) {
    forall i {:trigger ps2[i]} :: 0 <= i < |ps| && i < |ps2| && LeftOldSpace(ps[i], ps2[i], from) ==>
        PinnedFrom(ps, from, stack, k, i)
  }

  /** What pins a page later has pinned it at the beginning. */
  lemma PinsPageBefore(ps: seq<Page>, ps2: seq<Page>, from: nat, to: nat, w: StackWord, i: int)
    requires Begun(ps, ps2, from, to) && from != to && PinsPage(ps2, from, w, i)
    ensures PinsPage(ps, from, w, i)
  {
    var j := Target(w.word) / PAGE;
    assert BegunPage(ps[j], ps2[j], from, to);
    forall k {:trigger ps[k]} | i < k <= j || j < k <= i ensures ps[k].offset != 0 {
      assert BegunPage(ps[k], ps2[k], from, to);
      assert ps2[k].offset != 0;
    }
  }

  lemma PinnedOnlyThen(ps: seq<Page>, ps1: seq<Page>, ps2: seq<Page>, from: nat, to: nat, stack: seq<StackWord>, k: nat)
    requires Begun(ps, ps1, from, to) && Begun(ps1, ps2, from, to) && from != to && k < |stack|
    requires PinnedOnly(ps, ps1, from, stack, k + 1)
    requires |ps2| == |ps1| && forall i {:trigger ps2[i]} :: 0 <= i < |ps1| && LeftOldSpace(ps1[i], ps2[i], from) ==>
               PinsPage(ps1, from, stack[k], i)
    ensures PinnedOnly(ps, ps2, from, stack, k)
  {
    hide PinsPage;
    forall i {:trigger ps2[i]} | 0 <= i < |ps| && LeftOldSpace(ps[i], ps2[i], from)
      ensures PinnedFrom(ps, from, stack, k, i)
    {
      assert BegunPage(ps[i], ps1[i], from, to) && BegunPage(ps1[i], ps2[i], from, to);
      if ps1[i].gen == from {
        PinsPageBefore(ps, ps1, from, to, stack[k], i);
      } else {
        var j :| k + 1 <= j < |stack| && PinsPage(ps, from, stack[j], i);
      }
    }
  }

  /** All of an object is in the old space, or none of it is. */
  lemma SavedWhole(h: Heap, from: nat, header: int -> Header, x: int)
    requires Pinnable(h, from, header) && (0 <= x / PAGE < h.pages.Length ==> h.pages[x / PAGE].gen != from)
    ensures Saved(h.pages[..], h.objs, from, x)
  {
    hide RegionOk, PageOk, TailZero, Sized;
    forall a {:trigger a in h.objs} | a in h.objs && a <= x < h.objs[a] && 0 <= a / PAGE < h.pages.Length
      ensures h.pages[a / PAGE].gen != from
    {
      ObjectUsed(h.T(), h.objs, h.gens[..], h.bytesAllocated, h.mem[..], a, x);
      assert ObjectOk(h.T(), a, h.objs[a]);
      ObjectGeneration(h.T(), a, h.objs[a], x);
    }
  }

  lemma NotSaved(h: Heap, from: nat, header: int -> Header, x: int)
    requires Pinnable(h, from, header) && !Saved(h.pages[..], h.objs, from, x)
    ensures InOldObject(h, from, x)
  {
    hide RegionOk, PageOk, TailZero, Sized;
    var a :| a in h.objs && a <= x < h.objs[a] && 0 <= a / PAGE < h.pages.Length && h.pages[a / PAGE].gen == from;
    ObjectUsed(h.T(), h.objs, h.gens[..], h.bytesAllocated, h.mem[..], a, x);
    assert ObjectOk(h.T(), a, h.objs[a]);
    ObjectGeneration(h.T(), a, h.objs[a], x);
  }

  /** What preserve_pointer is for: the objects that a valid word points into are not in the old space any more. */
  method PreserveWord(h: Heap, from: nat, w: StackWord, header: int -> Header)
    requires Pinnable(h, from, header)
    modifies h`bytesAllocated, h.pages, h.gens
    ensures Pinnable(h, from, header)
    ensures Begun(old(h.pages[..]), h.pages[..], from, h.allocGen)
    ensures SameKinds(old(h.pages[..]), h.pages[..], h.objs, h.raw)
    ensures w.valid ==> Saved(h.pages[..], h.objs, from, Target(w.word))
    ensures forall i {:trigger h.pages[i]} ::
      0 <= i < h.pages.Length && LeftOldSpace(old(h.pages[i]), h.pages[i], from) ==>
              PinsPage(old(h.pages[..]), from, w, i)
  {
    hide HeapOk, RegionOk, PageOk, TailZero, Sized, Begun, SameKinds, Saved, PinsPage, PassesTests;
    ghost var ps, x := h.pages[..], Target(w.word);
    if !Saved(ps, h.objs, from, x) {
      NotSaved(h, from, header, x);
    }
    var pinned, first, last := PreservePointer(h, from, Target(w.word), w.valid, header);
    if Saved(ps, h.objs, from, x) {
      SavedStays(ps, h.pages[..], h.objs, from, h.allocGen, x);
    } else if w.valid {
      SavedWhole(h, from, header, x);
    }
    forall i {:trigger h.pages[i]} | 0 <= i < h.pages.Length && LeftOldSpace(ps[i], h.pages[i], from)
      ensures PinsPage(ps, from, w, i)
    {
      PinsBlock(ps, h.pages[..], from, h.allocGen, w, first, last, i);
    }
  }

  /** A word that passes the tests pins the pages that belong together with its own. */
  lemma PinsBlock(ps: seq<Page>, ps2: seq<Page>, from: nat, to: nat, w: StackWord, first: int, last: int, i: int)
    requires Begun(ps, ps2, from, to) && w.valid && PassesTests(ps, from, Target(w.word))
    requires 0 <= first <= Target(w.word) / PAGE <= last < |ps| && first <= i <= last
    requires forall k {:trigger ps2[k]} :: first < k <= last ==> ps2[k].offset != 0
    ensures PinsPage(ps, from, w, i)
  {
    forall k {:trigger ps[k]} | first < k <= last ensures ps[k].offset != 0 {
      assert BegunPage(ps[k], ps2[k], from, to);
    }
  }

  /** Goes through the control stack from its end on. */
  method PreserveStack(h: Heap, from: nat, stack: seq<StackWord>, header: int -> Header)
    requires Pinnable(h, from, header)
    modifies h`bytesAllocated, h.pages, h.gens
    ensures Pinnable(h, from, header)
    ensures Begun(old(h.pages[..]), h.pages[..], from, h.allocGen)
    ensures SameKinds(old(h.pages[..]), h.pages[..], h.objs, h.raw)
    ensures AllSaved(h.pages[..], h.objs, from, stack, 0)
    ensures PinnedOnly(old(h.pages[..]), h.pages[..], from, stack, 0)
  {
    assert from != h.allocGen by {
      PinnableGeneration(h, from, header);
    }
    hide Pinnable, Begun, SameKinds, Saved, AllSaved, PinsPage, PinnedOnly, LeftOldSpace;
    ghost var ps := h.pages[..];
    NonePinned(ps, h.objs, from, stack);
    BegunSame(ps, h.objs, h.raw, from, h.allocGen);
    var i := |stack|;
    while i > 0
      invariant 0 <= i <= |stack| && Pinnable(h, from, header) && AllSaved(h.pages[..], h.objs, from, stack, i)
      invariant Begun(ps, h.pages[..], from, h.allocGen) && SameKinds(ps, h.pages[..], h.objs, h.raw)
      invariant PinnedOnly(ps, h.pages[..], from, stack, i)
    {
      i := i - 1;
      ghost var ps1 := h.pages[..];
      PreserveWord(h, from, stack[i], header);
      BegunThen(ps, ps1, h.pages[..], from, h.allocGen);
      KindsThen(ps, ps1, h.pages[..], h.objs, h.raw);
      AllSavedStay(ps1, h.pages[..], h.objs, from, h.allocGen, stack, i + 1);
      SavedNext(h.pages[..], h.objs, from, stack, i);
      PinnedOnlyThen(ps, ps1, h.pages[..], from, h.allocGen, stack, i);
    }
  }

  /** Before the first word is looked at. */
  lemma NonePinned(ps: seq<Page>, objs: map<int, int>, from: nat, stack: seq<StackWord>)
    ensures PinnedOnly(ps, ps, from, stack, |stack|) && AllSaved(ps, objs, from, stack, |stack|)
  {
  }

  /** Another word has been looked at. */
  lemma SavedNext(ps: seq<Page>, objs: map<int, int>, from: nat, stack: seq<StackWord>, i: nat)
    requires AllSaved(ps, objs, from, stack, i + 1) && i < |stack|
    requires stack[i].valid ==> Saved(ps, objs, from, Target(stack[i].word))
    ensures AllSaved(ps, objs, from, stack, i)
  {
    hide Saved;
  }

  lemma PinnableGeneration(h: Heap, from: nat, header: int -> Header)
    requires Pinnable(h, from, header)
    ensures from != h.allocGen
  {
  }
}
