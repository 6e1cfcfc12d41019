/** How allocation changes the page table of the generational collector, as a collection needs to know it: what is
    in use stays as it is, and what is new is recorded where it has to be scavenged. */
module PageGrowth {
  import opened PageTable
  import opened PageObjects
  import opened NewAreas

  /** Pages of words in use change in nothing but bytes_used, and pages that are taken get the generation allocated
      to. */
  ghost predicate Evolves(t: Table, t2: Table) {
    && |t2.ps| == |t.ps| && t2.gen == t.gen
    && (forall i {:trigger t2.ps[i]} :: 0 <= i < |t.ps| ==> t2.ps[i] == t.ps[i] || t2.ps[i].gen == t.gen)
    && (forall x {:trigger t.InUse(x)} {:trigger t2.InUse(x)} :: t.InUse(x) ==> t2.InUse(x) && SamePage(t, t2, x))
  }

  predicate SamePage(t: Table, t2: Table, x: int) {
    && 0 <= x / PAGE < |t.ps| == |t2.ps|
    && t2.ps[x / PAGE] == t.ps[x / PAGE].(used := t2.ps[x / PAGE].used)
  }

  predicate FreshAt(t: Table, kind: bool, x: int) {
    && 0 <= x / PAGE < |t.ps| && t.ps[x / PAGE].alloc
    && !t.ps[x / PAGE].wp && t.ps[x / PAGE].unboxed == kind && t.ps[x / PAGE].gen == t.gen
  }

  /** Words lo to hi are on pages of the kind and generation allocated to, which are not write protected. */
  ghost predicate Fresh(t: Table, kind: bool, lo: int, hi: int) {
    forall x {:trigger FreshAt(t, kind, x)} {:trigger t.InUse(x)} :: lo <= x < hi ==> FreshAt(t, kind, x)
  }

  /** Word x is going to be scavenged: it is in an area or in the open region. */
  ghost predicate Pending(t: Table, areas: seq<Area>, x: int) {
    Covered(areas, x) || t.boxed.Holds(x)
  }

  /** Words that were going to be scavenged still are, and so are the new ones, unless areas were dropped: on pages
      that are going to be scanned, or for want of room. */
  ghost predicate Recorded(t: Table, areas: seq<Area>, t2: Table, areas2: seq<Area>, recording: Recording, kind: bool,
        lo: int, hi: int)
  {
    && |areas| <= |areas2|
    && (forall x {:trigger Pending(t2, areas2, x)} :: Pending(t2, areas2, x) ==>
        Pending(t, areas, x) || (!kind && lo <= x < hi))
    && (|areas2| < NUM_NEW_AREAS && !recording.Off? ==>
          forall x {:trigger Pending(t, areas, x)} {:trigger Pending(t2, areas2, x)} ::
            Pending(t, areas, x) || (!kind && lo <= x < hi) ==>
              Pending(t2, areas2, x) || (recording.UpTo? && x / PAGE > recording.page))
  }

  lemma EvolvesTwice(t: Table, t1: Table, t2: Table)
    requires Evolves(t, t1) && Evolves(t1, t2)
    ensures Evolves(t, t2)
  {
    forall i {:trigger t2.ps[i]} | 0 <= i < |t.ps| ensures t2.ps[i] == t.ps[i] || t2.ps[i].gen == t.gen {
      assert t1.ps[i] == t1.ps[i];
    }
    forall x {:trigger t.InUse(x)} | t.InUse(x) ensures t2.InUse(x) && SamePage(t, t2, x) {
      assert t1.InUse(x);
    }
  }

  lemma FreshStays(t: Table, t2: Table, kind: bool, lo: int, hi: int)
    requires Fresh(t, kind, lo, hi) && Evolves(t, t2) && forall x {:trigger t.InUse(x)} :: lo <= x < hi ==> t.InUse(x)
    ensures Fresh(t2, kind, lo, hi)
  {
    forall x {:trigger FreshAt(t2, kind, x)} | lo <= x < hi ensures FreshAt(t2, kind, x) {
      assert t.InUse(x);
      assert SamePage(t, t2, x);
    }
  }

  lemma RecordedTwice(t: Table, areas: seq<Area>, t1: Table, areas1: seq<Area>, t2: Table, areas2: seq<Area>,
        recording: Recording,
                      kind: bool, lo1: int, hi1: int, lo2: int, hi2: int, lo: int, hi: int)
    requires Recorded(t, areas, t1, areas1, recording, kind, lo1, hi1)
    requires Recorded(t1, areas1, t2, areas2, recording, kind, lo2, hi2)
    requires (lo1 >= hi1 && lo2 == lo && hi2 == hi) || (lo2 >= hi2 && lo1 == lo && hi1 == hi)
    ensures Recorded(t, areas, t2, areas2, recording, kind, lo, hi)
  {
  }

  lemma CoveredPage(t: Table, kind: bool, i: int)
    requires t.Valid() && t.Of(kind).Covers(i)
    ensures 0 <= i < |t.ps| && RegionPage(t.ps[i], kind, t.gen)
  {
    OtherRegion(t, kind, i);
  }

  lemma CloseEvolves(t: Table, t2: Table, kind: bool)
    requires t.Valid() && Closes(t, t2, kind)
    ensures Evolves(t, t2)
  {
    hide PageOk, RegionOk;
    forall i {:trigger t2.ps[i]} | 0 <= i < |t.ps| ensures t2.ps[i] == t.ps[i] || t2.ps[i].gen == t.gen {
      if t.Of(kind).Covers(i) {
        CoveredPage(t, kind, i);
      }
    }
    forall x {:trigger t.InUse(x)} | t.InUse(x) ensures t2.InUse(x) && SamePage(t, t2, x) {
      CloseInUse(t, t2, kind, x);
      assert t2.ps[x / PAGE] == ClosedPage(t.ps[x / PAGE], x / PAGE, t.Of(kind));
    }
  }

  lemma CloseRecorded(t: Table, t2: Table, kind: bool, areas: seq<Area>, areas2: seq<Area>, recording: Recording)
    requires t.Valid() && Closes(t, t2, kind)
    requires if kind || t.boxed.start == t.boxed.free then areas2 == areas
             else Records(areas, areas2, recording, Area(t.boxed.first, t.boxed.start - t.boxed.first * PAGE,
                 t.boxed.free - t.boxed.start))
    ensures Recorded(t, areas, t2, areas2, recording, kind, 0, 0)
  {
    hide Covered;
    RegionFacts(t, false);
  }

  lemma RecordedNothing(t: Table, areas: seq<Area>, t2: Table, areas2: seq<Area>, recording: Recording, kind: bool,
        kind2: bool)
    requires Recorded(t, areas, t2, areas2, recording, kind, 0, 0)
    ensures Recorded(t, areas, t2, areas2, recording, kind2, 0, 0)
  {
    hide Pending;
  }

  lemma OpenEvolves(t: Table, t2: Table, kind: bool, first: int, last: int)
    requires t.Valid() && Opens(t, t2, kind, first, last)
    ensures Evolves(t, t2)
  {
    hide PageOk, RegionOk;
    forall x {:trigger t.InUse(x)} | t.InUse(x) ensures t2.InUse(x) && SamePage(t, t2, x) {
      OpenInUse(t, t2, kind, first, last, x);
      OpenedSame(t, t2, kind, first, last, x);
    }
  }

  lemma OpenedSame(t: Table, t2: Table, kind: bool, first: int, last: int, x: int)
    requires t.Valid() && Opens(t, t2, kind, first, last) && t.InUse(x)
    ensures SamePage(t, t2, x)
  {
    var i := x / PAGE;
    assert t2.ps[i] == OpenedPage(t.ps[i], i, t2.Of(kind), kind, t.gen);
    if first <= i <= last {
      TakenIsApart(t, kind, first, last, i);
    }
  }

  lemma OpenRecorded(t: Table, t2: Table, kind: bool, first: int, last: int, areas: seq<Area>, recording: Recording)
    requires Opens(t, t2, kind, first, last)
    ensures Recorded(t, areas, t2, areas, recording, kind, 0, 0)
  {
  }

  lemma BumpEvolves(t: Table, t2: Table, kind: bool, n: int)
    requires t.Valid() && Bumps(t, t2, kind, n) && n > 0
    ensures Evolves(t, t2) && Fresh(t2, kind, t.Of(kind).free, t.Of(kind).free + n)
  {
    hide PageOk;
    forall x {:trigger t.InUse(x)} | t.InUse(x) ensures t2.InUse(x) && SamePage(t, t2, x) {
      BumpInUse(t, t2, kind, n, x);
    }
    var r := t.Of(kind);
    forall x {:trigger FreshAt(t2, kind, x)} | r.free <= x < r.free + n ensures FreshAt(t2, kind, x) {
      BumpOk(t, t2, kind, n);
      RegionFacts(t, kind);
      HeldIsCovered(t2, kind, x);
      assert RegionPage(t.ps[x / PAGE], kind, t.gen);
    }
  }

  lemma BumpRecorded(t: Table, t2: Table, kind: bool, n: int, areas: seq<Area>, recording: Recording)
    requires t.Valid() && Bumps(t, t2, kind, n)
    ensures Recorded(t, areas, t2, areas, recording, kind, t.Of(kind).free, t.Of(kind).free + n)
  {
    RegionFacts(t, kind);
  }

  lemma TakeEvolves(t: Table, t2: Table, kind: bool, first: int, last: int, n: int, large: bool)
    requires t.Valid() && Takes(t, t2, kind, first, last, n, large)
    ensures Evolves(t, t2) && Fresh(t2, kind, first * PAGE + t.ps[first].used, first * PAGE + t.ps[first].used + n)
  {
    hide RegionOk, Candidate;
    assert PageOk(t.ps, first);
    TakeGains(t, t2, kind, first, last, n, large);
    forall x {:trigger t.InUse(x)} | t.InUse(x) ensures t2.InUse(x) && SamePage(t, t2, x) {
      TakenSame(t, t2, kind, first, last, n, large, x);
    }
    var start := first * PAGE + t.ps[first].used;
    forall x {:trigger FreshAt(t2, kind, x)} | start <= x < start + n ensures FreshAt(t2, kind, x) {
      TakenFresh(t, t2, kind, first, last, n, large, x);
    }
    forall i {:trigger t2.ps[i]} | 0 <= i < |t.ps| ensures t2.ps[i] == t.ps[i] || t2.ps[i].gen == t.gen {
      assert t2.ps[i] == TakenPage(t.ps[i], i, first, start, n, kind, t.gen, large);
      CandidateGeneration(t, kind, first);
    }
  }

  lemma CandidateGeneration(t: Table, kind: bool, i: int)
    requires t.Valid() && 0 <= i < |t.ps| && Candidate(t.ps[i], kind, t.gen)
    ensures t.ps[i].used == 0 || t.ps[i].gen == t.gen
  {
    assert PageOk(t.ps, i);
  }

  lemma TakenSame(t: Table, t2: Table, kind: bool, first: int, last: int, n: int, large: bool, x: int)
    requires t.Valid() && Takes(t, t2, kind, first, last, n, large) && t.InUse(x)
    ensures SamePage(t, t2, x)
  {
    var i := x / PAGE;
    assert t2.ps[i] == TakenPage(t.ps[i], i, first, first * PAGE + t.ps[first].used, n, kind, t.gen, large);
    if first <= i <= last {
      TakenIsApart(t, kind, first, last, i);
    }
  }

  lemma TakenFresh(t: Table, t2: Table, kind: bool, first: int, last: int, n: int, large: bool, x: int)
    requires t.Valid() && Takes(t, t2, kind, first, last, n, large)
    requires first * PAGE + t.ps[first].used <= x < first * PAGE + t.ps[first].used + n
    ensures FreshAt(t2, kind, x)
  {
    assert PageOk(t.ps, first);
    var i := x / PAGE;
    assert first <= i <= last;
    TakenIsApart(t, kind, first, last, first);
    assert t2.ps[i] == TakenPage(t.ps[i], i, first, first * PAGE + t.ps[first].used, n, kind, t.gen, large);
  }

  lemma TakeRecorded(t: Table, t2: Table, kind: bool, first: int, last: int, n: int, large: bool, areas: seq<Area>,
        areas2: seq<Area>, recording: Recording)
    requires t.Valid() && Takes(t, t2, kind, first, last, n, large)
    requires if kind then areas2 == areas else Records(areas, areas2, recording, Area(first, t.ps[first].used, n))
    ensures Recorded(t, areas, t2, areas2, recording, kind, first * PAGE + t.ps[first].used,
        first * PAGE + t.ps[first].used + n)
  {
    hide Covered, RegionOk, Candidate;
    assert PageOk(t.ps, first);
  }
}
