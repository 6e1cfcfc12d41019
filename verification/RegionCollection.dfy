/** The end of a collection of the conservative collector, src/lisp/cgc.c: the old space is freed, and free regions that
    are adjacent are joined. */
module RegionCollection {
  import opened LinkedLists
  import opened RegionIndex
  import opened RegionLists
  import opened RegionHeaps

  // --- Freeing the old space

  /** The links as they would be if the list of space i began at this region. */
  function Beginning(k: Links, i: int, region: int): Links
    requires Sizes(k) && 0 <= i < 2
  {
    k.(heads := k.heads[i := region])
  }

  function FreePlace(num: int): Place {
    if num == 1 then Small else Large
  }

  /** The lists after the first region of space i has been put on a free list. */
  function Freed(l: Lists, i: int, p: Place): Lists
    requires Space(i) in l.at && p in l.at && |l.at[Space(i)]| > 0
  {
    var e := l.at[Space(i)][0];
    Put(Put(l, Space(i), Without(l.at[Space(i)], 0), e, Loose), p, [e] + l.at[p], e, p)
  }

  ghost predicate FreeingOk(k: Links, l: Lists, i: int) {
    && 0 <= i < 2 && LinksOk(k, l) && Space(i) in l.at && Space(1 - i) in l.at && SpaceOk(k, l, 1 - i)
  }

  /** The first region of space i, and the list it is to be put on. */
  lemma FreeFirst(k: Links, l: Lists, num: seq<int>, i: int)
    requires FreeingOk(k, l, i) && |num| == |k.next| && |l.at[Space(i)]| > 0
    ensures Sizes(k) && (forall p :: IsPlace(p) ==> p in l.at)
    ensures forall j :: 0 <= j < |l.at[Space(i)]| ==> 0 < l.at[Space(i)][j] < |num|
    ensures l.at[Space(i)][0] in l.place && l.place[l.at[Space(i)][0]] == Space(i)
  {
    ListAt(k, l, Space(i));
    forall j | 0 <= j < |l.at[Space(i)]| ensures 0 < l.at[Space(i)][j] < |num| {
      assert l.at[Space(i)][j] in l.at[Space(i)];
    }
    assert l.at[Space(i)][0] in l.at[Space(i)];
  }

  lemma FreeLinks(k: Links, l: Lists, i: int, p: Place)
    requires FreeingOk(k, l, i) && |l.at[Space(i)]| > 0 && p in {Large, Small} && p in l.at
    requires Sizes(k) && 0 < l.at[Space(i)][0] < |k.next| && l.at[Space(i)][0] in l.place
    ensures LinksOk(Push(Beginning(k, i, k.next[l.at[Space(i)][0]]), p, l.at[Space(i)][0]), Freed(l, i, p))
    ensures Freed(l, i, p).place == l.place[l.at[Space(i)][0] := p]
  {
    hide LinksOk, SpaceOk, Without;
    var s, e := l.at[Space(i)], l.at[Space(i)][0];
    UnlinkOk(k, l, Space(i), 0);
    var k1, l1 := Unlink(k, Space(i), s, 0), Put(l, Space(i), Without(s, 0), e, Loose);
    PushOk(k1, l1, p, e);
    assert Push(Beginning(k, i, k.next[e]), p, e) == Push(k1, p, e);
  }

  lemma FreeBack(k: Links, l: Lists, i: int, p: Place)
    requires FreeingOk(k, l, i) && |l.at[Space(i)]| > 0 && p in {Large, Small} && p in l.at
    requires Sizes(k) && 0 < l.at[Space(i)][0] < |k.next|
    ensures Freed(l, i, p).at[Space(1 - i)] == l.at[Space(1 - i)]
    ensures SpaceOk(Push(Beginning(k, i, k.next[l.at[Space(i)][0]]), p, l.at[Space(i)][0]), Freed(l, i, p), 1 - i)
  {
    hide LinksOk, Doubly, Without;
    var e := l.at[Space(i)][0];
    var k2 := Push(Beginning(k, i, k.next[e]), p, e);
    ListAt(k, l, Space(i));
    ListAt(k, l, Space(1 - i));
    assert e in l.at[Space(i)];
    DoublyFrame(k.prev, k2.prev, k.tails[1 - i], 1 - i, l.at[Space(1 - i)]);
  }

  lemma FreedSizes(l: Lists, num: seq<int>, i: int)
    requires SizesOk(l, num) && 0 <= i < 2 && |l.at[Space(i)]| > 0 && 0 < l.at[Space(i)][0] < |num|
    ensures var p := FreePlace(num[l.at[Space(i)][0]]);
            SizesOk(Freed(l, i, p), num)
            && Chunks(num, Freed(l, i, p).at[Space(i)]) == Chunks(num, l.at[Space(i)]) - num[l.at[Space(i)][0]]
  {
    ChunksWithout(num, l.at[Space(i)], 0);
  }

  /** free_region */
  method FreeRegion(h: RegionHeap, region: int)
    requires 0 < region < |h.layout.num| && |h.links.next| == |h.layout.num| && Sizes(h.links)
    modifies h`links, h`chunksFreed
    ensures h.links == Push(old(h.links), FreePlace(h.layout.num[region]), region)
    ensures h.chunksFreed == old(h.chunksFreed) + h.layout.num[region]
  {
    var k := h.links.(owner := h.links.owner[region := NO_SPACE], prev := h.links.prev[region := Null]);
    h.chunksFreed := h.chunksFreed + h.layout.num[region];
    if h.layout.num[region] == 1 {
      h.links := k.(next := k.next[region := k.small], small := region);
    } else {
      h.links := k.(next := k.next[region := k.large], large := region);
    }
  }

  /** Every region is where it was, but those of the old space, which are free. */
  ghost predicate OldFreed(l0: Lists, l1: Lists, i: int) {
    && l1.place.Keys == l0.place.Keys && Space(1 - i) in l0.at && Space(1 - i) in l1.at
    && l1.at[Space(1 - i)] == l0.at[Space(1 - i)]
    && (forall x :: x in l0.place ==> PlaceFreed(l0.place[x], l1.place[x], i))
  }

  predicate PlaceFreed(p0: Place, p1: Place, i: int) {
    p1 == p0 || (p0 == Space(i) && p1 in {Large, Small})
  }

  /** The loop of free_oldspace has come to this region, the first of what is left of the list. */
  ghost predicate FreeingInv(k: Links, l0: Lists, l: Lists, num: seq<int>, i: int, region: int, freed: int) {
    && Sizes(k) && 0 <= i < 2 && FreeingOk(Beginning(k, i, region), l, i) && SizesOk(l, num) && |num| == |k.next|
    && OldFreed(l0, l, i) && Space(i) in l0.at && Chunks(num, l0.at[Space(i)]) == Chunks(num, l.at[Space(i)]) + freed
    && region == Following(l.at[Space(i)], -1)
  }

  lemma FreeingStart(k: Links, l: Lists, num: seq<int>, i: int)
    requires ListsOk(k, l) && SizesOk(l, num) && 0 <= i < 2 && |num| == |k.next|
    ensures Sizes(k) && FreeingInv(k, l, l, num, i, k.heads[i], 0)
  {
    ListAt(k, l, Space(i));
    assert Beginning(k, i, k.heads[i]) == k;
  }

  lemma FreeNext(k: Links, l0: Lists, l: Lists, num: seq<int>, i: int, region: int, freed: int)
    requires FreeingInv(k, l0, l, num, i, region, freed) && region != 0
    ensures 0 < region < |num| && Sizes(k) && |num| == |k.next| && 0 <= i < 2
    ensures forall p :: IsPlace(p) ==> p in l.at
    ensures |l.at[Space(i)]| > 0
    ensures var p := FreePlace(num[region]);
            FreeingInv(Push(k, p, region), l0, Freed(l, i, p), num, i, k.next[region], freed + num[region])
            && Space(i) in Freed(l, i, p).at && |Freed(l, i, p).at[Space(i)]| < |l.at[Space(i)]|
            && Freed(l, i, p).place.Keys == l.place.Keys
  {
    hide LinksOk, SizesOk, SpaceOk, List;
    var v := Beginning(k, i, region);
    FreeFirst(v, l, num, i);
    var p := FreePlace(num[region]);
    FreeLinks(v, l, i, p);
    FreeBack(v, l, i, p);
    FreedSizes(l, num, i);
    var k2, l2 := Push(k, p, region), Freed(l, i, p);
    assert Beginning(k2, i, k.next[region]) == Push(Beginning(v, i, k.next[region]), p, region);
    FreedNext(v, l, i);
    assert forall x :: x in l0.place ==> PlaceFreed(l0.place[x], l.place[x], i);
    assert OldFreed(l0, l2, i);
  }

  lemma FreedNext(k: Links, l: Lists, i: int)
    requires FreeingOk(k, l, i) && |l.at[Space(i)]| > 0 && 0 <= l.at[Space(i)][0] < |k.next|
    ensures k.next[l.at[Space(i)][0]] == Following(Without(l.at[Space(i)], 0), -1)
  {
    ListAt(k, l, Space(i));
    assert LinkOk(k.next, l.at[Space(i)], 0);
  }

  lemma FreeingEnd(k: Links, l0: Lists, l: Lists, num: seq<int>, i: int, freed: int)
    requires FreeingInv(k, l0, l, num, i, 0, freed)
    ensures Space(i) in l.at && l.at[Space(i)] == [] && Sizes(k) && 0 <= i < 2 && |num| == |k.next| && SizesOk(l, num)
    ensures OldFreed(l0, l, i) && Space(i) in l0.at && Chunks(num, l0.at[Space(i)]) == freed
    ensures ListsOk(k.(heads := k.heads[i := 0], tails := k.tails[i := First(i)]), l)
  {
    var v := Beginning(k, i, 0);
    ListAt(v, l, Space(i));
    forall j | 0 <= j < |l.at[Space(i)]| ensures 0 < l.at[Space(i)][j] {
      assert l.at[Space(i)][j] in l.at[Space(i)];
    }
    HeadNotZero(l.at[Space(i)]);
    SameLinks(v, v.(tails := k.tails[i := First(i)]), l);
  }

  lemma HeadNotZero(s: seq<int>)
    requires (forall j :: 0 <= j < |s| ==> 0 < s[j]) && Following(s, -1) == 0
    ensures s == []
  {
  }

  lemma OldFreedNoneLoose(l0: Lists, l1: Lists, i: int)
    requires OldFreed(l0, l1, i) && (forall x :: x in l0.place ==> l0.place[x] != Loose)
    ensures forall x :: x in l1.place ==> l1.place[x] != Loose
  {
    forall x | x in l1.place ensures l1.place[x] != Loose {
      assert x in l0.place && PlaceFreed(l0.place[x], l1.place[x], i);
    }
  }

  /** free_oldspace */
  method FreeOldspace(h: RegionHeap)
    requires h.Laid() && h.NoneLoose() && |h.allocPtr| == 2 && |h.allocEnd| == 2
    modifies h`links, h`chunksFreed, h`lists, h`allocPtr, h`allocEnd
    ensures h.Laid() && h.NoneLoose() && OldFreed(old(h.lists), h.lists, h.oldspace)
    ensures Space(h.oldspace) in h.lists.at && h.lists.at[Space(h.oldspace)] == []
    ensures Space(h.oldspace) in old(h.lists).at
    ensures h.chunksFreed == Chunks(h.layout.num, old(h.lists).at[Space(h.oldspace)])
    ensures h.allocPtr == old(h.allocPtr)[h.oldspace := 0] && h.allocEnd == old(h.allocEnd)[h.oldspace := 0]
  {
    hide LayoutOk, ListsOk, SizesOk, Without, FreeingInv, Freed, OldFreed;
    var i := h.oldspace;
    h.chunksFreed := 0;
    ghost var l0 := h.lists;
    FreeingStart(h.links, h.lists, h.layout.num, i);
    var region := h.links.heads[i];
    while region != 0
      invariant h.lists.place.Keys == l0.place.Keys && Space(i) in h.lists.at
      invariant FreeingInv(h.links, l0, h.lists, h.layout.num, i, region, h.chunksFreed)
      decreases |h.lists.at[Space(i)]|
      modifies h`links, h`chunksFreed, h`lists
    {
      FreeNext(h.links, l0, h.lists, h.layout.num, i, region, h.chunksFreed);
      var next := h.links.next[region];
      FreeRegion(h, region);
      h.lists := Freed(h.lists, i, FreePlace(h.layout.num[region]));
      region := next;
    }
    FreeingEnd(h.links, l0, h.lists, h.layout.num, i, h.chunksFreed);
    OldFreedNoneLoose(l0, h.lists, i);
    h.allocPtr := h.allocPtr[i := 0];
    h.allocEnd := h.allocEnd[i := 0];
    h.links := h.links.(heads := h.links.heads[i := 0], tails := h.links.tails[i := First(i)]);
  }

  // --- Joining free regions

  /** Where compact_cluster is: at a region, which has grown or not, with the free regions found so far in two lists
      whose last link is still open. */
  datatype Pass = Pass(layout: Layout, links: Links, lists: Lists, region: int, grown: bool, larges: seq<int>,
      smalls: seq<int>)

  ghost predicate IsFree(l: Lists, x: int) {
    x in l.place && !l.place[x].Space?
  }

  ghost predicate LaidOut(s: Pass) {
    && Tiled(s.layout, s.lists.place.Keys)
    && (forall t {:trigger OffsetsOk(s.layout, t)} :: t in s.lists.place && (t != s.region || !s.grown) ==>
        OffsetsOk(s.layout, t))
  }

  ghost predicate LinkedUp(s: Pass) {
    ListsOk(s.links, s.lists) && SizesOk(s.lists, s.layout.num) && |s.links.next| == |s.layout.num|
  }

  ghost predicate AtRegion(s: Pass, c: Cluster) {
    && (if s.region == c.End() then !s.grown else s.region in s.lists.place && InCluster(c, s.region))
    && (s.grown ==> s.region in s.lists.place && s.lists.place[s.region] == Loose)
  }

  ghost predicate AddedAt(s: Pass, c: Cluster, x: int) {
    && x in s.lists.place && s.lists.place[x] == Loose && InCluster(c, x) && x < s.region && 0 < x < |s.layout.num|
  }

  /** A list of additions, but for its last link. */
  ghost predicate Additions(s: Pass, c: Cluster, a: seq<int>) {
    && NoDuplicates(a) && (forall i :: 0 <= i < |a| ==> AddedAt(s, c, a[i]))
    && (forall i :: 0 <= i < |a| - 1 ==> OpenLink(s.links.next, a, i))
  }

  ghost predicate OpenLink(next: seq<int>, a: seq<int>, i: nat)
    requires i + 1 < |a|
  {
    0 <= a[i] < |next| && next[a[i]] == a[i + 1]
  }

  /** A free region is followed by the end of its cluster or by a region that is not free. */
  ghost predicate Apart(l: Lists, num: seq<int>, end: int, t: int) {
    0 <= t < |num| && (t + num[t] == end || (t + num[t] in l.place && l.place[t + num[t]].Space?))
  }

  ghost predicate FoundAt(s: Pass, c: Cluster, t: int) {
    && 0 <= t < |s.layout.num| && (if s.layout.num[t] == 1 then t in s.smalls else t in s.larges)
    && Apart(s.lists, s.layout.num, c.End(), t)
  }

  ghost predicate Found(s: Pass, c: Cluster) {
    && (forall t :: IsFree(s.lists, t) && InCluster(c, t) && t < s.region ==> FoundAt(s, c, t))
    && (forall t :: IsFree(s.lists, t) && InCluster(c, t) && t >= s.region ==> s.lists.place[t] == Loose)
    && (forall x :: x in s.smalls ==> 0 <= x < |s.layout.num| && s.layout.num[x] == 1)
    && (forall x :: x in s.larges ==> 0 <= x < |s.layout.num| && s.layout.num[x] != 1)
  }

  ghost predicate PassOk(s: Pass, c: Cluster) {
    && LaidOut(s) && LinkedUp(s) && AtRegion(s, c) && Additions(s, c, s.larges) && Additions(s, c, s.smalls)
    && Found(s, c)
    && c in s.layout.clusters
  }

  /** The region after the one at which the pass is. */
  lemma NextRegion(s: Pass, c: Cluster)
    requires PassOk(s, c) && s.region < c.End()
    ensures 0 < s.region < |s.layout.num| && 0 < s.layout.num[s.region] && s.region in s.lists.place
    ensures InCluster(c, s.region)
    ensures var n := s.region + s.layout.num[s.region];
            n == c.End() || (n < c.End() && n in s.lists.place && InCluster(c, n) && 0 < n < |s.layout.num| &&
                0 < s.layout.num[n])
    ensures RegionIndex.RegionOk(s.layout, s.lists.place.Keys, s.region)
    ensures var n := s.region + s.layout.num[s.region];
            n < c.End() ==> RegionIndex.RegionOk(s.layout, s.lists.place.Keys, n) && n + s.layout.num[n] <= c.End()
                            && ClusterOf(s.layout, n) == ClusterOf(s.layout, s.region)
  {
    var i :| 0 <= i < |s.layout.clusters| && s.layout.clusters[i] == c;
    assert RegionIndex.RegionOk(s.layout, s.lists.place.Keys, s.region);
    ClusterOfChunk(s.layout, s.region, i);
    var n := s.region + s.layout.num[s.region];
    if n < c.End() {
      ClusterOfChunk(s.layout, n, i);
      assert RegionIndex.RegionOk(s.layout, s.lists.place.Keys, n);
    }
  }

  /** No region starts between one and the next. */
  lemma BetweenRegions(s: Pass, t: int)
    requires LaidOut(s) && s.region in s.lists.place && t in s.lists.place && 0 <= s.region < |s.layout.num|
    ensures !(s.region < t < s.region + s.layout.num[s.region])
  {
    assert RegionIndex.RegionOk(s.layout, s.lists.place.Keys, s.region);
  }

  // The region is not free

  function Skipped(s: Pass): Pass
    requires 0 <= s.region < |s.layout.num|
  {
    s.(region := s.region + s.layout.num[s.region])
  }

  lemma SkipOk(s: Pass, c: Cluster)
    requires PassOk(s, c) && s.region < c.End() && s.region in s.lists.place && s.lists.place[s.region].Space?
    ensures 0 <= s.region < |s.layout.num| && PassOk(Skipped(s), c) && s.region < Skipped(s).region <= c.End()
    ensures !s.grown
  {
    NextRegion(s, c);
    var s2 := Skipped(s);
    SkipLaid(s, s2);
    SkipAdditions(s, s2, c, s.larges);
    SkipAdditions(s, s2, c, s.smalls);
    forall t | IsFree(s2.lists, t) && InCluster(c, t) && t < s2.region ensures FoundAt(s2, c, t) {
      BetweenRegions(s, t);
      assert FoundAt(s, c, t);
    }
  }

  lemma SkipLaid(s: Pass, s2: Pass)
    requires LaidOut(s) && s2.layout == s.layout && s2.lists == s.lists && !s.grown
    ensures LaidOut(s2)
  {
    forall t | t in s2.lists.place ensures OffsetsOk(s2.layout, t) {
      assert OffsetsOk(s.layout, t);
    }
  }

  lemma SkipAdditions(s: Pass, s2: Pass, c: Cluster, a: seq<int>)
    requires Additions(s, c, a) && s2.lists == s.lists && |s2.layout.num| == |s.layout.num|
    requires s2.links.next == s.links.next
    requires s2.region >= s.region
    ensures Additions(s2, c, a)
  {
    forall i | 0 <= i < |a| ensures AddedAt(s2, c, a[i]) {
      assert AddedAt(s, c, a[i]);
    }
    forall i | 0 <= i < |a| - 1 ensures OpenLink(s2.links.next, a, i) {
      assert OpenLink(s.links.next, a, i);
    }
  }

  // The region and the next one are free

  function Joined(s: Pass): Pass
    requires 0 <= s.region < |s.layout.num| && 0 <= s.region + s.layout.num[s.region] < |s.layout.num|
  {
    var n := s.region + s.layout.num[s.region];
    s.(layout := s.layout.(num := s.layout.num[s.region := s.layout.num[s.region] + s.layout.num[n]]),
       lists := Lists(s.lists.at, s.lists.place - {n}), grown := true)
  }

  lemma DropLoose(k: Links, l: Lists, n: int)
    requires ListsOk(k, l) && n in l.place && l.place[n] == Loose
    ensures ListsOk(k, Lists(l.at, l.place - {n}))
  {
    hide List, NoDuplicates, Doubly;
    var l2 := Lists(l.at, l.place - {n});
    forall p | p in l2.at ensures ListOk(k, l2, p) {
      assert ListOk(k, l, p) && Holds(l, p, n);
      forall x ensures Holds(l2, p, x) {
        assert Holds(l, p, x);
      }
    }
    forall x | x in l2.place ensures OwnerOk(k, l2, x) {
      assert OwnerOk(k, l, x);
    }
  }

  /** The size of a loose region does not matter for the lists. */
  lemma LooseSize(k: Links, l: Lists, num: seq<int>, num2: seq<int>, x: int)
    requires ListsOk(k, l) && SizesOk(l, num) && x in l.place && l.place[x] == Loose
    requires |num2| == |num| && (forall y :: 0 <= y < |num| && y != x ==> num2[y] == num[y])
    ensures SizesOk(l, num2)
  {
    ListAt(k, l, Small);
  }

  lemma JoinOk(s: Pass, c: Cluster)
    requires PassOk(s, c) && s.region < c.End() && IsFree(s.lists, s.region) && 0 <= s.region < |s.layout.num|
    requires s.region + s.layout.num[s.region] < c.End() && IsFree(s.lists, s.region + s.layout.num[s.region])
    ensures 0 <= s.region + s.layout.num[s.region] < |s.layout.num| && PassOk(Joined(s), c)
    ensures Joined(s).layout.num[s.region] > s.layout.num[s.region]
    ensures s.region + Joined(s).layout.num[s.region] <= c.End()
    ensures s.lists.place[s.region] == Loose && s.lists.place[s.region + s.layout.num[s.region]] == Loose
  {
    hide ListsOk, Tiled;
    NextRegion(s, c);
    var n, s2 := s.region + s.layout.num[s.region], Joined(s);
    JoinTiled(s.layout, s2.layout, s.lists.place.Keys, s.region);
    assert s2.lists.place.Keys == s.lists.place.Keys - {n};
    forall t | t in s2.lists.place && t != s.region ensures OffsetsOk(s2.layout, t) {
      assert OffsetsOk(s.layout, t);
    }
    DropLoose(s.links, s.lists, n);
    LooseSize(s.links, s.lists, s.layout.num, s2.layout.num, s.region);
    JoinAdditions(s, s2, c, s.larges);
    JoinAdditions(s, s2, c, s.smalls);
    JoinFound(s, c);
  }

  lemma JoinAdditions(s: Pass, s2: Pass, c: Cluster, a: seq<int>)
    requires Additions(s, c, a) && s2.links == s.links && s2.region == s.region && |s2.layout.num| == |s.layout.num|
    requires forall x ::
      x in s.lists.place && x < s.region ==> x in s2.lists.place && s2.lists.place[x] == s.lists.place[x]
    ensures Additions(s2, c, a)
  {
    forall i | 0 <= i < |a| ensures AddedAt(s2, c, a[i]) {
      assert AddedAt(s, c, a[i]);
    }
  }

  lemma JoinFound(s: Pass, c: Cluster)
    requires PassOk(s, c) && 0 <= s.region < |s.layout.num| && 0 < s.layout.num[s.region]
    requires 0 <= s.region + s.layout.num[s.region] < |s.layout.num|
    requires 0 < s.layout.num[s.region + s.layout.num[s.region]]
    requires IsFree(s.lists, s.region) && s.lists.place[s.region] == Loose
    requires IsFree(s.lists, s.region + s.layout.num[s.region])
    ensures Found(Joined(s), c)
  {
    hide LaidOut, LinkedUp;
    var s2 := Joined(s);
    forall t | IsFree(s2.lists, t) && InCluster(c, t) && t < s2.region ensures FoundAt(s2, c, t) {
      assert IsFree(s.lists, t) && FoundAt(s, c, t);
    }
    forall x | x in s2.smalls ensures 0 <= x < |s2.layout.num| && s2.layout.num[x] == 1 {
      AddedBefore(s, c, s.smalls, x);
    }
    forall x | x in s2.larges ensures 0 <= x < |s2.layout.num| && s2.layout.num[x] != 1 {
      AddedBefore(s, c, s.larges, x);
    }
  }

  lemma AddedBefore(s: Pass, c: Cluster, a: seq<int>, x: int)
    requires Additions(s, c, a) && x in a
    ensures AddedAt(s, c, x)
  {
    var i :| 0 <= i < |a| && a[i] == x;
    assert AddedAt(s, c, a[i]);
  }

  // The region is free and the next one is not, or there is none

  function Linked(next: seq<int>, a: seq<int>, x: int): seq<int>
    requires forall i :: 0 <= i < |a| ==> 0 <= a[i] < |next|
  {
    if a == [] then next else next[a[|a| - 1] := x]
  }

  /** The region is added to a list, and the offsets are those of the layout l2. */
  function Added(s: Pass, l2: Layout): Pass
    requires 0 <= s.region < |s.layout.num| && (forall i :: 0 <= i < |s.smalls| ==> 0 <= s.smalls[i] < |s.links.next|)
    requires forall i :: 0 <= i < |s.larges| ==> 0 <= s.larges[i] < |s.links.next|
  {
    var n := s.region + s.layout.num[s.region];
    if s.layout.num[s.region] == 1 then
      Pass(l2, s.links.(next := Linked(s.links.next, s.smalls, s.region)), s.lists, n, false, s.larges,
          s.smalls + [s.region])
    else
      Pass(l2, s.links.(next := Linked(s.links.next, s.larges, s.region)), s.lists, n, false, s.larges + [s.region],
          s.smalls)
  }

  lemma AdditionsInRange(s: Pass, c: Cluster)
    requires PassOk(s, c)
    ensures forall i :: 0 <= i < |s.smalls| ==> 0 <= s.smalls[i] < |s.links.next|
    ensures forall i :: 0 <= i < |s.larges| ==> 0 <= s.larges[i] < |s.links.next|
  {
    forall i | 0 <= i < |s.smalls| ensures 0 <= s.smalls[i] < |s.links.next| {
      assert AddedAt(s, c, s.smalls[i]);
    }
    forall i | 0 <= i < |s.larges| ensures 0 <= s.larges[i] < |s.links.next| {
      assert AddedAt(s, c, s.larges[i]);
    }
  }

  /** A list of additions gets another element. */
  lemma AppendAddition(s: Pass, s2: Pass, c: Cluster, a: seq<int>)
    requires Additions(s, c, a) && s.region in s.lists.place && s.lists.place[s.region] == Loose
    requires InCluster(c, s.region)
    requires 0 < s.region < |s.layout.num| && |s.links.next| == |s.layout.num|
    requires s2.lists == s.lists && s2.region > s.region && |s2.layout.num| == |s.layout.num|
    requires forall i :: 0 <= i < |a| ==> 0 <= a[i] < |s.links.next|
    requires s2.links.next == Linked(s.links.next, a, s.region)
    ensures Additions(s2, c, a + [s.region])
  {
    var b := a + [s.region];
    forall i | 0 <= i < |b| ensures AddedAt(s2, c, b[i]) && (i < |a| ==> b[i] < s.region) {
      if i < |a| {
        assert AddedAt(s, c, a[i]);
      }
    }
    forall i | 0 <= i < |b| - 1 ensures OpenLink(s2.links.next, b, i) {
      if i < |a| - 1 {
        assert OpenLink(s.links.next, a, i) && a[i] != a[|a| - 1];
      }
    }
  }

  /** The other list does not see it. */
  lemma KeepAdditions(s: Pass, s2: Pass, c: Cluster, a: seq<int>, b: seq<int>)
    requires Additions(s, c, a) && s2.lists == s.lists && s2.region > s.region && |s2.layout.num| == |s.layout.num|
    requires forall i :: 0 <= i < |b| ==> 0 <= b[i] < |s.links.next| && b[i] !in a
    requires s2.links.next == Linked(s.links.next, b, s.region)
    ensures Additions(s2, c, a)
  {
    forall i | 0 <= i < |a| ensures AddedAt(s2, c, a[i]) {
      assert AddedAt(s, c, a[i]);
    }
    forall i | 0 <= i < |a| - 1 ensures OpenLink(s2.links.next, a, i) {
      assert OpenLink(s.links.next, a, i) && a[i] in a;
    }
  }

  lemma AddLaid(s: Pass, s2: Pass, c: Cluster)
    requires PassOk(s, c) && s.region in s.lists.place && RegionIndex.RegionOk(s.layout, s.lists.place.Keys, s.region)
    requires s2.lists == s.lists && !s2.grown && s2.layout == s.layout.(off := s2.layout.off)
    requires |s2.layout.off| == |s.layout.off| && OffsetsOk(s2.layout, s.region)
    requires forall x :: 0 <= x < |s.layout.off| && !(s.region <= x < s.region + s.layout.num[s.region]) ==>
               s2.layout.off[x] == s.layout.off[x]
    ensures LaidOut(s2)
  {
    hide Tiled, Found, Additions, LinkedUp;
    forall t | t in s.lists.place && t != s.region ensures OffsetsOk(s.layout, t) {
    }
    InitIndexed(s.layout, s2.layout, s.lists.place.Keys, s.region);
    TiledOffsets(s.layout, s2.layout, s.lists.place.Keys);
  }

  lemma AddLinks(s: Pass, c: Cluster, a: seq<int>, k2: Links)
    requires LinkedUp(s) && Additions(s, c, a) && (forall i :: 0 <= i < |a| ==> 0 <= a[i] < |s.links.next|)
    requires k2 == s.links.(next := Linked(s.links.next, a, s.region))
    ensures ListsOk(k2, s.lists)
  {
    hide LinksOk, SpaceOk;
    if a != [] {
      var e := a[|a| - 1];
      assert AddedAt(s, c, e);
      ListAt(s.links, s.lists, Large);
      LooseLinks(s.links, k2, s.lists, e);
      SpacesFrame(s.links, s.lists, k2, s.lists);
    } else {
      assert k2 == s.links;
    }
  }

  lemma AddFound(s: Pass, s2: Pass, c: Cluster)
    requires PassOk(s, c) && s.region < c.End() && 0 <= s.region < |s.layout.num| && s.region in s.lists.place
    requires Apart(s.lists, s.layout.num, c.End(), s.region) && s2.lists == s.lists && s2.layout.num == s.layout.num
    requires s2.region == s.region + s.layout.num[s.region]
    requires if s.layout.num[s.region] == 1 then s2.smalls == s.smalls + [s.region] && s2.larges == s.larges
             else s2.larges == s.larges + [s.region] && s2.smalls == s.smalls
    ensures Found(s2, c)
  {
    hide LinkedUp, Additions, Tiled;
    forall t | IsFree(s2.lists, t) && InCluster(c, t) && t < s2.region ensures FoundAt(s2, c, t) {
      BetweenRegions(s, t);
      if t != s.region {
        assert FoundAt(s, c, t);
      }
    }
    forall x | x in s2.smalls ensures 0 <= x < |s2.layout.num| && s2.layout.num[x] == 1 {
      assert x in s.smalls || x == s.region;
    }
    forall x | x in s2.larges ensures 0 <= x < |s2.layout.num| && s2.layout.num[x] != 1 {
      assert x in s.larges || x == s.region;
    }
    forall t | IsFree(s2.lists, t) && InCluster(c, t) && t >= s2.region ensures s2.lists.place[t] == Loose {
      SizeAt(s);
      assert t >= s.region;
    }
  }

  lemma SizeAt(s: Pass)
    requires LaidOut(s) && s.region in s.lists.place
    ensures 0 <= s.region < |s.layout.num| && 0 < s.layout.num[s.region]
  {
    assert RegionIndex.RegionOk(s.layout, s.lists.place.Keys, s.region);
  }

  lemma AddOk(s: Pass, c: Cluster, l2: Layout)
    requires PassOk(s, c) && s.region < c.End() && IsFree(s.lists, s.region) && 0 <= s.region < |s.layout.num|
    requires Apart(s.lists, s.layout.num, c.End(), s.region)
    requires l2 == s.layout.(off := l2.off) && |l2.off| == |s.layout.off| && OffsetsOk(l2, s.region)
    requires forall x ::
      0 <= x < |s.layout.off| && !(s.region <= x < s.region + s.layout.num[s.region]) ==> l2.off[x] == s.layout.off[x]
    ensures forall i :: 0 <= i < |s.smalls| ==> 0 <= s.smalls[i] < |s.links.next|
    ensures forall i :: 0 <= i < |s.larges| ==> 0 <= s.larges[i] < |s.links.next|
    ensures PassOk(Added(s, l2), c) && s.region < Added(s, l2).region <= c.End()
  {
    hide LaidOut, ListsOk, Additions, Apart, SizesOk;
    NextRegion(s, c);
    AdditionsInRange(s, c);
    var s2 := Added(s, l2);
    AddLaid(s, s2, c);
    AddFound(s, s2, c);
    assert s.lists.place[s.region] == Loose;
    AdditionsDisjoint(s, c);
    if s.layout.num[s.region] == 1 {
      AddLinks(s, c, s.smalls, s2.links);
      AppendAddition(s, s2, c, s.smalls);
      KeepAdditions(s, s2, c, s.larges, s.smalls);
    } else {
      AddLinks(s, c, s.larges, s2.links);
      AppendAddition(s, s2, c, s.larges);
      KeepAdditions(s, s2, c, s.smalls, s.larges);
    }
    AddAt(s, s2, c);
  }

  lemma AdditionsDisjoint(s: Pass, c: Cluster)
    requires Found(s, c)
    ensures forall i :: 0 <= i < |s.smalls| ==> s.smalls[i] !in s.larges
    ensures forall i :: 0 <= i < |s.larges| ==> s.larges[i] !in s.smalls
  {
    forall i | 0 <= i < |s.smalls| ensures s.smalls[i] !in s.larges {
      AddedSize(s, c, s.smalls[i]);
      assert s.smalls[i] in s.smalls;
    }
    forall i | 0 <= i < |s.larges| ensures s.larges[i] !in s.smalls {
      AddedSize(s, c, s.larges[i]);
      assert s.larges[i] in s.larges;
    }
  }

  lemma AddedSize(s: Pass, c: Cluster, x: int)
    requires Found(s, c)
    ensures !(x in s.smalls && x in s.larges)
  {
  }

  lemma AddAt(s: Pass, s2: Pass, c: Cluster)
    requires PassOk(s, c) && s.region < c.End() && 0 <= s.region < |s.layout.num|
    requires s2.lists == s.lists && s2.region == s.region + s.layout.num[s.region] && !s2.grown
    ensures AtRegion(s2, c)
  {
    NextRegion(s, c);
  }

  // What the pass leaves as it was

  ghost predicate StaysAt(l0: Lists, l1: Lists, num0: seq<int>, num1: seq<int>, x: int) {
    x in l0.place && x in l1.place && l1.place[x] == l0.place[x] && 0 <= x < |num0| == |num1| && num1[x] == num0[x]
  }

  /** Regions only disappear, and none that is not free, or in another cluster. */
  ghost predicate Since(l0: Lists, num0: seq<int>, s: Pass, c: Cluster) {
    && s.lists.at == l0.at && |s.layout.num| == |num0|
    && (forall x :: x in s.lists.place ==> x in l0.place && s.lists.place[x] == l0.place[x])
    && (forall x :: x in l0.place && (l0.place[x].Space? || !InCluster(c, x)) ==>
        StaysAt(l0, s.lists, num0, s.layout.num, x))
  }

  lemma SinceJoined(l0: Lists, num0: seq<int>, s: Pass, c: Cluster)
    requires Since(l0, num0, s, c) && 0 <= s.region < |s.layout.num|
    requires 0 <= s.region + s.layout.num[s.region] < |s.layout.num|
    requires s.region in s.lists.place && s.lists.place[s.region] == Loose && InCluster(c, s.region)
    requires
      var n := s.region + s.layout.num[s.region];
      n in s.lists.place && s.lists.place[n] == Loose && InCluster(c, n)
    ensures Since(l0, num0, Joined(s), c)
  {
    forall x | x in l0.place && (l0.place[x].Space? || !InCluster(c, x))
      ensures StaysAt(l0, Joined(s).lists, num0, Joined(s).layout.num, x) {
      assert StaysAt(l0, s.lists, num0, s.layout.num, x);
    }
  }

  // The additions are put in front of the free lists

  function Prepended(l: Lists, p: Place, a: seq<int>): Lists
    requires p in l.at
  {
    Lists(l.at[p := a + l.at[p]], map x | x in l.place :: if x in a then p else l.place[x])
  }

  ghost predicate Prependable(k: Links, l: Lists, p: Place, a: seq<int>)
    requires IsPlace(p) && Sizes(k)
  {
    && NoDuplicates(a) && (forall i :: 0 <= i < |a| ==> LooseAt(k, l, a[i]))
    && (forall i :: 0 <= i < |a| - 1 ==> OpenLink(k.next, a, i))
    && (a != [] ==> 0 <= a[|a| - 1] < |k.next| && k.next[a[|a| - 1]] == Head(k, p))
  }

  ghost predicate LooseAt(k: Links, l: Lists, x: int) {
    x in l.place && l.place[x] == Loose && 0 < x < |k.next|
  }

  function FirstOf(a: seq<int>, head: int): int {
    if a == [] then head else a[0]
  }

  lemma {:induction false} PrependOk(k: Links, l: Lists, p: Place, a: seq<int>)
    requires LinksOk(k, l) && p in {Large, Small} && p in l.at && Prependable(k, l, p, a)
    ensures LinksOk(WithHead(k, p, FirstOf(a, Head(k, p))), Prepended(l, p, a))
  {
    hide LinksOk;
    ListAt(k, l, p);
    if a == [] {
      assert a + l.at[p] == l.at[p];
      assert Prepended(l, p, a).at == l.at && Prepended(l, p, a).place == l.place;
    } else {
      var e, r := a[0], a[1..];
      assert LooseAt(k, l, e);
      PrependRest(k, l, p, a);
      PrependOk(k, l, p, r);
      var k1, l1 := WithHead(k, p, FirstOf(r, Head(k, p))), Prepended(l, p, r);
      PrependOne(k1, l1, p, e);
      assert [e] + (r + l.at[p]) == a + l.at[p];
      assert Put(l1, p, [e] + l1.at[p], e, p).place == Prepended(l, p, a).place;
      assert Put(l1, p, [e] + l1.at[p], e, p) == Prepended(l, p, a);
    }
  }

  lemma PrependRest(k: Links, l: Lists, p: Place, a: seq<int>)
    requires IsPlace(p) && Sizes(k) && Prependable(k, l, p, a) && a != []
    ensures Prependable(k, l, p, a[1..]) && a[0] !in a[1..]
    ensures 0 <= a[0] < |k.next| && k.next[a[0]] == FirstOf(a[1..], Head(k, p))
  {
    assert LooseAt(k, l, a[0]);
    assert |a| > 1 ==> OpenLink(k.next, a, 0);
    var r := a[1..];
    forall i | 0 <= i < |r| ensures LooseAt(k, l, r[i]) && r[i] != a[0] {
      assert r[i] == a[i + 1] && LooseAt(k, l, a[i + 1]);
    }
    forall i | 0 <= i < |r| - 1 ensures OpenLink(k.next, r, i) {
      assert OpenLink(k.next, a, i + 1);
    }
  }

  /** A loose region that is already linked to the first of a list. */
  lemma PrependOne(k: Links, l: Lists, p: Place, e: int)
    requires LinksOk(k, l) && p in {Large, Small} && p in l.at && e in l.place && l.place[e] == Loose
    requires Sizes(k) && 0 < e < |k.next| && k.next[e] == Head(k, p)
    ensures LinksOk(WithHead(k, p, e), Put(l, p, [e] + l.at[p], e, p))
  {
    hide LinksOk;
    PushOk(k, l, p, e);
    LooseOwner(k, l, e);
    SameLinks(Push(k, p, e), WithHead(k, p, e), Put(l, p, [e] + l.at[p], e, p));
  }

  lemma LooseOwner(k: Links, l: Lists, e: int)
    requires LinksOk(k, l) && e in l.place && l.place[e] == Loose
    ensures Sizes(k) && 0 < e < |k.next| && k.owner[e] == NO_SPACE
  {
    assert OwnerOk(k, l, e);
  }

  /** The links once the last one of the additions leads to the free list, whose first they are now. */
  function Finished(k: Links, p: Place, a: seq<int>): Links
    requires IsPlace(p) && Sizes(k) && (forall i :: 0 <= i < |a| ==> 0 <= a[i] < |k.next|)
  {
    WithHead(k.(next := Linked(k.next, a, Head(k, p))), p, FirstOf(a, Head(k, p)))
  }

  ghost predicate Open(k: Links, l: Lists, a: seq<int>) {
    && NoDuplicates(a) && (forall i :: 0 <= i < |a| ==> LooseAt(k, l, a[i]))
    && (forall i :: 0 <= i < |a| - 1 ==> OpenLink(k.next, a, i))
  }

  lemma FinishOk(k: Links, l: Lists, p: Place, a: seq<int>)
    requires ListsOk(k, l) && p in {Large, Small} && p in l.at && Open(k, l, a)
    ensures Sizes(k) && (forall i :: 0 <= i < |a| ==> 0 <= a[i] < |k.next|)
    ensures ListsOk(Finished(k, p, a), Prepended(l, p, a))
  {
    hide LinksOk, Doubly;
    ListAt(k, l, p);
    forall i | 0 <= i < |a| ensures 0 <= a[i] < |k.next| {
      assert LooseAt(k, l, a[i]);
    }
    var k1 := k.(next := Linked(k.next, a, Head(k, p)));
    if a != [] {
      assert LooseAt(k, l, a[|a| - 1]);
      LooseLinks(k, k1, l, a[|a| - 1]);
    } else {
      assert k1 == k;
    }
    forall i | 0 <= i < |a| ensures LooseAt(k1, l, a[i]) {
      assert LooseAt(k, l, a[i]);
    }
    forall i | 0 <= i < |a| - 1 ensures OpenLink(k1.next, a, i) {
      assert OpenLink(k.next, a, i);
    }
    PrependOk(k1, l, p, a);
    SpacesFrame(k, l, Finished(k, p, a), Prepended(l, p, a));
  }

  lemma AdditionsOpen(s: Pass, c: Cluster, a: seq<int>)
    requires Additions(s, c, a) && |s.links.next| == |s.layout.num|
    ensures Open(s.links, s.lists, a)
  {
    forall i | 0 <= i < |a| ensures LooseAt(s.links, s.lists, a[i]) {
      assert AddedAt(s, c, a[i]);
    }
  }

  /** The other additions are still open after the first are finished. */
  lemma StillOpen(k: Links, l: Lists, p: Place, a: seq<int>, b: seq<int>)
    requires Open(k, l, a) && Open(k, l, b) && IsPlace(p) && Sizes(k) && p in l.at
    requires forall i :: 0 <= i < |a| ==> 0 <= a[i] < |k.next| && a[i] !in b
    requires forall i :: 0 <= i < |b| ==> b[i] !in a
    ensures Open(Finished(k, p, a), Prepended(l, p, a), b)
  {
    var k2, l2 := Finished(k, p, a), Prepended(l, p, a);
    forall i | 0 <= i < |b| ensures LooseAt(k2, l2, b[i]) {
      assert LooseAt(k, l, b[i]);
    }
    forall i | 0 <= i < |b| - 1 ensures OpenLink(k2.next, b, i) {
      assert OpenLink(k.next, b, i) && b[i] in b;
    }
  }

  function AllFinished(k: Links, larges: seq<int>, smalls: seq<int>): Links
    requires Sizes(k) && (forall i :: 0 <= i < |larges| ==> 0 <= larges[i] < |k.next|)
    requires forall i :: 0 <= i < |smalls| ==> 0 <= smalls[i] < |k.next|
  {
    Finished(Finished(k, Large, larges), Small, smalls)
  }

  function AllPrepended(l: Lists, larges: seq<int>, smalls: seq<int>): Lists
    requires Large in l.at && Small in l.at
  {
    Prepended(Prepended(l, Large, larges), Small, smalls)
  }

  lemma PassLinks(s: Pass, c: Cluster)
    requires PassOk(s, c) && s.region == c.End()
    ensures Sizes(s.links) && Large in s.lists.at && Small in s.lists.at
    ensures forall i :: 0 <= i < |s.larges| ==> 0 <= s.larges[i] < |s.links.next|
    ensures forall i :: 0 <= i < |s.smalls| ==> 0 <= s.smalls[i] < |s.links.next|
    ensures ListsOk(AllFinished(s.links, s.larges, s.smalls), AllPrepended(s.lists, s.larges, s.smalls))
    ensures |AllFinished(s.links, s.larges, s.smalls).next| == |s.links.next| == |s.layout.num|
  {
    hide LinksOk, SpaceOk, Additions, Found, LaidOut, Open, Prepended;
    AdditionsInRange(s, c);
    AdditionsDisjoint(s, c);
    ListAt(s.links, s.lists, Large);
    ListAt(s.links, s.lists, Small);
    AdditionsOpen(s, c, s.larges);
    AdditionsOpen(s, c, s.smalls);
    FinishOk(s.links, s.lists, Large, s.larges);
    StillOpen(s.links, s.lists, Large, s.larges, s.smalls);
    PrependedKeeps(s.lists, Large, s.larges);
    FinishOk(Finished(s.links, Large, s.larges), Prepended(s.lists, Large, s.larges), Small, s.smalls);
  }

  lemma PrependedKeeps(l: Lists, p: Place, a: seq<int>)
    requires p in l.at
    ensures Prepended(l, p, a).at.Keys == l.at.Keys && Prepended(l, p, a).place.Keys == l.place.Keys
    ensures forall q :: q in l.at && q != p ==> Prepended(l, p, a).at[q] == l.at[q]
    ensures forall x :: x in l.place ==> Prepended(l, p, a).place[x] == if x in a then p else l.place[x]
  {
  }

  // The pass over a cluster

  ghost predicate DoneAt(l: Lists, num: seq<int>, c: Cluster, t: int) {
    t in l.place && l.place[t] != Loose && Apart(l, num, c.End(), t)
  }

  /** The free regions of the cluster are in the free lists, and no two of them are adjacent. */
  ghost predicate ClusterDone(l: Lists, num: seq<int>, c: Cluster) {
    forall t :: IsFree(l, t) && InCluster(c, t) ==> DoneAt(l, num, c, t)
  }

  /** Regions only disappear, and none that is not free, or in another cluster; and free ones stay free. */
  ghost predicate Compacted(l0: Lists, num0: seq<int>, l1: Lists, num1: seq<int>, c: Cluster) {
    && |num1| == |num0|
    && (forall x :: x in l1.place ==> x in l0.place && (l1.place[x] == l0.place[x] || (IsFree(l0, x) && IsFree(l1, x))))
    && (forall x :: x in l0.place && (l0.place[x].Space? || !InCluster(c, x)) ==> StaysAt(l0, l1, num0, num1, x))
    && (forall j :: 0 <= j < 2 && Space(j) in l0.at ==> Space(j) in l1.at && l1.at[Space(j)] == l0.at[Space(j)])
  }

  lemma PassDone(l0: Lists, num0: seq<int>, s: Pass, c: Cluster)
    requires PassOk(s, c) && s.region == c.End() && Since(l0, num0, s, c)
    ensures Large in s.lists.at && Small in s.lists.at
    ensures var l2 := AllPrepended(s.lists, s.larges, s.smalls);
            l2.place.Keys == s.lists.place.Keys && SizesOk(l2, s.layout.num) && ClusterDone(l2, s.layout.num, c)
            && Compacted(l0, num0, l2, s.layout.num, c)
  {
    hide LaidOut, ListsOk, Since;
    var l1 := Prepended(s.lists, Large, s.larges);
    var l2 := Prepended(l1, Small, s.smalls);
    PrependedKeeps(s.lists, Large, s.larges);
    PrependedKeeps(l1, Small, s.smalls);
    forall x | x in s.larges || x in s.smalls ensures AddedAt(s, c, x) {
      if x in s.larges {
        AddedBefore(s, c, s.larges, x);
      } else {
        AddedBefore(s, c, s.smalls, x);
      }
    }
    assert forall x :: x in s.lists.place && s.lists.place[x] != Loose ==> l2.place[x] == s.lists.place[x];
    forall t | IsFree(l2, t) && InCluster(c, t) ensures DoneAt(l2, s.layout.num, c, t) {
      assert IsFree(s.lists, t) && FoundAt(s, c, t);
    }
    PrependedCompacted(l0, num0, s, l2, c);
  }

  lemma PrependedCompacted(l0: Lists, num0: seq<int>, s: Pass, l2: Lists, c: Cluster)
    requires Since(l0, num0, s, c) && l2.place.Keys == s.lists.place.Keys
    requires forall x :: x in s.lists.place && s.lists.place[x] != Loose ==> l2.place[x] == s.lists.place[x]
    requires forall x :: x in s.lists.place && !InCluster(c, x) ==> l2.place[x] == s.lists.place[x]
    requires forall x :: x in s.lists.place && s.lists.place[x] == Loose ==> !l2.place[x].Space?
    requires forall j ::
      0 <= j < 2 && Space(j) in s.lists.at ==> Space(j) in l2.at && l2.at[Space(j)] == s.lists.at[Space(j)]
    ensures Compacted(l0, num0, l2, s.layout.num, c)
  {
    forall x | x in l0.place && (l0.place[x].Space? || !InCluster(c, x))
      ensures StaysAt(l0, l2, num0, s.layout.num, x)
    {
      assert StaysAt(l0, s.lists, num0, s.layout.num, x);
    }
  }

  ghost predicate NoneIn(l: Lists, i: int) {
    forall x :: x in l.place ==> l.place[x] != Space(i)
  }

  ghost predicate AllLoose(l: Lists, c: Cluster) {
    forall x :: IsFree(l, x) && InCluster(c, x) ==> l.place[x] == Loose
  }

  /** With the old space empty, the regions that are not in the new space are free. */
  lemma OwnerTells(k: Links, l: Lists, newspace: int, x: int)
    requires ListsOk(k, l) && NoneIn(l, 1 - newspace) && 0 <= newspace < 2 && x in l.place
    ensures 0 < x < |k.owner| && (k.owner[x] != newspace <==> IsFree(l, x))
  {
    assert OwnerOk(k, l, x);
  }

  lemma PassStart(layout: Layout, links: Links, l: Lists, heapBase: int, top: int, c: Cluster)
    requires LayoutOk(layout, l.place.Keys, heapBase, top) && ListsOk(links, l) && SizesOk(l, layout.num)
    requires |links.next| == |layout.num| && c in layout.clusters && AllLoose(l, c)
    ensures PassOk(Pass(layout, links, l, c.first, false, [], []), c) && c.first <= c.End()
    ensures Since(l, layout.num, Pass(layout, links, l, c.first, false, [], []), c)
  {
    var i :| 0 <= i < |layout.clusters| && layout.clusters[i] == c;
    assert ClusterOk(layout, i);
    forall x | x in l.place ensures 0 <= x < |layout.num| {
    }
  }

  lemma PassLayout(s: Pass, c: Cluster, l0: Layout, starts0: set<int>, heapBase: int, top: int)
    requires PassOk(s, c) && s.region == c.End() && LayoutOk(l0, starts0, heapBase, top)
    requires s.layout.clusters == l0.clusters && s.layout.block == l0.block
    ensures LayoutOk(s.layout, s.lists.place.Keys, heapBase, top)
  {
    hide Tiled;
    forall t | t in s.lists.place ensures OffsetsOk(s.layout, t) {
    }
  }

  function LastOf(a: seq<int>): int {
    if a == [] then 0 else a[|a| - 1]
  }

  /** What the pass finds at its region. */
  lemma PassAt(s: Pass, c: Cluster, l0: Lists, num0: seq<int>, newspace: int)
    requires PassOk(s, c) && s.region < c.End() && Since(l0, num0, s, c) && NoneIn(l0, 1 - newspace)
    requires 0 <= newspace < 2
    ensures 0 < s.region < |s.layout.num| == |s.links.owner| == |s.links.next| && 0 < s.layout.num[s.region]
    ensures s.region + s.layout.num[s.region] <= |s.layout.off| == |s.layout.num|
    ensures s.region in s.lists.place && InCluster(c, s.region) && s.region + s.layout.num[s.region] <= c.End()
    ensures s.links.owner[s.region] != newspace <==> IsFree(s.lists, s.region)
    ensures var n := s.region + s.layout.num[s.region];
            n < c.End() ==> n < |s.links.owner| && (s.links.owner[n] != newspace <==> IsFree(s.lists, n))
                            && InCluster(c, n) && n in s.lists.place && 0 < s.layout.num[n]
    ensures IsFree(s.lists, s.region) ==> s.links.owner[s.region] == NO_SPACE
    ensures !s.grown ==> OffsetsOk(s.layout, s.region)
  {
    hide Additions, Found, Tiled;
    NextRegion(s, c);
    var n := s.region + s.layout.num[s.region];
    assert s.region in l0.place && (n < c.End() ==> n in l0.place);
    PassNone(s, c, l0, num0, newspace);
    OwnerTells(s.links, s.lists, newspace, s.region);
    if n < c.End() {
      OwnerTells(s.links, s.lists, newspace, n);
    }
    LooseOrListed(s, c, newspace);
  }

  lemma PassNone(s: Pass, c: Cluster, l0: Lists, num0: seq<int>, newspace: int)
    requires Since(l0, num0, s, c) && NoneIn(l0, 1 - newspace)
    ensures NoneIn(s.lists, 1 - newspace)
  {
  }

  lemma LooseOrListed(s: Pass, c: Cluster, newspace: int)
    requires PassOk(s, c) && s.region in s.lists.place && s.region < c.End()
    ensures |s.links.owner| == |s.links.next| == |s.layout.num| == |s.layout.off| && 0 < s.region < |s.links.owner|
    ensures IsFree(s.lists, s.region) ==> s.links.owner[s.region] == NO_SPACE
    ensures 0 < s.region < |s.layout.num| && s.region + s.layout.num[s.region] <= |s.layout.num|
  {
    assert OwnerOk(s.links, s.lists, s.region);
    assert RegionIndex.RegionOk(s.layout, s.lists.place.Keys, s.region);
    assert ClusterOk(s.layout, ClusterOf(s.layout, s.region));
  }

  lemma LastAdded(s: Pass, c: Cluster)
    requires PassOk(s, c)
    ensures forall i :: 0 <= i < |s.smalls| ==> 0 <= s.smalls[i] < |s.links.next|
    ensures forall i :: 0 <= i < |s.larges| ==> 0 <= s.larges[i] < |s.links.next|
    ensures (LastOf(s.larges) == 0 <==> s.larges == []) && (LastOf(s.smalls) == 0 <==> s.smalls == [])
  {
    AdditionsInRange(s, c);
    if s.larges != [] {
      assert AddedAt(s, c, s.larges[|s.larges| - 1]);
    }
    if s.smalls != [] {
      assert AddedAt(s, c, s.smalls[|s.smalls| - 1]);
    }
  }

  lemma SinceSame(l0: Lists, num0: seq<int>, s: Pass, s2: Pass, c: Cluster)
    requires Since(l0, num0, s, c) && s2.lists == s.lists && s2.layout.num == s.layout.num
    ensures Since(l0, num0, s2, c)
  {
    forall x | x in l0.place && (l0.place[x].Space? || !InCluster(c, x))
      ensures StaysAt(l0, s2.lists, num0, s2.layout.num, x)
    {
      assert StaysAt(l0, s.lists, num0, s.layout.num, x);
    }
  }

  /** The offsets of a region that has grown are set up. */
  method InitGrown(h: RegionHeap, region: int)
    requires |h.layout.num| == |h.layout.off| == |h.smallObjects| == |h.links.owner| && 0 < region < |h.layout.num|
    requires 0 < h.layout.num[region] && region + h.layout.num[region] <= |h.layout.off|
    requires h.links.owner[region] == NO_SPACE
    modifies h`layout, h`smallObjects, h`links
    ensures h.layout == old(h.layout).(off := h.layout.off) && |h.layout.off| == |old(h.layout).off|
    ensures OffsetsOk(h.layout, region) && h.links == old(h.links) && |h.smallObjects| == |old(h.smallObjects)|
    ensures forall x :: 0 <= x < |h.layout.off| && !(region <= x < region + h.layout.num[region]) ==>
              h.layout.off[x] == old(h.layout).off[x]
  {
    h.InitRegion(region, h.layout.num[region]);
    h.links := h.links.(owner := h.links.owner[region := NO_SPACE]);
    assert h.layout.num == old(h.layout).num && h.links.owner == old(h.links).owner;
  }

  /** The statements that close the additions. */
  lemma FinishedIs(k: Links, larges: seq<int>, smalls: seq<int>, k2: Links, large: int, small: int)
    requires Sizes(k) && (forall i :: 0 <= i < |larges| ==> 0 <= larges[i] < |k.next|)
    requires forall i :: 0 <= i < |smalls| ==> 0 <= smalls[i] < |k.next|
    requires large == FirstOf(larges, k.large) && small == FirstOf(smalls, k.small)
    requires k2 == k.(next := Linked(Linked(k.next, larges, k.large), smalls, k.small), large := large, small := small)
    ensures k2 == AllFinished(k, larges, smalls)
  {
  }

  /** The first and the last of the additions, 0 when there are none yet. */
  datatype Ends = Ends(first: int, last: int)

  function EndsOf(a: seq<int>): Ends {
    Ends(Following(a, -1), LastOf(a))
  }

  /** The last link of the additions, which are a, leads to the region. */
  method AddRegion(h: RegionHeap, region: int, ends: Ends, ghost a: seq<int>) returns (first: int)
    requires (forall i :: 0 <= i < |a| ==> 0 <= a[i] < |h.links.next|) && ends == EndsOf(a)
    requires ends.last == 0 <==> a == []
    modifies h`links
    ensures h.links == old(h.links).(next := Linked(old(h.links).next, a, region)) && first == FirstOf(a, region)
  {
    first := ends.first;
    if ends.last == 0 {
      first := region;
    } else {
      h.links := h.links.(next := h.links.next[ends.last := region]);
    }
  }

  ghost function Now(h: RegionHeap, region: int, grown: bool, larges: seq<int>, smalls: seq<int>): Pass
    reads h`layout, h`links, h`lists
  {
    Pass(h.layout, h.links, h.lists, region, grown, larges, smalls)
  }

  /** A free region that is not joined with the next one is added to the large or to the small ones. */
  method AddFree(h: RegionHeap, ghost c: Cluster, region: int, grown: bool, large: Ends, small: Ends,
        ghost larges: seq<int>,
                 ghost smalls: seq<int>, ghost l0: Lists, ghost num0: seq<int>)
    returns (large2: Ends, small2: Ends, ghost larges2: seq<int>, ghost smalls2: seq<int>)
    requires PassOk(Now(h, region, grown, larges, smalls), c)
    requires Since(l0, num0, Now(h, region, grown, larges, smalls), c)
    requires region < c.End() && NoneIn(l0, 1 - h.newspace) && 0 <= h.newspace < 2 && IsFree(h.lists, region)
    requires |h.smallObjects| == |h.layout.num| && 0 <= region < |h.layout.num|
    requires Apart(h.lists, h.layout.num, c.End(), region)
    requires large == EndsOf(larges) && small == EndsOf(smalls)
    modifies h`layout, h`smallObjects, h`links
    ensures h.layout == old(h.layout).(off := h.layout.off) && |h.smallObjects| == |old(h.smallObjects)|
    ensures PassOk(Now(h, region + h.layout.num[region], false, larges2, smalls2), c)
    ensures Since(l0, num0, Now(h, region + h.layout.num[region], false, larges2, smalls2), c)
    ensures large2 == EndsOf(larges2) && small2 == EndsOf(smalls2)
    ensures region < region + h.layout.num[region] <= c.End()
  {
    hide LayoutOk, ListsOk, SizesOk, PassOk, Since, Apart;
    ghost var s := Now(h, region, grown, larges, smalls);
    large2, small2, larges2, smalls2 := large, small, larges, smalls;
    PassAt(s, c, l0, num0, h.newspace);
    LastAdded(s, c);
    if grown {
      InitGrown(h, region);
    }
    AddOk(s, c, h.layout);
    SinceSame(l0, num0, s, Added(s, h.layout), c);
    if h.layout.num[region] == 1 {
      var first := AddRegion(h, region, small, smalls);
      small2 := Ends(first, region);
      smalls2 := smalls + [region];
    } else {
      var first := AddRegion(h, region, large, larges);
      large2 := Ends(first, region);
      larges2 := larges + [region];
    }
    assert Now(h, region + h.layout.num[region], false, larges2, smalls2) == Added(s, h.layout);
  }

  /** The additions are put in front of the free lists. */
  method CloseAdditions(h: RegionHeap, ghost c: Cluster, large: Ends, small: Ends, ghost larges: seq<int>,
        ghost smalls: seq<int>)
    requires PassOk(Now(h, c.End(), false, larges, smalls), c) && large == EndsOf(larges) && small == EndsOf(smalls)
    modifies h`links, h`lists
    ensures Large in old(h.lists).at && Small in old(h.lists).at
    ensures h.lists == AllPrepended(old(h.lists), larges, smalls)
    ensures ListsOk(h.links, h.lists) && |h.links.next| == |h.layout.num|
  {
    hide PassOk, ListsOk, AllFinished, AllPrepended;
    ghost var s := Now(h, c.End(), false, larges, smalls);
    LastAdded(s, c);
    PassLinks(s, c);
    var firstLarge := AddRegion(h, h.links.large, large, larges);
    var firstSmall := AddRegion(h, h.links.small, small, smalls);
    h.links := h.links.(large := firstLarge, small := firstSmall);
    h.lists := AllPrepended(h.lists, larges, smalls);
    FinishedIs(s.links, larges, smalls, h.links, firstLarge, firstSmall);
  }

  /** compact_cluster */
  method CompactCluster(h: RegionHeap, c: Cluster)
    requires h.Laid() && c in h.layout.clusters && NoneIn(h.lists, h.oldspace) && AllLoose(h.lists, c)
    modifies h`layout, h`smallObjects, h`links, h`lists
    ensures h.Laid() && ClusterDone(h.lists, h.layout.num, c)
    ensures Compacted(old(h.lists), old(h.layout).num, h.lists, h.layout.num, c)
    ensures h.layout.clusters == old(h.layout).clusters && h.layout.block == old(h.layout).block
  {
    hide LayoutOk, ListsOk, SizesOk, PassOk, Since, ClusterDone, Compacted, AllPrepended;
    ghost var l0, y0 := h.lists, h.layout;
    PassStart(h.layout, h.links, h.lists, h.heapBase, h.top, c);
    var region, end, grown := c.first, c.End(), false;
    var large, small := Ends(0, 0), Ends(0, 0);
    ghost var larges, smalls := [], [];
    while region < end
      invariant PassOk(Now(h, region, grown, larges, smalls), c) && region <= end
      invariant Since(l0, y0.num, Now(h, region, grown, larges, smalls), c)
      invariant |h.smallObjects| == |h.layout.num| && h.layout.clusters == y0.clusters && h.layout.block == y0.block
      invariant large == EndsOf(larges) && small == EndsOf(smalls) && (region == end ==> !grown)
      decreases end - region, if 0 <= region < |h.layout.num| then end - h.layout.num[region] else 0
    {
      ghost var s := Now(h, region, grown, larges, smalls);
      PassAt(s, c, l0, y0.num, h.newspace);
      var next := region + h.layout.num[region];
      if h.links.owner[region] != h.newspace {
        if next < end && h.links.owner[next] != h.newspace {
          JoinOk(s, c);
          SinceJoined(l0, y0.num, s, c);
          h.layout := h.layout.(num := h.layout.num[region := h.layout.num[region] + h.layout.num[next]]);
          h.lists := Lists(h.lists.at, h.lists.place - {next});
          grown := true;
        } else {
          large, small, larges, smalls := AddFree(h, c, region, grown, large, small, larges, smalls, l0, y0.num);
          grown := false;
          region := next;
        }
      } else {
        SkipOk(s, c);
        SinceSame(l0, y0.num, s, Skipped(s), c);
        region := next;
      }
    }
    ghost var s := Now(h, region, false, larges, smalls);
    PassDone(l0, y0.num, s, c);
    PassLayout(s, c, y0, l0.place.Keys, h.heapBase, h.top);
    CloseAdditions(h, c, large, small, larges, smalls);
  }

  // --- All clusters

  /** The lists once the free ones have been forgotten. */
  function Forgotten(l: Lists): Lists {
    Lists(l.at[Large := []][Small := []], map x | x in l.place :: if l.place[x].Space? then l.place[x] else Loose)
  }

  lemma ForgetOk(k: Links, l: Lists, num: seq<int>)
    requires ListsOk(k, l) && SizesOk(l, num)
    ensures ListsOk(k.(large := 0, small := 0), Forgotten(l)) && SizesOk(Forgotten(l), num)
    ensures Forgotten(l).place.Keys == l.place.Keys
  {
    hide List, Doubly, NoDuplicates;
    var k2, l2 := k.(large := 0, small := 0), Forgotten(l);
    forall p | p in l2.at ensures ListOk(k2, l2, p) {
      assert ListOk(k, l, p);
      EmptyList(k.next);
      forall x ensures Holds(l2, p, x) {
        assert Holds(l, p, x);
        assert x in l.place ==> OwnerOk(k, l, x);
      }
    }
    forall x | x in l2.place ensures OwnerOk(k2, l2, x) {
      assert OwnerOk(k, l, x);
    }
  }

  lemma EmptyList(next: seq<int>)
    ensures List(next, 0, []) && NoDuplicates([])
  {
  }

  /** No two free regions of a cluster are adjacent. */
  ghost predicate Coalesced(layout: Layout, l: Lists) {
    forall t :: IsFree(l, t) ==> ApartIn(layout, l, t)
  }

  ghost predicate ApartIn(layout: Layout, l: Lists, t: int) {
    && 0 <= t < |layout.num| && 0 <= ClusterOf(layout, t) < |layout.clusters|
    && Apart(l, layout.num, layout.clusters[ClusterOf(layout, t)].End(), t)
  }

  /** Regions in the spaces stay as they are, and none becomes one. */
  ghost predicate Kept(l0: Lists, num0: seq<int>, l1: Lists, num1: seq<int>) {
    && |num1| == |num0|
    && (forall x :: x in l1.place ==> x in l0.place && (IsFree(l1, x) <==> IsFree(l0, x)))
    && (forall x :: x in l0.place && l0.place[x].Space? ==> StaysAt(l0, l1, num0, num1, x))
    && (forall j :: 0 <= j < 2 && Space(j) in l0.at ==> Space(j) in l1.at && l1.at[Space(j)] == l0.at[Space(j)])
  }

  ghost predicate DoneFrom(layout: Layout, l: Lists, k: nat) {
    && (forall i :: k <= i < |layout.clusters| ==> ClusterDone(l, layout.num, layout.clusters[i]))
    && (forall i :: 0 <= i < k && i < |layout.clusters| ==> AllLoose(l, layout.clusters[i]))
  }

  lemma KeptStart(l: Lists, num: seq<int>)
    requires SizesOk(l, num)
    ensures Kept(l, num, Forgotten(l), num)
  {
    forall x | x in l.place && l.place[x].Space? ensures StaysAt(l, Forgotten(l), num, num, x) {
    }
  }

  lemma KeptNext(l0: Lists, num0: seq<int>, l1: Lists, num1: seq<int>, l2: Lists, num2: seq<int>, c: Cluster)
    requires Kept(l0, num0, l1, num1) && Compacted(l1, num1, l2, num2, c)
    ensures Kept(l0, num0, l2, num2)
  {
    forall x | x in l0.place && l0.place[x].Space? ensures StaysAt(l0, l2, num0, num2, x) {
      assert StaysAt(l0, l1, num0, num1, x) && StaysAt(l1, l2, num1, num2, x);
    }
  }

  /** Compacting a cluster does not touch the others. */
  lemma DoneNext(y0: Layout, l0: Lists, y1: Layout, l1: Lists, k: nat)
    requires BlocksOk(y0) && y1.clusters == y0.clusters && k < |y0.clusters| && DoneFrom(y0, l0, k + 1)
    requires Compacted(l0, y0.num, l1, y1.num, y0.clusters[k]) && ClusterDone(l1, y1.num, y0.clusters[k])
    ensures DoneFrom(y1, l1, k)
  {
    forall i, x | 0 <= i < |y0.clusters| && i != k && InCluster(y0.clusters[i], x)
      ensures !InCluster(y0.clusters[k], x)
    {
      ClusterOfChunk(y0, x, i);
      ClusterOfChunk(y0, x, k);
    }
    forall i | k <= i < |y1.clusters| ensures ClusterDone(l1, y1.num, y1.clusters[i]) {
      if i > k {
        var c := y1.clusters[i];
        forall t | IsFree(l1, t) && InCluster(c, t) ensures DoneAt(l1, y1.num, c, t) {
          assert StaysAt(l0, l1, y0.num, y1.num, t) && DoneAt(l0, y0.num, c, t);
          var n := t + y0.num[t];
          assert n != c.End() ==> StaysAt(l0, l1, y0.num, y1.num, n);
        }
      }
    }
  }

  /** compact_free_regions */
  method CompactFreeRegions(h: RegionHeap)
    requires h.Laid() && h.NoneLoose() && NoneIn(h.lists, h.oldspace)
    modifies h`layout, h`smallObjects, h`links, h`lists
    ensures h.Laid() && h.NoneLoose() && Coalesced(h.layout, h.lists)
    ensures Kept(old(h.lists), old(h.layout).num, h.lists, h.layout.num)
  {
    hide LayoutOk, ListsOk, SizesOk, ClusterDone, Compacted, Coalesced, Kept, DoneFrom, NoneIn;
    ghost var l0, num0 := h.lists, h.layout.num;
    ForgetOk(h.links, h.lists, h.layout.num);
    KeptStart(h.lists, h.layout.num);
    ForgottenLoose(h.layout, h.lists);
    h.links := h.links.(large := 0, small := 0);
    h.lists := Forgotten(h.lists);
    var k := |h.layout.clusters|;
    while k > 0
      invariant 0 <= k <= |h.layout.clusters| && h.Laid() && Kept(l0, num0, h.lists, h.layout.num)
      invariant DoneFrom(h.layout, h.lists, k)
    {
      k := k - 1;
      ghost var y1, l1 := h.layout, h.lists;
      CompactReady(h.layout, h.lists, l0, num0, h.oldspace, h.heapBase, h.top, k);
      CompactCluster(h, h.layout.clusters[k]);
      KeptNext(l0, num0, l1, y1.num, h.lists, h.layout.num, y1.clusters[k]);
      DoneNext(y1, l1, h.layout, h.lists, k);
    }
    AllDone(h.layout, h.lists, h.heapBase, h.top);
  }

  lemma ForgottenLoose(layout: Layout, l: Lists)
    ensures DoneFrom(layout, Forgotten(l), |layout.clusters|)
  {
  }

  lemma CompactReady(layout: Layout, l: Lists, l0: Lists, num0: seq<int>, oldspace: int, heapBase: int, top: int,
        k: nat)
    requires LayoutOk(layout, l.place.Keys, heapBase, top) && Kept(l0, num0, l, layout.num) && NoneIn(l0, oldspace)
    requires k < |layout.clusters| && DoneFrom(layout, l, k + 1)
    ensures BlocksOk(layout) && NoneIn(l, oldspace) && AllLoose(l, layout.clusters[k])
  {
    forall x | x in l.place ensures l.place[x] != Space(oldspace) {
      assert l0.place[x].Space? ==> StaysAt(l0, l, num0, layout.num, x);
      assert IsFree(l, x) <==> IsFree(l0, x);
    }
  }

  lemma AllDone(layout: Layout, l: Lists, heapBase: int, top: int)
    requires LayoutOk(layout, l.place.Keys, heapBase, top) && DoneFrom(layout, l, 0)
    ensures Coalesced(layout, l) && (forall x :: x in l.place ==> l.place[x] != Loose)
  {
    forall t | IsFree(l, t) ensures ApartIn(layout, l, t) && l.place[t] != Loose {
      TiledAt(layout, l.place.Keys, t);
      var i := ClusterOf(layout, t);
      ClusterOfChunk(layout, t, i);
      assert ClusterDone(l, layout.num, layout.clusters[i]);
      assert DoneAt(l, layout.num, layout.clusters[i], t);
    }
  }

  // --- Whole collections

  /** Between collections the old space is empty. */
  ghost predicate Resting(h: RegionHeap)
    reads h
  {
    h.Valid() && h.lists.at[Space(h.oldspace)] == [] && h.allocPtr[h.oldspace] == 0 && h.allocEnd[h.oldspace] == 0
  }

  /** flip_spaces */
  method FlipSpaces(h: RegionHeap)
    requires Resting(h)
    modifies h`newspace, h`oldspace
    ensures h.Valid() && h.newspace == old(h.oldspace) && h.oldspace == old(h.newspace)
    ensures h.lists.at[Space(h.newspace)] == []
  {
    hide LayoutOk, ListsOk, SizesOk;
    h.oldspace, h.newspace := h.newspace, h.oldspace;
  }

  /** The pointer leads into a region of this space. */
  ghost predicate Leads(layout: Layout, l: Lists, p: int, space: int, s: int) {
    s in l.place && Spans(layout, s, p / CHUNK_BYTES) && l.place[s] == Space(space)
  }

  /** A pointer found on the stack: if it leads into a region of the old space, the region is moved to the new one, as
      it is; any other pointer changes nothing. */
  method PreservePointer(h: RegionHeap, p: int)
    requires h.Valid()
    modifies h`links, h`lists
    ensures h.Valid()
    ensures forall s :: Leads(h.layout, old(h.lists), p, h.oldspace, s) ==>
              RegionMoved(old(h.lists), h.lists, h.layout.num, s, h.newspace)
    ensures (forall s :: !Leads(h.layout, old(h.lists), p, h.oldspace, s)) ==>
      h.lists == old(h.lists) && h.links == old(h.links)
  {
    hide ListsOk, SizesOk, Tiled, Indexed, RegionMoved;
    var region := FindRegion(h.layout, h.lists.place.Keys, h.heapBase, p);
    NoneSpans(h.layout, h.lists, h.heapBase, h.top, p, region);
    if region != 0 {
      OwnerAt(h.links, h.lists, region);
      if h.links.owner[region] == h.oldspace {
        assert Leads(h.layout, h.lists, p, h.oldspace, region);
        h.MoveToNewspace(region);
      }
    }
  }

  /** Only the region found for a pointer spans it. */
  lemma NoneSpans(layout: Layout, l: Lists, heapBase: int, top: int, p: int, region: int)
    requires LayoutOk(layout, l.place.Keys, heapBase, top) && SizesOk(l, layout.num)
    requires ClusterOf(layout, p / CHUNK_BYTES) == -1 ==> region == 0
    requires ClusterOf(layout, p / CHUNK_BYTES) != -1 ==>
               region in l.place.Keys && Spans(layout, region, p / CHUNK_BYTES)
               && forall s :: s in l.place.Keys && Spans(layout, s, p / CHUNK_BYTES) ==> s == region
    ensures forall s :: s in l.place && Spans(layout, s, p / CHUNK_BYTES) ==> s == region != 0
    ensures region != 0 ==> region in l.place && Spans(layout, region, p / CHUNK_BYTES)
  {
    forall s | s in l.place && Spans(layout, s, p / CHUNK_BYTES) ensures s == region != 0 {
      TiledAt(layout, l.place.Keys, s);
      ClusterOfSame(layout, s, p / CHUNK_BYTES, l.place.Keys);
      assert s in l.place.Keys;
    }
  }

  /** The end of cgc_collect_garbage, once what is reached has been moved out of the old space: the old space is freed,
      free regions are compacted, and the count of bytes is brought up to date. */
  method FinishCollection(h: RegionHeap)
    requires h.Valid()
    modifies h`layout, h`smallObjects, h`links, h`lists, h`allocPtr, h`allocEnd, h`bytesAllocated, h`chunksFreed
    ensures Resting(h) && Coalesced(h.layout, h.lists)
    ensures h.lists.at[Space(h.newspace)] == old(h.lists.at[Space(h.newspace)])
    ensures forall x :: x in old(h.lists).place && old(h.lists).place[x] == Space(h.newspace) ==>
              StaysAt(old(h.lists), h.lists, old(h.layout).num, h.layout.num, x)
    ensures h.bytesAllocated == CHUNK_BYTES * Chunks(h.layout.num, h.lists.at[Space(h.newspace)])
    ensures h.chunksFreed == Chunks(old(h.layout).num, old(h.lists.at[Space(h.oldspace)]))
    ensures h.allocPtr == old(h.allocPtr)[h.oldspace := 0] && h.allocEnd == old(h.allocEnd)[h.oldspace := 0]
  {
    hide LayoutOk, ListsOk, SizesOk, Coalesced, Kept, OldFreed, NoneIn;
    ghost var l0, k0, num0 := h.lists, h.links, h.layout.num;
    FreeOldspace(h);
    ghost var l1 := h.lists;
    OldGone(h.links, h.lists, h.oldspace);
    CompactFreeRegions(h);
    h.bytesAllocated := h.bytesAllocated - h.chunksFreed * CHUNK_BYTES;
    NewStays(k0, l0, l1, h.lists, num0, h.layout.num, h.newspace);
  }

  lemma OldGone(k: Links, l: Lists, i: int)
    requires ListsOk(k, l) && 0 <= i < 2 && Space(i) in l.at && l.at[Space(i)] == []
    ensures NoneIn(l, i)
  {
    forall x | x in l.place ensures l.place[x] != Space(i) {
      assert ListOk(k, l, Space(i)) && Holds(l, Space(i), x);
    }
  }

  lemma NewStays(k0: Links, l0: Lists, l1: Lists, l2: Lists, num0: seq<int>, num2: seq<int>, newspace: int)
    requires ListsOk(k0, l0) && 0 <= newspace < 2 && |num0| == |k0.next|
    requires OldFreed(l0, l1, 1 - newspace) && Space(1 - newspace) in l1.at && l1.at[Space(1 - newspace)] == []
    requires Kept(l1, num0, l2, num2)
    ensures Space(newspace) in l0.at && Space(newspace) in l2.at && l2.at[Space(newspace)] == l0.at[Space(newspace)]
    ensures Space(1 - newspace) in l0.at && Space(1 - newspace) in l2.at && l2.at[Space(1 - newspace)] == []
    ensures forall x :: x in l0.place && l0.place[x] == Space(newspace) ==> StaysAt(l0, l2, num0, num2, x)
    ensures Chunks(num2, l0.at[Space(newspace)]) == Chunks(num0, l0.at[Space(newspace)])
  {
    ListAt(k0, l0, Space(newspace));
    ListAt(k0, l0, Space(1 - newspace));
    forall x | x in l0.place && l0.place[x] == Space(newspace) ensures StaysAt(l0, l2, num0, num2, x) {
      assert PlaceFreed(l0.place[x], l1.place[x], 1 - newspace) && StaysAt(l1, l2, num0, num2, x);
    }
    ChunksSame(k0, l0, num0, num2, newspace);
  }

  lemma ChunksSame(k0: Links, l0: Lists, num0: seq<int>, num2: seq<int>, i: int)
    requires ListsOk(k0, l0) && 0 <= i < 2 && |num2| == |num0|
    requires forall x :: x in l0.place && l0.place[x] == Space(i) ==> 0 <= x < |num0| && num2[x] == num0[x]
    ensures Space(i) in l0.at && Chunks(num2, l0.at[Space(i)]) == Chunks(num0, l0.at[Space(i)])
  {
    ListAt(k0, l0, Space(i));
    ChunksFrame(num0, num2, l0.at[Space(i)]);
  }

  // --- What has been given out

  /** So many bytes of a region that have been given out; none if something else has happened. */
  datatype Given = Given(address: int, nbytes: int, region: int)

  /** They lie in the region, which is in the space, and before what will be given out of it, ptr in the current one. */
  ghost predicate GivenIn(l: Lists, num: seq<int>, ptr: int, end: int, space: int, g: Given) {
    g.nbytes > 0 ==>
      && 0 < g.region < |num| && g.region in l.place && l.place[g.region] == Space(space)
      && g.region * CHUNK_BYTES + REGION_OVERHEAD <= g.address
      && g.address + g.nbytes <= (g.region + num[g.region]) * CHUNK_BYTES
      && (g.region == RegionBefore(end) ==> g.address + g.nbytes <= ptr)
  }

  predicate ApartFrom(g: Given, g2: Given) {
    g.nbytes > 0 && g2.nbytes > 0 ==> g.address + g.nbytes <= g2.address || g2.address + g2.nbytes <= g.address
  }

  ghost predicate AllIn(l: Lists, num: seq<int>, ptr: int, end: int, space: int, gs: seq<Given>) {
    && (forall i {:trigger gs[i]} :: 0 <= i < |gs| ==> GivenIn(l, num, ptr, end, space, gs[i]))
    && (forall i, j {:trigger gs[i], gs[j]} :: 0 <= i < j < |gs| ==> ApartFrom(gs[i], gs[j]))
  }

  /** All that has been given out is in the new space, and apart. */
  ghost predicate AllGiven(h: RegionHeap, gs: seq<Given>)
    reads h
  {
    && 0 <= h.newspace < |h.allocPtr| == |h.allocEnd|
    && AllIn(h.lists, h.layout.num, h.allocPtr[h.newspace], h.allocEnd[h.newspace], h.newspace, gs)
  }

  /** Regions do not overlap. */
  lemma RegionsApart(layout: Layout, starts: set<int>, s: int, t: int)
    requires Tiled(layout, starts) && s in starts && t in starts && s < t
    ensures 0 < s < t < |layout.num| && (s + layout.num[s]) * CHUNK_BYTES <= t * CHUNK_BYTES
  {
    assert RegionIndex.RegionOk(layout, starts, s) && RegionIndex.RegionOk(layout, starts, t);
  }

  /** Bytes in different regions are apart. */
  lemma RegionsGiven(layout: Layout, l: Lists, ptr: int, end: int, space: int, g: Given, g2: Given)
    requires Tiled(layout, l.place.Keys) && g.region != g2.region
    requires GivenIn(l, layout.num, ptr, end, space, g) && GivenIn(l, layout.num, ptr, end, space, g2)
    ensures ApartFrom(g, g2)
  {
    hide Tiled;
    if g.nbytes > 0 && g2.nbytes > 0 {
      if g.region < g2.region {
        RegionsApart(layout, l.place.Keys, g.region, g2.region);
      } else {
        RegionsApart(layout, l.place.Keys, g2.region, g.region);
      }
    }
  }

  /** A region of neither space. */
  ghost predicate Unowned(l: Lists, x: int) {
    !(x in l.place && l.place[x].Space?)
  }

  /** What cgc_alloc has given out comes from a region that was in neither space, or out of the current one. */
  ghost predicate Gives(l0: Lists, num0: seq<int>, ptr0: int, end0: int, l1: Lists, num1: seq<int>, ptr1: int,
        end1: int, space: int, g: Given)
  {
    && 0 < g.region < |num1| && g.nbytes > 0
    && (|| (Obtained(l0, l1, num0, num1, g.region, num1[g.region], space)
            && ((ptr1 == ptr0 && end1 == end0)
                || (g.region == RegionBefore(end1) && g.address + g.nbytes <= ptr1)))
        || (l1 == l0 && num1 == num0 && g.region == RegionBefore(end0) == RegionBefore(end1)
            && g.address == ptr0 && g.address + g.nbytes <= ptr1))
  }

  lemma GivenStays(l0: Lists, num0: seq<int>, ptr0: int, end0: int, l1: Lists, num1: seq<int>, ptr1: int, end1: int,
        space: int, g: Given, g0: Given)
    requires GivenIn(l0, num0, ptr0, end0, space, g0) && Gives(l0, num0, ptr0, end0, l1, num1, ptr1, end1, space, g)
    ensures GivenIn(l1, num1, ptr1, end1, space, g0)
    ensures g0.nbytes > 0 && g0.region == g.region ==> g0.address + g0.nbytes <= g.address
  {
    if g0.nbytes > 0 && Obtained(l0, l1, num0, num1, g.region, num1[g.region], space) {
      assert KeptAt(l0, l1, num0, num1, g0.region);
    }
  }

  lemma GivenNext(layout: Layout, l0: Lists, num0: seq<int>, ptr0: int, end0: int, l1: Lists, ptr1: int, end1: int,
        space: int, gs: seq<Given>, g: Given)
    requires AllIn(l0, num0, ptr0, end0, space, gs) && Tiled(layout, l1.place.Keys)
    requires Gives(l0, num0, ptr0, end0, l1, layout.num, ptr1, end1, space, g)
    requires GivenIn(l1, layout.num, ptr1, end1, space, g)
    ensures AllIn(l1, layout.num, ptr1, end1, space, gs + [g])
  {
    hide Tiled, Gives, GivenIn;
    var gs2 := gs + [g];
    forall i {:trigger gs2[i]} | 0 <= i < |gs2|
      ensures GivenIn(l1, layout.num, ptr1, end1, space, gs2[i]) && (i < |gs| ==> ApartFrom(gs2[i], g))
    {
      if i < |gs| {
        GivenStays(l0, num0, ptr0, end0, l1, layout.num, ptr1, end1, space, g, gs[i]);
        if gs[i].region != g.region {
          RegionsGiven(layout, l1, ptr1, end1, space, gs[i], g);
        }
      }
    }
    forall i, j {:trigger gs2[i], gs2[j]} | 0 <= i < j < |gs2| ensures ApartFrom(gs2[i], gs2[j]) {
      if j < |gs| {
        assert gs2[i] == gs[i] && gs2[j] == gs[j];
      }
    }
  }

  /** Something else has happened. */
  lemma NothingGiven(l: Lists, num: seq<int>, ptr: int, end: int, space: int, gs: seq<Given>)
    requires AllIn(l, num, ptr, end, space, gs)
    ensures AllIn(l, num, ptr, end, space, gs + [Given(0, 0, 0)])
  {
    var gs2 := gs + [Given(0, 0, 0)];
    forall i {:trigger gs2[i]} | 0 <= i < |gs2| ensures GivenIn(l, num, ptr, end, space, gs2[i]) {
      assert i < |gs| ==> gs2[i] == gs[i];
    }
    forall i, j {:trigger gs2[i], gs2[j]} | 0 <= i < j < |gs2| ensures ApartFrom(gs2[i], gs2[j]) {
      assert j < |gs| ==> gs2[i] == gs[i] && gs2[j] == gs[j];
    }
  }

  /** The regions of the spaces are still in one of them, and those of the new one in that, with their sizes. */
  ghost predicate OwnedStay(l0: Lists, l1: Lists, num0: seq<int>, num1: seq<int>, space: int) {
    forall x {:trigger x in l0.place} :: x in l0.place && l0.place[x].Space? ==>
      && x in l1.place && l1.place[x].Space? && (l0.place[x] == Space(space) ==> l1.place[x] == Space(space))
      && 0 <= x < |num0| == |num1| && num1[x] == num0[x]
  }

  lemma OwnedThen(l0: Lists, l1: Lists, l2: Lists, num0: seq<int>, num1: seq<int>, num2: seq<int>, space: int)
    requires OwnedStay(l0, l1, num0, num1, space) && OwnedStay(l1, l2, num1, num2, space)
    ensures OwnedStay(l0, l2, num0, num2, space)
  {
  }

  /** So what has been given out stays. */
  lemma OwnedGiven(l0: Lists, l1: Lists, num0: seq<int>, num1: seq<int>, ptr: int, end: int, space: int, gs: seq<Given>)
    requires OwnedStay(l0, l1, num0, num1, space) && AllIn(l0, num0, ptr, end, space, gs)
    ensures AllIn(l1, num1, ptr, end, space, gs)
  {
    forall i {:trigger gs[i]} | 0 <= i < |gs| ensures GivenIn(l1, num1, ptr, end, space, gs[i]) {
      assert GivenIn(l0, num0, ptr, end, space, gs[i]);
    }
  }

  lemma ObtainedOwned(l0: Lists, l1: Lists, num0: seq<int>, num1: seq<int>, region: int, nchunks: int, space: int)
    requires Obtained(l0, l1, num0, num1, region, nchunks, space)
    ensures OwnedStay(l0, l1, num0, num1, space)
  {
    forall x {:trigger x in l0.place} | x in l0.place && l0.place[x].Space?
      ensures x in l1.place && l1.place[x] == l0.place[x] && 0 <= x < |num0| == |num1| && num1[x] == num0[x]
    {
      assert KeptAt(l0, l1, num0, num1, x);
    }
  }

  lemma SizesInRange(l: Lists, num: seq<int>)
    requires SizesOk(l, num)
    ensures OwnedStay(l, l, num, num, 0) && OwnedStay(l, l, num, num, 1)
  {
  }

  lemma MovedOwned(l0: Lists, l1: Lists, num: seq<int>, region: int, space: int)
    requires RegionMoved(l0, l1, num, region, space) && OwnedStay(l0, l0, num, num, space)
    ensures OwnedStay(l0, l1, num, num, space)
  {
  }

  // --- Moves and actions

  /** What happens between the flip and the end of a collection: a region of the old space that a pointer leads to is
      moved as it is, or an object is copied, for which space is allocated. */
  datatype Move = Preserve(pointer: int) | Copy(nbytes: int)

  /** What happens to the heap: an object is allocated, or garbage collected. */
  datatype Action = Allocate(nbytes: int) | Collect(moves: seq<Move>)

  predicate Allocatable(nbytes: int) {
    0 < nbytes <= MAX_BLOCKS * BLOCK_CHUNKS * CHUNK_BYTES - REGION_OVERHEAD
  }

  predicate MovesOk(moves: seq<Move>) {
    forall i :: 0 <= i < |moves| && moves[i].Copy? ==> Allocatable(moves[i].nbytes)
  }

  predicate ActionOk(a: Action) {
    (a.Allocate? ==> Allocatable(a.nbytes)) && (a.Collect? ==> MovesOk(a.moves))
  }

  lemma GivenHere(l0: Lists, num0: seq<int>, ptr0: int, end0: int, l1: Lists, num1: seq<int>, ptr1: int, end1: int,
        space: int, g: Given)
    requires Gives(l0, num0, ptr0, end0, l1, num1, ptr1, end1, space, g)
    requires end0 != 0 ==> !Unowned(l0, RegionBefore(end0))
    requires g.region in l1.place && l1.place[g.region] == Space(space)
    requires g.region * CHUNK_BYTES + REGION_OVERHEAD <= g.address
    requires g.address + g.nbytes <= (g.region + num1[g.region]) * CHUNK_BYTES
    ensures GivenIn(l1, num1, ptr1, end1, space, g)
    ensures Unowned(l0, g.region) || g.region == RegionBefore(end0)
    ensures RegionBefore(end1) == g.region || RegionBefore(end1) == RegionBefore(end0)
  {
  }

  lemma GivesOwned(l0: Lists, num0: seq<int>, ptr0: int, end0: int, l1: Lists, num1: seq<int>, ptr1: int, end1: int,
        space: int, g: Given)
    requires Gives(l0, num0, ptr0, end0, l1, num1, ptr1, end1, space, g) && OwnedStay(l0, l0, num0, num0, space)
    ensures OwnedStay(l0, l1, num0, num1, space)
  {
    if Obtained(l0, l1, num0, num1, g.region, num1[g.region], space) {
      ObtainedOwned(l0, l1, num0, num1, g.region, num1[g.region], space);
    }
  }

  /** cgc_alloc, with the account of what it has given out. */
  method Give(h: RegionHeap, nbytes: int, ghost gs: seq<Given>) returns (address: int, ghost g: Given)
    requires h.Valid() && Allocatable(nbytes) && AllGiven(h, gs)
    modifies h`layout, h`smallObjects, h`links, h`lists, h`top, h`bytesAllocated, h`allocPtr, h`allocEnd
    ensures h.Valid() && |old(h.allocEnd)| == |h.allocEnd| == |old(h.allocPtr)| == |h.allocPtr| == 2
    ensures h.allocPtr[h.oldspace] == old(h.allocPtr[h.oldspace])
    ensures h.allocEnd[h.oldspace] == old(h.allocEnd[h.oldspace])
    ensures h.lists.at[Space(h.oldspace)] == old(h.lists.at[Space(h.oldspace)])
    ensures address == 0 ==> h.NoRoom(nbytes)
    ensures address != 0 ==> g == Given(address, nbytes, g.region) && AllGiven(h, gs + [g])
    ensures address != 0 ==> OwnedStay(old(h.lists), h.lists, old(h.layout).num, h.layout.num, h.newspace)
    ensures address != 0 ==>
              Gives(old(h.lists), old(h.layout).num, old(h.allocPtr)[h.newspace], old(h.allocEnd)[h.newspace], h.lists,
                    h.layout.num, h.allocPtr[h.newspace], h.allocEnd[h.newspace], h.newspace, g)
    ensures address != 0 ==>
              Unowned(old(h.lists), g.region) || g.region == RegionBefore(old(h.allocEnd)[h.newspace])
    ensures address != 0 ==>
              || RegionBefore(h.allocEnd[h.newspace]) == g.region
              || RegionBefore(h.allocEnd[h.newspace]) == RegionBefore(old(h.allocEnd)[h.newspace])
  {
    hide ListsOk, SizesOk, Tiled, Indexed, Obtained, Owned, AllIn, OwnedStay;
    ghost var l, num, ptr, end := h.lists, h.layout.num, h.allocPtr[h.newspace], h.allocEnd[h.newspace];
    HeapSizes(h);
    ghost var region;
    address, region := h.CgcAlloc(nbytes);
    g := Given(address, nbytes, region);
    if address != 0 {
      ghost var ptr1, end1 := h.allocPtr[h.newspace], h.allocEnd[h.newspace];
      assert Gives(l, num, ptr, end, h.lists, h.layout.num, ptr1, end1, h.newspace, g);
      GivenHere(l, num, ptr, end, h.lists, h.layout.num, ptr1, end1, h.newspace, g);
      GivesOwned(l, num, ptr, end, h.lists, h.layout.num, ptr1, end1, h.newspace, g);
      GivenNext(h.layout, l, num, ptr, end, h.lists, ptr1, end1, h.newspace, gs, g);
    }
  }

  lemma HeapSizes(h: RegionHeap)
    requires h.Valid()
    ensures OwnedStay(h.lists, h.lists, h.layout.num, h.layout.num, h.newspace)
    ensures Tiled(h.layout, h.lists.place.Keys)
  {
    hide ListsOk, Tiled, Indexed;
    SizesInRange(h.lists, h.layout.num);
  }

  // --- A collection

  /** The bytes that moves ask for. */
  function Asked(moves: seq<Move>): seq<int> {
    seq(|moves|, i requires 0 <= i < |moves| => if moves[i].Copy? then moves[i].nbytes else 0)
  }

  /** The bytes that have been given out, in order, are so many. */
  ghost predicate Answers(gs: seq<Given>, sizes: seq<int>) {
    |gs| == |sizes| && forall i {:trigger gs[i]} :: 0 <= i < |gs| ==> gs[i].nbytes == sizes[i]
  }

  /** The region that the pointer led into is in the new space with its size. */
  ghost predicate Preserved(layout: Layout, l0: Lists, l1: Lists, num1: seq<int>, p: int, from: int, space: int) {
    forall s {:trigger Leads(layout, l0, p, from, s)} :: Leads(layout, l0, p, from, s) ==>
      s in l1.place && l1.place[s] == Space(space) && |num1| == |layout.num| && num1[s] == layout.num[s]
  }

  /** So are all regions that the first n moves preserve. */
  ghost predicate AllPreserved(layout: Layout, l0: Lists, l1: Lists, num1: seq<int>, moves: seq<Move>, n: nat,
        from: int, space: int)
  {
    forall i {:trigger moves[i]} :: 0 <= i < n && i < |moves| && moves[i].Preserve? ==>
      Preserved(layout, l0, l1, num1, moves[i].pointer, from, space)
  }

  lemma PreservedStays(layout: Layout, l0: Lists, l1: Lists, l2: Lists, num1: seq<int>, num2: seq<int>,
        moves: seq<Move>, n: nat, from: int, space: int)
    requires AllPreserved(layout, l0, l1, num1, moves, n, from, space) && OwnedStay(l1, l2, num1, num2, space)
    ensures AllPreserved(layout, l0, l2, num2, moves, n, from, space)
  {
    forall i {:trigger moves[i]} | 0 <= i < n && i < |moves| && moves[i].Preserve?
      ensures Preserved(layout, l0, l2, num2, moves[i].pointer, from, space)
    {
      assert Preserved(layout, l0, l1, num1, moves[i].pointer, from, space);
    }
  }

  /** What preserve_pointer has done for the region that the pointer led into at the beginning. */
  lemma PreservedNow(layout: Layout, l0: Lists, layout1: Layout, l1: Lists, l2: Lists, p: int, from: int, space: int)
    requires OwnedStay(l0, l1, layout.num, layout1.num, space) && {from, space} == {0, 1}
    requires forall x {:trigger x in l1.place} :: x in l1.place && l1.place[x].Space? ==>
               l1.place[x] == Space(from) || l1.place[x] == Space(space)
    requires forall s :: Leads(layout1, l1, p, from, s) ==> RegionMoved(l1, l2, layout1.num, s, space)
    requires OwnedStay(l1, l2, layout1.num, layout1.num, space)
    ensures Preserved(layout, l0, l2, layout1.num, p, from, space)
  {
    hide RegionMoved;
    forall s {:trigger Leads(layout, l0, p, from, s)} | Leads(layout, l0, p, from, s)
      ensures s in l2.place && l2.place[s] == Space(space) && |layout1.num| == |layout.num|
      ensures 0 <= s < |layout.num| && layout1.num[s] == layout.num[s]
    {
      if l1.place[s] == Space(from) {
        assert Leads(layout1, l1, p, from, s);
        MovedPlace(l1, l2, layout1.num, s, space);
      }
    }
  }

  lemma MovedPlace(l0: Lists, l1: Lists, num: seq<int>, region: int, space: int)
    requires RegionMoved(l0, l1, num, region, space)
    ensures region in l1.place && l1.place[region] == Space(space)
  {
  }

  /** None of the bytes given out is in a region that was in one of the spaces at the beginning. */
  ghost predicate AllNew(l0: Lists, gs: seq<Given>) {
    forall i {:trigger gs[i]} :: 0 <= i < |gs| && gs[i].nbytes > 0 ==> Unowned(l0, gs[i].region)
  }

  lemma NewNext(l0: Lists, gs: seq<Given>, g: Given)
    requires AllNew(l0, gs) && (g.nbytes > 0 ==> Unowned(l0, g.region))
    ensures AllNew(l0, gs + [g])
  {
    var gs2 := gs + [g];
    forall i {:trigger gs2[i]} | 0 <= i < |gs2| && gs2[i].nbytes > 0 ensures Unowned(l0, gs2[i].region) {
      assert i < |gs| ==> gs2[i] == gs[i];
    }
  }

  /** What was in no space at the beginning is in none, or has come into one since. */
  lemma UnownedBefore(l0: Lists, l1: Lists, num0: seq<int>, num1: seq<int>, space: int, x: int)
    requires OwnedStay(l0, l1, num0, num1, space) && Unowned(l1, x)
    ensures Unowned(l0, x)
  {
  }

  /** One of the first n moves preserves the region, or something has been copied there. */
  ghost predicate Needed(layout: Layout, l0: Lists, moves: seq<Move>, n: nat, from: int, copies: seq<Given>, x: int) {
    || (exists i {:trigger moves[i]} :: 0 <= i < n && i < |moves| && moves[i].Preserve?
                                        && Leads(layout, l0, moves[i].pointer, from, x))
    || (exists i {:trigger copies[i]} :: 0 <= i < |copies| && copies[i].nbytes > 0 && copies[i].region == x)
  }

  /** There are no other regions in the new space, and none in the old one that was not there. */
  ghost predicate OnlyNeeded(layout: Layout, l0: Lists, l1: Lists, moves: seq<Move>, n: nat, from: int, space: int,
        copies: seq<Given>)
  {
    && (forall x {:trigger x in l1.place} :: x in l1.place && l1.place[x] == Space(space) ==>
          Needed(layout, l0, moves, n, from, copies, x))
    && (forall x {:trigger x in l1.place} :: x in l1.place && l1.place[x] == Space(from) ==>
          x in l0.place && l0.place[x] == Space(from))
  }

  lemma NeededMore(layout: Layout, l0: Lists, moves: seq<Move>, n: nat, from: int, copies: seq<Given>, g: Given, x: int)
    requires Needed(layout, l0, moves, n, from, copies, x)
    ensures Needed(layout, l0, moves, n + 1, from, copies + [g], x)
  {
    var copies2 := copies + [g];
    if i :| 0 <= i < |copies| && copies[i].nbytes > 0 && copies[i].region == x {
      assert copies2[i] == copies[i];
    }
  }

  lemma CopyNeeded(layout: Layout, l0: Lists, l1: Lists, num1: seq<int>, ptr1: int, end1: int, l2: Lists,
        num2: seq<int>, ptr2: int, end2: int, moves: seq<Move>, n: nat, from: int, space: int, copies: seq<Given>,
        g: Given)
    requires OnlyNeeded(layout, l0, l1, moves, n, from, space, copies) && {from, space} == {0, 1}
    requires Gives(l1, num1, ptr1, end1, l2, num2, ptr2, end2, space, g)
    ensures OnlyNeeded(layout, l0, l2, moves, n + 1, from, space, copies + [g])
  {
    hide Needed;
    forall x {:trigger x in l2.place} | x in l2.place && l2.place[x] == Space(space)
      ensures Needed(layout, l0, moves, n + 1, from, copies + [g], x)
    {
      if x == g.region {
        GivenNeeded(layout, l0, moves, n + 1, from, copies, g);
      } else {
        GivesPlace(l1, num1, ptr1, end1, l2, num2, ptr2, end2, space, g, x);
        NeededMore(layout, l0, moves, n, from, copies, g, x);
      }
    }
    forall x {:trigger x in l2.place} | x in l2.place && l2.place[x] == Space(from)
      ensures x in l0.place && l0.place[x] == Space(from)
    {
      GivesPlace(l1, num1, ptr1, end1, l2, num2, ptr2, end2, space, g, x);
    }
  }

  lemma GivenNeeded(layout: Layout, l0: Lists, moves: seq<Move>, n: nat, from: int, copies: seq<Given>, g: Given)
    requires g.nbytes > 0
    ensures Needed(layout, l0, moves, n, from, copies + [g], g.region)
  {
    assert (copies + [g])[|copies|] == g;
  }

  /** Only the region that has been added is in another space than before. */
  lemma GivesPlace(l0: Lists, num0: seq<int>, ptr0: int, end0: int, l1: Lists, num1: seq<int>, ptr1: int, end1: int,
        space: int, g: Given, x: int)
    requires Gives(l0, num0, ptr0, end0, l1, num1, ptr1, end1, space, g) && x in l1.place && l1.place[x].Space?
    requires x != g.region || l1.place[x] != Space(space)
    ensures x in l0.place && l0.place[x] == l1.place[x]
  {
    if Obtained(l0, l1, num0, num1, g.region, num1[g.region], space) && x in l0.place && x != g.region {
      assert KeptAt(l0, l1, num0, num1, x);
    }
  }

  lemma MoveNeeded(layout: Layout, l0: Lists, layout1: Layout, l1: Lists, l2: Lists, moves: seq<Move>, n: nat,
        from: int, space: int, copies: seq<Given>, g: Given)
    requires OnlyNeeded(layout, l0, l1, moves, n, from, space, copies) && {from, space} == {0, 1}
    requires OwnedStay(l0, l1, layout.num, layout1.num, space) && n < |moves| && moves[n].Preserve?
    requires forall s :: Leads(layout1, l1, moves[n].pointer, from, s) ==> RegionMoved(l1, l2, layout1.num, s, space)
    requires (forall s :: !Leads(layout1, l1, moves[n].pointer, from, s)) ==> l2 == l1
    ensures OnlyNeeded(layout, l0, l2, moves, n + 1, from, space, copies + [g])
  {
    hide Needed;
    if s :| Leads(layout1, l1, moves[n].pointer, from, s) {
      MovedPlaces(l1, l2, layout1.num, s, space);
      assert Leads(layout, l0, moves[n].pointer, from, s);
      PointerNeeded(layout, l0, moves, n, from, copies + [g], s);
      forall x {:trigger x in l2.place} | x in l2.place && l2.place[x] == Space(space) && x != s
        ensures Needed(layout, l0, moves, n + 1, from, copies + [g], x)
      {
        NeededMore(layout, l0, moves, n, from, copies, g, x);
      }
    } else {
      forall x {:trigger x in l2.place} | x in l2.place && l2.place[x] == Space(space)
        ensures Needed(layout, l0, moves, n + 1, from, copies + [g], x)
      {
        NeededMore(layout, l0, moves, n, from, copies, g, x);
      }
    }
  }

  lemma PointerNeeded(layout: Layout, l0: Lists, moves: seq<Move>, n: nat, from: int, copies: seq<Given>, s: int)
    requires n < |moves| && moves[n].Preserve? && Leads(layout, l0, moves[n].pointer, from, s)
    ensures Needed(layout, l0, moves, n + 1, from, copies, s)
  {
  }

  lemma MovedPlaces(l0: Lists, l1: Lists, num: seq<int>, region: int, space: int)
    requires RegionMoved(l0, l1, num, region, space)
    ensures region in l0.place && l1.place == l0.place[region := Space(space)]
  {
  }

  /** In the beginning there is nothing in the new space. */
  lemma NoneNeeded(layout: Layout, k: Links, l: Lists, moves: seq<Move>, from: int)
    requires ListsOk(k, l) && 0 <= from < 2 && Space(1 - from) in l.at && l.at[Space(1 - from)] == []
    ensures OnlyNeeded(layout, l, l, moves, 0, from, 1 - from, [])
  {
    OldGone(k, l, 1 - from);
  }

  /** The end of a collection adds nothing to the spaces. */
  lemma EndNeeded(layout: Layout, l0: Lists, k1: Links, l1: Lists, k2: Links, l2: Lists, moves: seq<Move>, n: nat,
        from: int, copies: seq<Given>)
    requires ListsOk(k1, l1) && ListsOk(k2, l2) && 0 <= from < 2
    requires OnlyNeeded(layout, l0, l1, moves, n, from, 1 - from, copies)
    requires Space(1 - from) in l1.at && Space(1 - from) in l2.at && l2.at[Space(1 - from)] == l1.at[Space(1 - from)]
    requires Space(from) in l2.at && l2.at[Space(from)] == []
    ensures OnlyNeeded(layout, l0, l2, moves, n, from, 1 - from, copies)
  {
    hide Needed;
    OldGone(k2, l2, from);
    ListAt(k1, l1, Space(1 - from));
    forall x {:trigger x in l2.place} | x in l2.place && l2.place[x] == Space(1 - from)
      ensures Needed(layout, l0, moves, n, from, copies, x)
    {
      assert ListOk(k2, l2, Space(1 - from)) && Holds(l2, Space(1 - from), x);
    }
  }

  /** Where a collection is after n moves. */
  ghost predicate Moving(h: RegionHeap, layout0: Layout, l0: Lists, from: int, moves: seq<Move>, n: nat,
        copies: seq<Given>)
    reads h
  {
    && h.Valid() && 0 <= from < 2 && h.newspace == 1 - from && n <= |moves| && AllGiven(h, copies)
    && OwnedStay(l0, h.lists, layout0.num, h.layout.num, h.newspace)
    && AllPreserved(layout0, l0, h.lists, h.layout.num, moves, n, from, h.newspace) && AllNew(l0, copies)
    && Unowned(l0, RegionBefore(h.allocEnd[h.newspace])) && Answers(copies, Asked(moves[..n]))
    && OnlyNeeded(layout0, l0, h.lists, moves, n, from, h.newspace, copies)
  }

  /** At first nothing has been copied. */
  lemma MovingFirst(h: RegionHeap, from: int, moves: seq<Move>)
    requires h.Valid() && 0 <= from < 2 && h.newspace == 1 - from
    requires h.allocPtr[h.newspace] == 0 && h.allocEnd[h.newspace] == 0 && h.lists.at[Space(h.newspace)] == []
    ensures Moving(h, h.layout, h.lists, from, moves, 0, [])
  {
    hide ListsOk, Tiled, Indexed, OnlyNeeded;
    NoneNeeded(h.layout, h.links, h.lists, moves, from);
    SizesInRange(h.lists, h.layout.num);
    assert RegionBefore(0) == -1;
    assert Asked(moves[..0]) == [];
  }

  lemma AskedNext(moves: seq<Move>, n: nat, gs: seq<Given>, g: Given)
    requires n < |moves| && Answers(gs, Asked(moves[..n]))
    requires g.nbytes == if moves[n].Copy? then moves[n].nbytes else 0
    ensures Answers(gs + [g], Asked(moves[..n + 1]))
  {
    var gs2 := gs + [g];
    forall i {:trigger gs2[i]} | 0 <= i < |gs2| ensures gs2[i].nbytes == Asked(moves[..n + 1])[i] {
      if i < n {
        assert gs2[i] == gs[i] && moves[..n + 1][i] == moves[..n][i];
      }
    }
  }

  /** A move copies something. */
  method DoCopy(h: RegionHeap, ghost layout0: Layout, ghost l0: Lists, ghost from: int, ghost moves: seq<Move>,
        ghost n: nat, ghost copies: seq<Given>, nbytes: int) returns (ok: bool, ghost copies2: seq<Given>)
    requires Moving(h, layout0, l0, from, moves, n, copies) && Allocatable(nbytes)
    requires n < |moves| && moves[n] == Copy(nbytes)
    modifies h
    ensures h.Valid() && h.newspace == old(h.newspace) && (!ok ==> h.NoRoom(nbytes))
    ensures ok ==> Moving(h, layout0, l0, from, moves, n + 1, copies2)
  {
    hide LayoutOk, ListsOk, SizesOk, Obtained, AllIn, OwnedStay, AllPreserved, AllNew, Answers, Unowned, Gives,
      OnlyNeeded;
    ghost var l, num, ptr, end := h.lists, h.layout.num, h.allocPtr[h.newspace], h.allocEnd[h.newspace];
    var address;
    ghost var g;
    address, g := Give(h, nbytes, copies);
    ok, copies2 := address != 0, copies + [g];
    if ok {
      OwnedThen(l0, l, h.lists, layout0.num, num, h.layout.num, h.newspace);
      PreservedStays(layout0, l0, l, h.lists, num, h.layout.num, moves, n, from, h.newspace);
      NothingPreserved(layout0, l0, h.lists, h.layout.num, moves, n, from, h.newspace);
      if g.region != RegionBefore(end) {
        UnownedBefore(l0, l, layout0.num, num, h.newspace, g.region);
      }
      NewNext(l0, copies, g);
      AskedNext(moves, n, copies, g);
      CopyNeeded(layout0, l0, l, num, ptr, end, h.lists, h.layout.num, h.allocPtr[h.newspace], h.allocEnd[h.newspace],
                 moves, n, from, h.newspace, copies, g);
    }
  }

  lemma NothingPreserved(layout: Layout, l0: Lists, l1: Lists, num1: seq<int>, moves: seq<Move>, n: nat, from: int,
        space: int)
    requires AllPreserved(layout, l0, l1, num1, moves, n, from, space) && n < |moves| && !moves[n].Preserve?
    ensures AllPreserved(layout, l0, l1, num1, moves, n + 1, from, space)
  {
    hide Preserved;
  }

  lemma OnePreserved(layout: Layout, l0: Lists, l1: Lists, num1: seq<int>, moves: seq<Move>, n: nat, from: int,
        space: int)
    requires AllPreserved(layout, l0, l1, num1, moves, n, from, space) && n < |moves| && moves[n].Preserve?
    requires Preserved(layout, l0, l1, num1, moves[n].pointer, from, space)
    ensures AllPreserved(layout, l0, l1, num1, moves, n + 1, from, space)
  {
    hide Preserved;
  }

  lemma InSpaces(k: Links, l: Lists)
    requires ListsOk(k, l)
    ensures forall x {:trigger x in l.place} :: x in l.place && l.place[x].Space? ==>
              l.place[x] == Space(0) || l.place[x] == Space(1)
  {
    forall x {:trigger x in l.place} | x in l.place && l.place[x].Space?
      ensures l.place[x] == Space(0) || l.place[x] == Space(1)
    {
    }
  }

  /** A move preserves a region. */
  method DoPreserve(h: RegionHeap, ghost layout0: Layout, ghost l0: Lists, ghost from: int, ghost moves: seq<Move>,
        ghost n: nat, ghost copies: seq<Given>, p: int) returns (ghost copies2: seq<Given>)
    requires Moving(h, layout0, l0, from, moves, n, copies) && n < |moves| && moves[n] == Preserve(p)
    modifies h`links, h`lists
    ensures Moving(h, layout0, l0, from, moves, n + 1, copies2)
  {
    hide LayoutOk, ListsOk, SizesOk, RegionMoved, AllIn, AllPreserved, AllNew, Answers, Unowned, OwnedStay, OnlyNeeded;
    ghost var l, num := h.lists, h.layout.num;
    HeapSizes(h);
    InSpaces(h.links, h.lists);
    PreservePointer(h, p);
    if s :| Leads(h.layout, l, p, h.oldspace, s) {
      MovedOwned(l, h.lists, num, s, h.newspace);
    }
    PreservedNow(layout0, l0, h.layout, l, h.lists, p, from, h.newspace);
    PreservedStays(layout0, l0, l, h.lists, num, num, moves, n, from, h.newspace);
    OnePreserved(layout0, l0, h.lists, num, moves, n, from, h.newspace);
    OwnedThen(l0, l, h.lists, layout0.num, num, num, h.newspace);
    ghost var ptr, end := h.allocPtr[h.newspace], h.allocEnd[h.newspace];
    OwnedGiven(l, h.lists, num, num, ptr, end, h.newspace, copies);
    NothingGiven(h.lists, num, ptr, end, h.newspace, copies);
    NewNext(l0, copies, Given(0, 0, 0));
    AskedNext(moves, n, copies, Given(0, 0, 0));
    MoveNeeded(layout0, l0, h.layout, l, h.lists, moves, n, from, h.newspace, copies, Given(0, 0, 0));
    copies2 := copies + [Given(0, 0, 0)];
  }

  /** There was no room for one of the copies. */
  ghost predicate CopyFailed(h: RegionHeap, moves: seq<Move>)
    reads h
  {
    exists i {:trigger moves[i]} :: 0 <= i < |moves| && moves[i].Copy? && h.NoRoom(moves[i].nbytes)
  }

  /** cgc_collect_garbage, with any moves for what tracing finds: the regions that pointers led into are kept, what has
      been copied is apart from them and from each other, and no other regions are left. */
  method CollectGarbage(h: RegionHeap, moves: seq<Move>) returns (ok: bool, ghost copies: seq<Given>)
    requires Resting(h) && MovesOk(moves)
    modifies h
    ensures h.Valid() && h.newspace == old(h.oldspace)
    ensures !ok ==> CopyFailed(h, moves)
    ensures ok ==> Resting(h) && Coalesced(h.layout, h.lists)
    ensures ok ==> h.bytesAllocated == CHUNK_BYTES * Chunks(h.layout.num, h.lists.at[Space(h.newspace)])
    ensures ok ==> AllGiven(h, copies) && Answers(copies, Asked(moves)) && AllNew(old(h.lists), copies)
    ensures ok ==>
      AllPreserved(old(h.layout), old(h.lists), h.lists, h.layout.num, moves, |moves|, old(h.newspace), h.newspace)
    ensures ok ==>
      OnlyNeeded(old(h.layout), old(h.lists), h.lists, moves, |moves|, old(h.newspace), h.newspace, copies)
  {
    hide LayoutOk, ListsOk, SizesOk, Coalesced, Obtained, RegionMoved, NoneIn, Kept, AllIn, OwnedStay, AllPreserved,
      AllNew, Answers, Unowned, OnlyNeeded;
    ghost var layout0, l0, from := h.layout, h.lists, h.newspace;
    FlipSpaces(h);
    ok, copies := true, [];
    MovingFirst(h, from, moves);
    for i := 0 to |moves|
      invariant ok && Moving(h, layout0, l0, from, moves, i, copies) && h.newspace == old(h.oldspace)
    {
      match moves[i]
      case Preserve(p) => copies := DoPreserve(h, layout0, l0, from, moves, i, copies, p);
      case Copy(nbytes) =>
        assert Allocatable(nbytes);
        ok, copies := DoCopy(h, layout0, l0, from, moves, i, copies, nbytes);
        if !ok {
          assert moves[i].Copy?;
          return;
        }
    }
    assert moves[..|moves|] == moves;
    ghost var l, num, ptr, end := h.lists, h.layout.num, h.allocPtr[h.newspace], h.allocEnd[h.newspace];
    ghost var links := h.links;
    FinishCollection(h);
    EndNeeded(layout0, l0, links, l, h.links, h.lists, moves, |moves|, from, copies);
    NewOwned(l, h.lists, num, h.layout.num, h.newspace, ptr, end, copies);
    NewPreserved(layout0, l0, l, h.lists, num, h.layout.num, moves, from, h.newspace);
  }

  /** What was in the new space before the end of a collection is there after it. */
  lemma NewOwned(l0: Lists, l1: Lists, num0: seq<int>, num1: seq<int>, space: int, ptr: int, end: int, gs: seq<Given>)
    requires forall x :: x in l0.place && l0.place[x] == Space(space) ==> StaysAt(l0, l1, num0, num1, x)
    requires AllIn(l0, num0, ptr, end, space, gs)
    ensures AllIn(l1, num1, ptr, end, space, gs)
  {
    forall i {:trigger gs[i]} | 0 <= i < |gs| ensures GivenIn(l1, num1, ptr, end, space, gs[i]) {
      assert GivenIn(l0, num0, ptr, end, space, gs[i]);
      assert gs[i].nbytes > 0 ==> StaysAt(l0, l1, num0, num1, gs[i].region);
    }
  }

  lemma NewPreserved(layout: Layout, l0: Lists, l1: Lists, l2: Lists, num1: seq<int>, num2: seq<int>,
        moves: seq<Move>, from: int, space: int)
    requires AllPreserved(layout, l0, l1, num1, moves, |moves|, from, space)
    requires forall x :: x in l1.place && l1.place[x] == Space(space) ==> StaysAt(l1, l2, num1, num2, x)
    ensures AllPreserved(layout, l0, l2, num2, moves, |moves|, from, space)
  {
    forall i {:trigger moves[i]} | 0 <= i < |moves| && moves[i].Preserve?
      ensures Preserved(layout, l0, l2, num2, moves[i].pointer, from, space)
    {
      assert Preserved(layout, l0, l1, num1, moves[i].pointer, from, space);
      forall s {:trigger Leads(layout, l0, moves[i].pointer, from, s)} | Leads(layout, l0, moves[i].pointer, from, s)
        ensures s in l2.place && l2.place[s] == Space(space) && |num2| == |layout.num| && num2[s] == layout.num[s]
      {
        assert StaysAt(l1, l2, num1, num2, s);
      }
    }
  }

  // --- Runs

  /** What the bytes given out since the last collection are, those copied in it included. */
  function RunSizes(actions: seq<Action>): seq<int> {
    if actions == [] then []
    else
      match actions[|actions| - 1]
      case Allocate(nbytes) => RunSizes(actions[..|actions| - 1]) + [nbytes]
      case Collect(moves) => Asked(moves)
  }

  ghost predicate Failed(h: RegionHeap, a: Action)
    reads h
  {
    match a
    case Allocate(nbytes) => h.NoRoom(nbytes)
    case Collect(moves) => CopyFailed(h, moves)
  }

  lemma AnswersNext(gs: seq<Given>, sizes: seq<int>, g: Given)
    requires Answers(gs, sizes)
    ensures Answers(gs + [g], sizes + [g.nbytes])
  {
    var gs2 := gs + [g];
    forall i {:trigger gs2[i]} | 0 <= i < |gs2| ensures gs2[i].nbytes == (sizes + [g.nbytes])[i] {
      assert i < |gs| ==> gs2[i] == gs[i];
    }
  }

  /** Whatever is allocated and collected, until memory runs out, between collections the regions tile the clusters and
      the index agrees with them, every region is in one list, links back and tails are exact, the old space is empty,
      and bytes_allocated is that of the owned regions; what has been given out since the last collection, or copied in
      it, is there and apart; and after a collection no free regions are adjacent. */
  method Run(h: RegionHeap, actions: seq<Action>) returns (ok: bool, ghost given: seq<Given>)
    requires Resting(h) && (forall i :: 0 <= i < |actions| ==> ActionOk(actions[i]))
    modifies h
    ensures h.Valid() && LayoutOk(h.layout, h.lists.place.Keys, h.heapBase, h.top) && ListsOk(h.links, h.lists)
    ensures !ok ==> exists i {:trigger actions[i]} :: 0 <= i < |actions| && Failed(h, actions[i])
    ensures ok ==> Resting(h) && AllGiven(h, given) && Answers(given, RunSizes(actions))
    ensures ok ==> h.bytesAllocated == CHUNK_BYTES * Chunks(h.layout.num, h.lists.at[Space(h.newspace)])
    ensures ok && |actions| > 0 && actions[|actions| - 1].Collect? ==> Coalesced(h.layout, h.lists)
  {
    hide LayoutOk, ListsOk, SizesOk, Coalesced, Obtained, RegionMoved, NoneIn, Kept, AllIn, Answers, AllPreserved,
      AllNew, CopyFailed, Asked, OnlyNeeded, Gives;
    ok, given := true, [];
    NothingYet(h);
    for i := 0 to |actions|
      invariant ok && Resting(h) && AllGiven(h, given) && Answers(given, RunSizes(actions[..i]))
      invariant i > 0 && actions[i - 1].Collect? ==> Coalesced(h.layout, h.lists)
    {
      assert ActionOk(actions[i]) && actions[..i + 1][..i] == actions[..i];
      match actions[i]
      case Allocate(nbytes) =>
        var address;
        ghost var g;
        address, g := Give(h, nbytes, given);
        if address == 0 {
          ok := false;
          assert Failed(h, actions[i]);
          return;
        }
        AnswersNext(given, RunSizes(actions[..i]), g);
        given := given + [g];
      case Collect(moves) =>
        ok, given := CollectGarbage(h, moves);
        if !ok {
          assert Failed(h, actions[i]);
          return;
        }
    }
    assert actions[..|actions|] == actions;
  }

  lemma NothingYet(h: RegionHeap)
    requires h.Valid()
    ensures AllGiven(h, []) && Answers([], [])
  {
    hide LayoutOk, ListsOk, SizesOk;
  }
}
