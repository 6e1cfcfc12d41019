/** The allocator of the conservative collector, src/lisp/cgc.c: clusters of blocks that regions tile, region allocation
    and freeing, the two spaces and the compaction of free regions. */
module RegionHeaps {
  import opened LinkedLists
  import opened RegionIndex
  import opened RegionLists

  const ALIGN_BYTES := 8
  const REGION_OVERHEAD := 16

  /** The chunks of the regions of a list. */
  ghost function Chunks(num: seq<int>, s: seq<int>): int {
    if s == [] then 0
    else Chunks(num, s[..|s| - 1]) + (if 0 <= s[|s| - 1] < |num| then num[s[|s| - 1]] else 0)
  }

  lemma {:induction false} ChunksFrame(num: seq<int>, num2: seq<int>, s: seq<int>)
    requires |num2| == |num| && (forall x {:trigger num2[x]} :: 0 <= x < |num| && x in s ==> num2[x] == num[x])
    ensures Chunks(num2, s) == Chunks(num, s)
  {
    if s != [] {
      assert s[|s| - 1] in s;
      ChunksFrame(num, num2, s[..|s| - 1]);
    }
  }

  lemma ChunksAppend(num: seq<int>, s: seq<int>, x: int)
    requires 0 <= x < |num|
    ensures Chunks(num, s + [x]) == Chunks(num, s) + num[x]
  {
    assert (s + [x])[..|s|] == s;
  }

  lemma {:induction false} ChunksWithout(num: seq<int>, s: seq<int>, p: nat)
    requires p < |s| && 0 <= s[p] < |num|
    ensures Chunks(num, Without(s, p)) == Chunks(num, s) - num[s[p]]
  {
    if p == |s| - 1 {
      assert Without(s, p) == s[..|s| - 1];
    } else {
      ChunksWithout(num, s[..|s| - 1], p);
      assert Without(s, p)[..|s| - 2] == Without(s[..|s| - 1], p);
    }
  }

  /** Regions other than e keep their place and size, new ones are free, and the lists of small regions and of the
      spaces stay. */
  ghost predicate Keeps(l0: Lists, l1: Lists, num0: seq<int>, num1: seq<int>, e: int) {
    && |num1| == |num0|
    && (forall x :: x in l0.place && x != e ==> KeptAt(l0, l1, num0, num1, x))
    && (forall x :: x in l1.place && x !in l0.place && x != e ==> l1.place[x] == Large)
    && (forall p :: p in l0.at && p != Large ==> p in l1.at && l1.at[p] == l0.at[p])
  }

  ghost predicate KeptAt(l0: Lists, l1: Lists, num0: seq<int>, num1: seq<int>, x: int)
    requires x in l0.place
  {
    0 <= x < |num0| && |num1| == |num0| && x in l1.place && l1.place[x] == l0.place[x] && num1[x] == num0[x]
  }

  lemma TakeKeeps(l: Lists, num: seq<int>, pos: nat)
    requires SizesOk(l, num) && pos < |l.at[Large]| && l.at[Large][pos] in l.place
    ensures SizesOk(Taken(l, Large, pos), num)
    ensures Keeps(l, Taken(l, Large, pos), num, num, l.at[Large][pos])
  {
    forall x | x in l.place && x != l.at[Large][pos] ensures KeptAt(l, Taken(l, Large, pos), num, num, x) {
    }
  }

  /** Regions tile the clusters, the index is right, and the clusters are within the heap, below the allocation
      pointer. */
  ghost predicate LayoutOk(l: Layout, starts: set<int>, heapBase: int, top: int) {
    && Tiled(l, starts) && Indexed(l, starts) && 0 < heapBase <= top && top % BLOCK_CHUNKS == 0
    && (forall c :: 0 <= c < |l.clusters| ==> heapBase <= l.clusters[c].first)
    && (forall b :: 0 <= b < |l.block| && top <= b * BLOCK_CHUNKS ==> l.block[b] == -1)
  }

  /** Every region has a size, which is one chunk in the list of small ones. */
  ghost predicate SizesOk(l: Lists, num: seq<int>) {
    && (forall p :: IsPlace(p) ==> p in l.at)
    && (forall x :: x in l.place ==> 0 < x < |num|)
    && (forall x :: x in l.at[Small] ==> 0 < x < |num| && num[x] == 1)
  }

  lemma LargeAt(l: Layout, starts: set<int>, heapBase: int, top: int, k: Links, lists: Lists, pos: nat)
    requires LayoutOk(l, starts, heapBase, top) && ListsOk(k, lists) && starts == lists.place.Keys
    requires SizesOk(lists, l.num) && |l.num| == |k.next| && pos < |lists.at[Large]|
    ensures Large in lists.at && forall j :: 0 <= j < |lists.at[Large]| ==> 0 < lists.at[Large][j] < |l.num|
    ensures var r := lists.at[Large][pos];
            r in lists.place && lists.place[r] == Large && RegionIndex.RegionOk(l, starts, r) && OffsetsOk(l, r)
  {
    ListAt(k, lists, Large);
    forall j | 0 <= j < |lists.at[Large]| ensures 0 < lists.at[Large][j] < |l.num| {
      assert lists.at[Large][j] in lists.at[Large];
    }
    assert lists.at[Large][pos] in lists.at[Large];
  }

  /** A region is split, and the offsets of its second part are set up. */
  lemma SplitLayout(l: Layout, l2: Layout, starts: set<int>, heapBase: int, top: int, s: int, n: int)
    requires LayoutOk(l, starts, heapBase, top) && s in starts && 0 <= s < n < |l.num| && n < s + l.num[s]
    requires RegionIndex.RegionOk(l, starts, s) && OffsetsOk(l, s)
    requires l2.clusters == l.clusters && l2.block == l.block && |l2.off| == |l.off|
    requires l2.num == l.num[n := s + l.num[s] - n][s := n - s] && OffsetsOk(l2, n)
    requires forall x :: 0 <= x < |l.off| && !(n <= x < s + l.num[s]) ==> l2.off[x] == l.off[x]
    ensures LayoutOk(l2, starts + {n}, heapBase, top)
  {
    hide Tiled;
    SplitTiled(l, l2, starts, s, n);
    var lm := l2.(off := l.off);
    SplitTiled(l, lm, starts, s, n);
    forall t | t in starts + {n} && t != n ensures OffsetsOk(lm, t) {
      assert OffsetsOk(l, t);
    }
    SplitNew(l, starts, s, n);
    TiledAt(lm, starts + {n}, n);
    InitIndexed(lm, l2, starts + {n}, n);
  }

  lemma TiledAt(l: Layout, starts: set<int>, s: int)
    requires Tiled(l, starts) && s in starts
    ensures RegionIndex.RegionOk(l, starts, s)
  {
  }

  lemma SplitNew(l: Layout, starts: set<int>, s: int, n: int)
    requires Tiled(l, starts) && RegionIndex.RegionOk(l, starts, s) && s < n < s + l.num[s]
    ensures n !in starts
  {
  }

  /** Splitting the region at position pos of the list of large regions. */
  lemma SplitKeeps(l: Lists, num: seq<int>, num2: seq<int>, pos: nat, e: int)
    requires SizesOk(l, num) && pos < |l.at[Large]| && l.at[Large][pos] in l.place && e !in l.place && 0 < e < |num|
    requires |num2| == |num| && (forall x :: 0 <= x < |num| && x != e && x != l.at[Large][pos] ==> num2[x] == num[x])
    requires l.at[Large][pos] !in l.at[Small]
    ensures SizesOk(Split(l, Large, pos, e), num2) || e in l.at[Small]
    ensures Keeps(l, Split(l, Large, pos, e), num, num2, l.at[Large][pos])
  {
    forall x | x in l.place && x != l.at[Large][pos] ensures KeptAt(l, Split(l, Large, pos, e), num, num2, x) {
    }
  }

  lemma NotSmall(k: Links, l: Lists, r: int, e: int)
    requires ListsOk(k, l) && r in l.place && l.place[r] == Large && e !in l.place
    ensures Small in l.at && r !in l.at[Small] && e !in l.at[Small]
  {
    ListAt(k, l, Small);
  }

  lemma SplitInside(l: Layout, starts: set<int>, heapBase: int, top: int, s: int, n: int)
    requires LayoutOk(l, starts, heapBase, top) && RegionIndex.RegionOk(l, starts, s) && 0 < s < n < s + l.num[s]
    ensures |l.num| == |l.off| && s + l.num[s] <= |l.off| && n !in starts
  {
    assert ClusterOk(l, ClusterOf(l, s));
  }

  ghost predicate NoneAsLarge(l: Lists, num: seq<int>, nchunks: int) {
    forall x :: x in l.place && l.place[x] == Large ==> 0 <= x < |num| && num[x] < nchunks
  }

  lemma ListAtLarge(k: Links, l: Lists)
    requires ListsOk(k, l)
    ensures Large in l.at && List(k.next, k.large, l.at[Large])
  {
    ListAt(k, l, Large);
  }

  lemma InLarge(k: Links, l: Lists, x: int)
    requires ListsOk(k, l) && x in l.place && l.place[x] == Large
    ensures Large in l.at && exists j :: 0 <= j < |l.at[Large]| && l.at[Large][j] == x
  {
    assert ListOk(k, l, Large) && Holds(l, Large, x);
  }

  ghost predicate HasLarge(l: Lists, num: seq<int>, nchunks: int) {
    exists x :: x in l.place && l.place[x] == Large && 0 <= x < |num| && num[x] >= nchunks
  }

  lemma BlocksMatch(l: Layout, starts: set<int>, heapBase: int, top: int)
    requires LayoutOk(l, starts, heapBase, top)
    ensures |l.num| == |l.off| == |l.block| * BLOCK_CHUNKS && 0 < top && top % BLOCK_CHUNKS == 0
  {
  }

  lemma BlockRange(first: int, blocks: int, n: int)
    requires 0 < first && first % BLOCK_CHUNKS == 0 && 0 < blocks && first + blocks * BLOCK_CHUNKS <= n * BLOCK_CHUNKS
    ensures forall b :: first / BLOCK_CHUNKS <= b < first / BLOCK_CHUNKS + blocks <==>
                          first <= b * BLOCK_CHUNKS < Cluster(first, blocks).End()
    ensures first / BLOCK_CHUNKS + blocks <= n
  {
    assert first == first / BLOCK_CHUNKS * BLOCK_CHUNKS;
  }

  lemma NewClusterLayout(l: Layout, l2: Layout, starts: set<int>, heapBase: int, top: int, k: Cluster)
    requires LayoutOk(l, starts, heapBase, top) && k.first == top && 0 < k.blocks <= MAX_BLOCKS && k.End() <= |l.num|
    requires l2.clusters == l.clusters + [k] && |l2.block| == |l.block| && |l2.off| == |l.off|
    requires forall b :: 0 <= b < |l.block| ==>
               l2.block[b] == if k.first <= b * BLOCK_CHUNKS < k.End() then |l.clusters| else l.block[b]
    requires l2.num == l.num[k.first := k.blocks * BLOCK_CHUNKS] && OffsetsOk(l2, k.first)
    requires forall x :: 0 <= x < |l.off| && !(k.first <= x < k.End()) ==> l2.off[x] == l.off[x]
    ensures k.first !in starts && LayoutOk(l2, starts + {k.first}, heapBase, k.End())
  {
    NewClusterTiled(l, l2, starts, k);
    var lm := l2.(off := l.off);
    NewClusterTiled(l, lm, starts, k);
    forall t | t in starts + {k.first} && t != k.first ensures OffsetsOk(lm, t) {
      assert OffsetsOk(l, t);
    }
    TiledAt(lm, starts + {k.first}, k.first);
    InitIndexed(lm, l2, starts + {k.first}, k.first);
  }

  lemma NewClusterKeeps(k: Links, l: Lists, num: seq<int>, num2: seq<int>, r: int)
    requires ListsOk(k, l) && SizesOk(l, num) && r !in l.place && 0 < r < |num| && |num2| == |num|
    requires forall x :: 0 <= x < |num| && x != r ==> num2[x] == num[x]
    ensures Large in l.at && SizesOk(Put(l, Large, [r] + l.at[Large], r, Large), num2)
    ensures Keeps(l, Put(l, Large, [r] + l.at[Large], r, Large), num, num2, 0)
  {
    ListAt(k, l, Small);
    var l2 := Put(l, Large, [r] + l.at[Large], r, Large);
    forall x | x in l.place ensures KeptAt(l, l2, num, num2, x) {
    }
  }

  lemma EnoughBlocks(l: Lists, num: seq<int>, have: int, nchunks: int)
    requires HasLarge(l, num, have) && have >= nchunks
    ensures !NoneAsLarge(l, num, nchunks)
  {
  }

  lemma KeepsTrans(l0: Lists, l1: Lists, l2: Lists, num0: seq<int>, num1: seq<int>, num2: seq<int>, e: int)
    requires Keeps(l0, l1, num0, num1, 0) && Keeps(l1, l2, num1, num2, e) && 0 !in l0.place && 0 !in l1.place
    ensures Keeps(l0, l2, num0, num2, e)
    ensures e in l0.place ==> e in l1.place && l1.place[e] == l0.place[e]
  {
    assert e in l0.place ==> KeptAt(l0, l1, num0, num1, e);
    forall x | x in l0.place && x != e ensures KeptAt(l0, l2, num0, num2, x) {
      assert KeptAt(l0, l1, num0, num1, x) && KeptAt(l1, l2, num1, num2, x);
    }
    forall x | x in l2.place && x !in l0.place && x != e ensures l2.place[x] == Large {
      if x in l1.place {
        assert KeptAt(l1, l2, num1, num2, x);
      }
    }
  }

  lemma NotZero(l: Lists, num: seq<int>)
    requires SizesOk(l, num)
    ensures 0 !in l.place
  {
  }

  /** The chunks of the regions of both spaces. */
  ghost function Owned(l: Lists, num: seq<int>): int
    requires Space(0) in l.at && Space(1) in l.at
  {
    Chunks(num, l.at[Space(0)]) + Chunks(num, l.at[Space(1)])
  }

  ghost predicate RemovedFrom(s0: seq<int>, s1: seq<int>, x: int) {
    exists p :: 0 <= p < |s0| && s0[p] == x && s1 == Without(s0, p)
  }

  /** A region that was loose or in a space is in the new space, at the end of its list if it was not there before. */
  ghost predicate RegionMoved(l0: Lists, l1: Lists, num: seq<int>, region: int, newspace: int) {
    && region in l0.place && 0 <= region < |num| && l1.place == l0.place[region := Space(newspace)]
    && (forall i :: i in {newspace, 1 - newspace, 0, 1} ==> Space(i) in l0.at && Space(i) in l1.at)
    && (forall p :: p in l0.at && !p.Space? ==> p in l1.at && l1.at[p] == l0.at[p])
    && l1.at[Space(newspace)] == l0.at[Space(newspace)] + (if l0.place[region] == Space(newspace) then [] else [region])
    && (if l0.place[region] == Space(1 - newspace) then RemovedFrom(l0.at[Space(1 - newspace)],
        l1.at[Space(1 - newspace)], region)
        else l1.at[Space(1 - newspace)] == l0.at[Space(1 - newspace)])
    && Owned(l1, num) == Owned(l0, num) + if l0.place[region] == Loose then num[region] else 0
  }

  lemma MovedLoose(l: Lists, num: seq<int>, region: int, newspace: int)
    requires SizesOk(l, num) && region in l.place && 0 <= newspace < 2 && l.place[region] == Loose
    ensures forall p :: IsPlace(p) ==> p in l.at
    ensures RegionMoved(l, Put(l, Space(newspace), l.at[Space(newspace)] + [region], region, Space(newspace)), num,
        region, newspace)
  {
    hide SizesOk, Chunks;
    InSizes(l, num);
    ChunksAppend(num, l.at[Space(newspace)], region);
  }

  lemma MovedAlready(l: Lists, num: seq<int>, region: int, newspace: int)
    requires SizesOk(l, num) && region in l.place && 0 <= newspace < 2 && l.place[region] == Space(newspace)
    ensures RegionMoved(l, l, num, region, newspace)
  {
    hide SizesOk, Chunks;
    InSizes(l, num);
    assert l.place[region := Space(newspace)] == l.place;
  }

  lemma MovedOld(l: Lists, num: seq<int>, region: int, newspace: int, pos: nat)
    requires SizesOk(l, num) && region in l.place && 0 <= newspace < 2 && l.place[region] == Space(1 - newspace)
    requires pos < |l.at[Space(1 - newspace)]| && l.at[Space(1 - newspace)][pos] == region
    ensures forall p :: IsPlace(p) ==> p in l.at
    ensures var l1 := Put(l, Space(1 - newspace), Without(l.at[Space(1 - newspace)], pos), region, Loose);
            RegionMoved(l, Put(l1, Space(newspace), l1.at[Space(newspace)] + [region], region, Space(newspace)), num,
                region, newspace)
  {
    hide Without, SizesOk, Chunks;
    InSizes(l, num);
    ChunksWithout(num, l.at[Space(1 - newspace)], pos);
    ChunksAppend(num, l.at[Space(newspace)], region);
  }

  lemma InSizes(l: Lists, num: seq<int>)
    requires SizesOk(l, num)
    ensures (forall p :: IsPlace(p) ==> p in l.at) && (forall x :: x in l.place ==> 0 < x < |num|)
  {
  }

  /** A region that was in a space is in the new one, and nothing else has changed. */
  lemma PromotedOk(l0: Lists, l1: Lists, num: seq<int>, region: int, newspace: int)
    requires RegionMoved(l0, l1, num, region, newspace) && l0.place[region].Space? && 0 <= newspace < 2
    requires forall x :: x in l0.place ==> l0.place[x] != Loose
    ensures forall x :: x in l1.place ==> l1.place[x] != Loose
    ensures forall x ::
      x in l0.place && l0.place[x] == Space(newspace) ==> x in l1.place && l1.place[x] == Space(newspace)
    ensures Space(0) in l0.at && Space(1) in l0.at && Space(0) in l1.at && Space(1) in l1.at
    ensures Owned(l1, num) == Owned(l0, num)
  {
  }

  lemma EmptyLayout(l: Layout, heapBase: int, heapEnd: int, start: int, top: int)
    requires 0 < heapBase <= start && heapBase <= heapEnd && heapEnd % BLOCK_CHUNKS == 0
    requires l.clusters == [] && |l.block| == heapEnd / BLOCK_CHUNKS && |l.num| == |l.off| == heapEnd
    requires forall b :: 0 <= b < |l.block| ==> l.block[b] == -1
    requires top == (start + BLOCK_CHUNKS - 1) / BLOCK_CHUNKS * BLOCK_CHUNKS
    ensures LayoutOk(l, {}, heapBase, top)
  {
    assert heapEnd == heapEnd / BLOCK_CHUNKS * BLOCK_CHUNKS;
    assert start <= top;
  }

  lemma EmptyLists(k: Links, l: Lists)
    requires Sizes(k) && k.large == 0 && k.small == 0 && k.heads == [0, 0] && k.tails == [First(0), First(1)]
    requires l == Lists(map[Large := [], Small := [], Space(0) := [], Space(1) := []], map[])
    ensures ListsOk(k, l)
  {
    forall p | p in l.at ensures ListOk(k, l, p) {
      assert l.at[p] == [];
    }
  }

  lemma InSpace(k: Links, l: Lists, i: int, pos: nat)
    requires ListsOk(k, l) && 0 <= i < 2 && Space(i) in l.at && pos < |l.at[Space(i)]|
    ensures l.at[Space(i)][pos] in l.place && l.place[l.at[Space(i)][pos]] == Space(i)
  {
    assert l.at[Space(i)][pos] in l.at[Space(i)];
    ListAt(k, l, Space(i));
  }

  lemma OwnerAt(k: Links, l: Lists, x: int)
    requires ListsOk(k, l) && x in l.place
    ensures Sizes(k) && 0 < x < |k.next| && k.owner[x] == OwnerOf(l.place[x])
    ensures l.place[x] == Loose || IsPlace(l.place[x])
    ensures forall p :: IsPlace(p) ==> p in l.at
  {
    assert OwnerOk(k, l, x);
  }

  lemma FindAt(k: Links, l: Lists, x: int, i: int) returns (pos: nat)
    requires ListsOk(k, l) && 0 <= i < 2 && x in l.place && l.place[x] == Space(i)
    ensures Space(i) in l.at && pos < |l.at[Space(i)]| && l.at[Space(i)][pos] == x
  {
    assert ListOk(k, l, Space(i)) && Holds(l, Space(i), x);
    pos :| 0 <= pos < |l.at[Space(i)]| && l.at[Space(i)][pos] == x;
  }

  lemma RemoveOk(k: Links, l: Lists, pos: nat, i: int)
    requires ListsOk(k, l) && 0 <= i < 2 && Space(i) in l.at && pos < |l.at[Space(i)]|
    ensures Sizes(k) && 0 < l.at[Space(i)][pos] < |k.next| && 0 <= k.next[l.at[Space(i)][pos]] < |k.next|
    ensures SlotOk(k, k.prev[l.at[Space(i)][pos]])
    ensures ListsOk(Detach(k, l.at[Space(i)][pos], i), Put(l, Space(i), Without(l.at[Space(i)], pos),
        l.at[Space(i)][pos], Loose))
  {
    hide LinksOk, SpaceOk;
    var e := l.at[Space(i)][pos];
    ListAt(k, l, Space(i));
    assert e in l.at[Space(i)];
    DetachSlots(k, l, e, i);
    DetachOk(k, l, pos, i);
  }

  lemma AddOk(k: Links, l: Lists, e: int, i: int)
    requires ListsOk(k, l) && 0 <= i < 2 && e in l.place && l.place[e] == Loose && 0 < e < |k.next|
    ensures Sizes(k) && Space(i) in l.at && SlotOk(k, k.tails[i])
    ensures ListsOk(Attach(k, e, i), Put(l, Space(i), l.at[Space(i)] + [e], e, Space(i)))
  {
    hide LinksOk, SpaceOk;
    ListAt(k, l, Space(i));
    AttachSlot(k, l, i);
    AttachOk(k, l, e, i);
  }

  lemma PutSizes(l: Lists, num: seq<int>, p: Place, s: seq<int>, x: int, q: Place)
    requires SizesOk(l, num) && p.Space? && 0 < x < |num|
    ensures SizesOk(Put(l, p, s, x, q), num)
  {
  }

  lemma ListAtSmall(k: Links, l: Lists)
    requires ListsOk(k, l)
    ensures Small in l.at && k.small == Following(l.at[Small], -1) && (k.small == 0 ==> l.at[Small] == [])
  {
    ListAt(k, l, Small);
    assert l.at[Small] != [] ==> l.at[Small][0] in l.at[Small];
  }

  lemma SmallAt(k: Links, l: Lists, num: seq<int>)
    requires ListsOk(k, l) && SizesOk(l, num) && |l.at[Small]| > 0
    ensures l.at[Small][0] in l.place && l.place[l.at[Small][0]] == Small
    ensures 0 < l.at[Small][0] < |num| && num[l.at[Small][0]] == 1
  {
    ListAt(k, l, Small);
    assert l.at[Small][0] in l.at[Small];
  }

  /** What taking a region leaves as it was, the free lists apart. */
  ghost predicate KeepsOthers(l0: Lists, l1: Lists, num0: seq<int>, num1: seq<int>, e: int) {
    && |num1| == |num0|
    && (forall x :: x in l0.place && x != e ==> KeptAt(l0, l1, num0, num1, x))
    && (forall x :: x in l1.place && x !in l0.place && x != e ==> l1.place[x] == Large)
    && (forall p :: p in l0.at && p.Space? ==> p in l1.at && l1.at[p] == l0.at[p])
  }

  lemma TakeSmallKeeps(l: Lists, num: seq<int>)
    requires SizesOk(l, num) && |l.at[Small]| > 0 && l.at[Small][0] in l.place
    ensures SizesOk(Taken(l, Small, 0), num)
    ensures KeepsOthers(l, Taken(l, Small, 0), num, num, l.at[Small][0])
  {
    var l2 := Taken(l, Small, 0);
    forall x | x in l2.at[Small] ensures x in l.at[Small] {
    }
    forall x | x in l.place && x != l.at[Small][0] ensures KeptAt(l, l2, num, num, x) {
    }
  }

  /** A region that was free, or part of one, or did not exist, has been added to the new space; the others stay. */
  ghost predicate Obtained(l0: Lists, l1: Lists, num0: seq<int>, num1: seq<int>, region: int, nchunks: int,
        newspace: int)
  {
    && 0 < region < |num1| == |num0| && num1[region] == nchunks
    && (region in l0.place ==> l0.place[region] in {Large, Small})
    && region in l1.place && l1.place[region] == Space(newspace)
    && (forall x :: x in l0.place && x != region ==> KeptAt(l0, l1, num0, num1, x))
    && (forall x :: x in l1.place && x !in l0.place && x != region ==> l1.place[x] == Large)
    && (forall i :: i in {newspace, 1 - newspace, 0, 1} ==> Space(i) in l0.at && Space(i) in l1.at)
    && l1.at[Space(newspace)] == l0.at[Space(newspace)] + [region]
    && l1.at[Space(1 - newspace)] == l0.at[Space(1 - newspace)]
    && Owned(l1, num1) == Owned(l0, num0) + nchunks
  }

  lemma ObtainedOk(k0: Links, l0: Lists, l1: Lists, l2: Lists, num0: seq<int>, num1: seq<int>, region: int,
        nchunks: int, newspace: int)
    requires ListsOk(k0, l0) && SizesOk(l0, num0) && 0 <= newspace < 2
    requires Keeps(l0, l1, num0, num1, region) || KeepsOthers(l0, l1, num0, num1, region)
    requires region in l1.place && l1.place[region] == Loose && 0 < region < |num1| && num1[region] == nchunks
    requires region in l0.place ==> l0.place[region] in {Large, Small}
    requires RegionMoved(l1, l2, num1, region, newspace)
    ensures Obtained(l0, l2, num0, num1, region, nchunks, newspace)
  {
    hide LinksOk, SpaceOk;
    forall x | x in l0.place && x != region ensures KeptAt(l0, l2, num0, num1, x) {
      assert KeptAt(l0, l1, num0, num1, x);
    }
    forall i | 0 <= i < 2 ensures Chunks(num1, l0.at[Space(i)]) == Chunks(num0, l0.at[Space(i)]) {
      ListAt(k0, l0, Space(i));
      forall x | 0 <= x < |num0| && x in l0.at[Space(i)] ensures num1[x] == num0[x] {
        assert KeptAt(l0, l1, num0, num1, x);
      }
      ChunksFrame(num0, num1, l0.at[Space(i)]);
    }
  }

  lemma ObtainedPlaces(l0: Lists, l1: Lists, num0: seq<int>, num1: seq<int>, region: int, nchunks: int, newspace: int)
    requires Obtained(l0, l1, num0, num1, region, nchunks, newspace)
    requires forall x :: x in l0.place ==> l0.place[x] != Loose
    ensures forall x :: x in l1.place ==> l1.place[x] != Loose
  {
    forall x | x in l1.place ensures l1.place[x] != Loose {
      if x in l0.place && x != region {
        assert KeptAt(l0, l1, num0, num1, x);
      }
    }
  }

  lemma ObtainedPlace(l0: Lists, l1: Lists, num0: seq<int>, num1: seq<int>, region: int, nchunks: int, newspace: int)
    requires Obtained(l0, l1, num0, num1, region, nchunks, newspace)
    ensures 0 < region < |num1| && num1[region] == nchunks && region in l1.place && l1.place[region] == Space(newspace)
    ensures Space(0) in l0.at && Space(1) in l0.at && Space(0) in l1.at && Space(1) in l1.at
    ensures Owned(l1, num1) == Owned(l0, num0) + nchunks
    ensures Space(1 - newspace) in l0.at && Space(1 - newspace) in l1.at
    ensures l1.at[Space(1 - newspace)] == l0.at[Space(1 - newspace)]
  {
  }

  lemma ObtainedKeeps(l0: Lists, l1: Lists, num0: seq<int>, num1: seq<int>, region: int, nchunks: int, newspace: int)
    requires Obtained(l0, l1, num0, num1, region, nchunks, newspace)
    ensures Space(0) in l0.at && Space(1) in l0.at && Space(0) in l1.at && Space(1) in l1.at
    ensures Owned(l1, num1) == Owned(l0, num0) + nchunks
    ensures forall x :: x in l0.place && l0.place[x].Space? ==>
              x in l1.place && l1.place[x] == l0.place[x] && 0 <= x < |num0| == |num1| && num1[x] == num0[x]
  {
    forall x | x in l0.place && l0.place[x].Space?
      ensures x in l1.place && l1.place[x] == l0.place[x] && 0 <= x < |num0| == |num1| && num1[x] == num0[x] {
      assert KeptAt(l0, l1, num0, num1, x);
    }
  }

  function RoundUp(n: int): int {
    (n + ALIGN_BYTES - 1) / ALIGN_BYTES * ALIGN_BYTES
  }

  predicate Aligned(address: int) {
    address % ALIGN_BYTES == 0
  }

  /** The region of one chunk that ends at this address. */
  function RegionBefore(end: int): int {
    end / CHUNK_BYTES - 1
  }

  /** The bytes from ptr to end are what is left of region r, which has one chunk. */
  predicate Cursor(ptr: int, end: int, r: int) {
    end == (r + 1) * CHUNK_BYTES && Aligned(ptr) && r * CHUNK_BYTES + REGION_OVERHEAD <= ptr <= end
  }

  lemma NewCursor(r: int)
    ensures RegionBefore((r + 1) * CHUNK_BYTES) == r
    ensures Cursor(r * CHUNK_BYTES + REGION_OVERHEAD, (r + 1) * CHUNK_BYTES, r)
  {
    assert r * CHUNK_BYTES + REGION_OVERHEAD == ALIGN_BYTES * (64 * r + 2);
    Multiple(64 * r + 2);
  }

  lemma Multiple(k: int)
    ensures ALIGN_BYTES * k % ALIGN_BYTES == 0
  {
  }

  /** The end of a chunk is aligned, so rounding up does not pass it. */
  lemma BumpCursor(ptr: int, end: int, r: int, n: int)
    requires Cursor(ptr, end, r) && ptr + n <= end && 0 < n
    ensures Cursor(ptr + RoundUp(n), end, r) && ptr + n <= ptr + RoundUp(n)
  {
    hide RoundUp, Aligned;
    RoundedUp(n);
    SumAligned(ptr, RoundUp(n));
    ChunkAligned(r + 1);
    AlignedBelow(ptr + RoundUp(n), end);
  }

  lemma RoundedUp(n: int)
    ensures n <= RoundUp(n) <= n + ALIGN_BYTES - 1 && Aligned(RoundUp(n))
  {
    Multiple((n + ALIGN_BYTES - 1) / ALIGN_BYTES);
  }

  lemma SumAligned(a: int, b: int)
    requires Aligned(a) && Aligned(b)
    ensures Aligned(a + b)
  {
  }

  lemma ChunkAligned(r: int)
    ensures Aligned(r * CHUNK_BYTES)
  {
    assert r * CHUNK_BYTES == ALIGN_BYTES * (64 * r);
    Multiple(64 * r);
  }

  lemma AlignedBelow(a: int, b: int)
    requires Aligned(a) && Aligned(b) && a <= b + ALIGN_BYTES - 1
    ensures a <= b
  {
  }

  class RegionHeap {
    const heapBase: int
    var layout: Layout
    var links: Links
    var smallObjects: seq<bool>
    var newspace: int
    var oldspace: int
    var allocPtr: seq<int>
    var allocEnd: seq<int>
    var top: int
    var bytesAllocated: int
    var chunksFreed: int
    ghost var lists: Lists

    ghost function Starts(): set<int>
      reads `lists
    {
      lists.place.Keys
    }

    /** The layout, the index and the lists are right, but for regions about to be put in a list. */
    ghost predicate Laid()
      reads this
    {
      && |links.next| == |layout.num| && |smallObjects| == |layout.num| && 0 <= newspace < 2 && oldspace == 1 - newspace
      && LayoutOk(layout, Starts(), heapBase, top) && ListsOk(links, lists) && SizesOk(lists, layout.num)
    }

    /** cgc_init_collector: no clusters yet, the first one to begin at the first block boundary from start on. */
    constructor (heapBase: int, heapEnd: int, start: int)
      requires 0 < heapBase <= start && heapBase <= heapEnd && heapEnd % BLOCK_CHUNKS == 0
      ensures Valid() && lists.place == map[] && newspace == 0 && lists.at[Space(1)] == [] && this.heapBase == heapBase
      ensures allocPtr[oldspace] == 0 && allocEnd[oldspace] == 0
    {
      hide ListsOk, LayoutOk;
      this.heapBase := heapBase;
      var blocks := heapEnd / BLOCK_CHUNKS;
      layout := Layout([], seq(blocks, i => -1), seq(heapEnd, i => 0), seq(heapEnd, i => 0));
      links := Links(seq(heapEnd, i => 0), seq(heapEnd, i => Null), seq(heapEnd, i => NO_SPACE), 0, 0, [0, 0],
          [First(0), First(1)]);
      smallObjects := seq(heapEnd, i => false);
      newspace, oldspace := 0, 1;
      allocPtr, allocEnd := [0, 0], [0, 0];
      top := (start + BLOCK_CHUNKS - 1) / BLOCK_CHUNKS * BLOCK_CHUNKS;
      bytesAllocated, chunksFreed := 0, 0;
      lists := Lists(map[Large := [], Small := [], Space(0) := [], Space(1) := []], map[]);
      new;
      EmptyLists(links, lists);
      EmptyLayout(layout, heapBase, heapEnd, start, top);
      assert Starts() == {};
    }

    /** The region is there to be put in the list of a space. */
    ghost predicate Got(region: int, nchunks: int)
      reads this
    {
      0 < region < |layout.num| && layout.num[region] == nchunks && region in lists.place &&
          lists.place[region] == Loose
    }

    /** init_region */
    method InitRegion(region: int, nchunks: int)
      requires |layout.num| == |layout.off| == |smallObjects| && 0 <= region && 0 < nchunks
      requires region + nchunks <= |layout.off|
      modifies `layout, `smallObjects
      ensures layout == old(layout).(num := old(layout).num[region := nchunks], off := layout.off)
      ensures |layout.off| == |old(layout).off| && |smallObjects| == |old(smallObjects)|
      ensures OffsetsOk(layout, region)
      ensures forall x ::
        0 <= x < |layout.off| && !(region <= x < region + nchunks) ==> layout.off[x] == old(layout).off[x]
    {
      smallObjects := smallObjects[region := false];
      var off := layout.off;
      var i := 0;
      if nchunks > UCHAR_MAX {
        while i < UCHAR_MAX
          invariant 0 <= i <= UCHAR_MAX && |off| == |layout.off|
          invariant forall x :: region <= x < region + i ==> off[x] == x - region
          invariant forall x :: 0 <= x < |off| && !(region <= x < region + i) ==> off[x] == layout.off[x]
        {
          off := off[region + i := i];
          i := i + 1;
        }
        while i < nchunks
          invariant UCHAR_MAX <= i <= nchunks && |off| == |layout.off|
          invariant forall x :: region <= x < region + i ==> off[x] == Saturated(x - region)
          invariant forall x :: 0 <= x < |off| && !(region <= x < region + i) ==> off[x] == layout.off[x]
        {
          off := off[region + i := UCHAR_MAX];
          i := i + 1;
        }
      } else {
        while i < nchunks
          invariant 0 <= i <= nchunks && |off| == |layout.off|
          invariant forall x :: region <= x < region + i ==> off[x] == Saturated(x - region)
          invariant forall x :: 0 <= x < |off| && !(region <= x < region + i) ==> off[x] == layout.off[x]
        {
          off := off[region + i := i];
          i := i + 1;
        }
      }
      layout := layout.(num := layout.num[region := nchunks], off := off);
    }

    /** The whole of the region at position pos of the list of large regions is taken. */
    method TakeWhole(region: int, before: int, ghost pos: nat)
      requires Laid() && Large in lists.at && pos < |lists.at[Large]| && region == lists.at[Large][pos]
      requires before == if pos == 0 then 0 else lists.at[Large][pos - 1]
      modifies `links, `lists
      ensures Laid() && region in lists.place && lists.place[region] == Loose && 0 < region < |layout.num|
      ensures old(region in lists.place && lists.place[region] == Large)
      ensures Keeps(old(lists), lists, layout.num, layout.num, region)
    {
      hide LayoutOk, ListsOk, SizesOk, Without, Keeps;
      LargeAt(layout, Starts(), heapBase, top, links, lists, pos);
      TakeOk(links, lists, Large, pos);
      TakeKeeps(lists, layout.num, pos);
      var k := links;
      k := if before == 0 then k.(large := k.next[region]) else k.(next := k.next[before := k.next[region]]);
      links := k.(next := k.next[region := 0], prev := k.prev[region := Null], owner := k.owner[region := NO_SPACE]);
      assert links == Take(old(links), Large, lists.at[Large], pos);
      lists := Taken(lists, Large, pos);
      assert Starts() == old(Starts());
    }

    /** The region at position pos of the list of large regions is split, and its first part taken. */
    method TakePart(region: int, before: int, nchunks: int, ghost pos: nat)
      requires Laid() && Large in lists.at && pos < |lists.at[Large]| && region == lists.at[Large][pos]
      requires before == if pos == 0 then 0 else lists.at[Large][pos - 1]
      requires 0 < region < |layout.num| && 0 < nchunks < layout.num[region]
      modifies `layout, `smallObjects, `links, `lists
      ensures Laid() && region in lists.place && lists.place[region] == Loose && 0 < region < |layout.num|
      ensures layout.num[region] == nchunks && layout.block == old(layout).block
      ensures old(region in lists.place && lists.place[region] == Large)
      ensures Keeps(old(lists), lists, old(layout).num, layout.num, region)
    {
      hide LayoutOk, ListsOk, SizesOk, Without, Keeps, RegionIndex.RegionOk;
      LargeAt(layout, Starts(), heapBase, top, links, lists, pos);
      var new_ := region + nchunks;
      SplitInside(layout, Starts(), heapBase, top, region, new_);
      InitRegion(new_, layout.num[region] - nchunks);
      SplitOk(links, lists, Large, pos, new_);
      NotSmall(links, lists, region, new_);
      var k := links;
      k := k.(next := k.next[new_ := k.next[region]], prev := k.prev[new_ := Null], owner := k.owner[new_ := NO_SPACE]);
      k := if before == 0 then k.(large := new_) else k.(next := k.next[before := new_]);
      layout := layout.(num := layout.num[region := nchunks]);
      links := k.(next := k.next[region := 0], prev := k.prev[region := Null], owner := k.owner[region := NO_SPACE]);
      assert links == Replace(old(links), Large, lists.at[Large], pos, new_);
      SplitLayout(old(layout), layout, Starts(), heapBase, top, region, new_);
      SplitKeeps(lists, old(layout).num, layout.num, pos, new_);
      lists := Split(lists, Large, pos, new_);
      assert Starts() == old(Starts()) + {new_};
    }

    /** maybe_alloc_large_region: the first free region that is large enough, cut to size, or 0 if there is none. */
    method MaybeAllocLargeRegion(nchunks: int) returns (region: int)
      requires Laid() && 0 < nchunks
      modifies `layout, `smallObjects, `links, `lists
      ensures Laid() && layout.block == old(layout).block
      ensures region == 0 ==> lists == old(lists) && layout == old(layout) && NoneAsLarge(lists, layout.num, nchunks)
      ensures region != 0 ==> Got(region, nchunks) && Keeps(old(lists), lists, old(layout).num, layout.num, region)
      ensures region != 0 ==> old(region in lists.place && lists.place[region] == Large)
    {
      hide LayoutOk, SizesOk, Without, Keeps, RegionIndex.RegionOk, LinksOk, SpaceOk;
      ListAtLarge(links, lists);
      ghost var s := lists.at[Large];
      ghost var pos := 0;
      var before := 0;
      region := links.large;
      while region != 0
        invariant 0 <= pos <= |s| && region == Following(s, pos - 1) && before == if pos == 0 then 0 else s[pos - 1]
        invariant forall j :: 0 <= j < pos ==> 0 < s[j] < |layout.num| && layout.num[s[j]] < nchunks
        invariant lists == old(lists) && layout == old(layout) && Laid()
        decreases |s| - pos
        modifies {}
      {
        LargeAt(layout, Starts(), heapBase, top, links, lists, pos);
        if layout.num[region] >= nchunks {
          break;
        }
        assert LinkOk(links.next, s, pos);
        before := region;
        region := links.next[region];
        pos := pos + 1;
      }
      if region != 0 {
        if layout.num[region] == nchunks {
          TakeWhole(region, before, pos);
        } else {
          TakePart(region, before, nchunks, pos);
        }
      } else {
        assert pos < |s| ==> LinkOk(links.next, s, pos);
        forall x | x in lists.place && lists.place[x] == Large
          ensures 0 <= x < |layout.num| && layout.num[x] < nchunks
        {
          InLarge(links, lists, x);
        }
      }
    }

    /** new_cluster: a cluster of at least 4 blocks, which is one free region; ok is false when it exhausts the heap. */
    method NewCluster(minBlocks: int) returns (ok: bool)
      requires Laid() && minBlocks <= MAX_BLOCKS
      modifies `layout, `smallObjects, `links, `lists, `top
      ensures Laid() && (!ok ==> lists == old(lists) && layout == old(layout) && links == old(links) && top == old(top))
      ensures ok ==> Keeps(old(lists), lists, old(layout).num, layout.num, 0)
      ensures ok ==> HasLarge(lists, layout.num, minBlocks * BLOCK_CHUNKS)
      ensures ok <==> old(top) + (if minBlocks < 4 then 4 else minBlocks) * BLOCK_CHUNKS <= |layout.num|
      ensures ok ==> top == old(top) + (if minBlocks < 4 then 4 else minBlocks) * BLOCK_CHUNKS
    {
      hide LayoutOk, ListsOk, SizesOk, Keeps;
      var nblocks := if minBlocks < 4 then 4 else minBlocks;
      var nchunks := nblocks * BLOCK_CHUNKS;
      var region := top;
      BlocksMatch(layout, Starts(), heapBase, top);
      ok := region + nchunks <= |layout.num|;
      if ok {
        var bn := region / BLOCK_CHUNKS;
        var block := layout.block;
        var i := 0;
        while i < nblocks
          invariant 0 <= i <= nblocks && |block| == |layout.block|
          invariant forall b ::
            0 <= b < |block| ==> block[b] == if bn <= b < bn + i then |layout.clusters| else layout.block[b]
        {
          block := block[bn + i := |layout.clusters|];
          i := i + 1;
        }
        var k := Cluster(region, nblocks);
        BlockRange(region, nblocks, |block|);
        ghost var l0, s0 := layout, Starts();
        layout := layout.(block := block, clusters := layout.clusters + [k]);
        InitRegion(region, nchunks);
        NewClusterLayout(l0, layout, s0, heapBase, top, k);
        top := region + nchunks;
        FreeOk(links, lists, Large, region);
        NewClusterKeeps(links, lists, l0.num, layout.num, region);
        links := Push(links, Large, region);
        lists := Put(lists, Large, [region] + lists.at[Large], region, Large);
        assert Starts() == s0 + {region};
        assert lists.place[region] == Large && layout.num[region] == nchunks;
      }
    }

    /** No free region is large enough, and there is no room for a cluster in which it would be. */
    ghost predicate NoRegion(nchunks: int)
      reads this
    {
      var blocks := (nchunks + BLOCK_CHUNKS - 1) / BLOCK_CHUNKS;
      NoneAsLarge(lists, layout.num, nchunks)
      && top + (if blocks < 4 then 4 else blocks) * BLOCK_CHUNKS > |layout.num|
    }

    /** alloc_large_region, which makes a new cluster when no free region is large enough; 0 when that exhausts the
        heap. */
    method AllocLargeRegion(nchunks: int) returns (region: int)
      requires Laid() && 0 < nchunks <= MAX_BLOCKS * BLOCK_CHUNKS
      modifies `layout, `smallObjects, `links, `lists, `top
      ensures Laid()
      ensures region != 0 ==> Got(region, nchunks) && Keeps(old(lists), lists, old(layout).num, layout.num, region)
      ensures region != 0 && region in old(lists).place ==> old(lists).place[region] == Large
      ensures region == 0 ==> lists == old(lists) && layout == old(layout) && NoRegion(nchunks)
      ensures old(!NoneAsLarge(lists, layout.num, nchunks)) ==> top == old(top)
    {
      hide LayoutOk, ListsOk, SizesOk, Keeps, LinksOk;
      NotZero(lists, layout.num);
      region := MaybeAllocLargeRegion(nchunks);
      if region == 0 {
        var blocks := (nchunks + BLOCK_CHUNKS - 1) / BLOCK_CHUNKS;
        var ok := NewCluster(blocks);
        if ok {
          ghost var l1, num1 := lists, layout.num;
          NotZero(l1, num1);
          region := MaybeAllocLargeRegion(nchunks);
          assert region != 0 by {
            EnoughBlocks(l1, num1, blocks * BLOCK_CHUNKS, nchunks);
          }
          KeepsTrans(old(lists), l1, lists, old(layout).num, num1, layout.num, region);
        }
      }
    }

    /** The first half of move_to_newspace: a region of the old space is taken out of its list. */
    method RemoveFromOldspace(region: int, ghost pos: nat)
      requires Laid() && Space(oldspace) in lists.at && pos < |lists.at[Space(oldspace)]|
      requires lists.at[Space(oldspace)][pos] == region
      modifies `links, `lists
      ensures Laid() && Space(oldspace) in old(lists).at
      ensures lists == Put(old(lists), Space(oldspace), Without(old(lists).at[Space(oldspace)], pos), region, Loose)
      ensures old(region in lists.place)
    {
      hide LayoutOk, ListsOk, SizesOk, Without;
      InSpace(links, lists, oldspace, pos);
      RemoveOk(links, lists, pos, oldspace);
      PutSizes(lists, layout.num, Space(oldspace), Without(lists.at[Space(oldspace)], pos), region, Loose);
      var slot := links.prev[region];
      var k := Store(links, slot, links.next[region]);
      if links.next[region] != 0 {
        k := k.(prev := k.prev[links.next[region] := slot]);
      }
      if links.tails[oldspace] == NextOf(region) {
        k := k.(tails := k.tails[oldspace := slot]);
      }
      links := k.(owner := k.owner[region := NO_SPACE]);
      assert links == Detach(old(links), region, oldspace);
      lists := Put(lists, Space(oldspace), Without(lists.at[Space(oldspace)], pos), region, Loose);
      assert Starts() == old(Starts());
    }

    /** The second: it is put at the end of the list of the new space. */
    method AppendToNewspace(region: int)
      requires Laid() && region in lists.place && lists.place[region] == Loose
      modifies `links, `lists
      ensures Laid() && Space(newspace) in old(lists).at
      ensures lists == Put(old(lists), Space(newspace), old(lists).at[Space(newspace)] + [region], region,
          Space(newspace))
    {
      hide LayoutOk, ListsOk, SizesOk, Without;
      OwnerAt(links, lists, region);
      AddOk(links, lists, region, newspace);
      PutSizes(lists, layout.num, Space(newspace), lists.at[Space(newspace)] + [region], region, Space(newspace));
      var k := links.(prev := links.prev[region := links.tails[newspace]], next := links.next[region := 0]);
      k := Store(k, links.tails[newspace], region);
      links := k.(tails := k.tails[newspace := NextOf(region)], owner := k.owner[region := newspace]);
      assert links == Attach(old(links), region, newspace);
      lists := Put(lists, Space(newspace), lists.at[Space(newspace)] + [region], region, Space(newspace));
      assert Starts() == old(Starts());
    }

    /** move_to_newspace */
    method MoveToNewspace(region: int)
      requires Laid() && region in lists.place && (lists.place[region] == Loose || lists.place[region].Space?)
      modifies `links, `lists
      ensures Laid() && RegionMoved(old(lists), lists, layout.num, region, newspace)
      ensures old(Valid() && lists.place[region].Space?) ==> Valid()
    {
      hide LayoutOk, ListsOk, SizesOk, Without, RegionMoved;
      OwnerAt(links, lists, region);
      if lists.place[region] == Loose {
        MovedLoose(lists, layout.num, region, newspace);
      } else if lists.place[region] == Space(newspace) {
        MovedAlready(lists, layout.num, region, newspace);
      }
      if links.owner[region] == oldspace {
        ghost var pos := FindAt(links, lists, region, oldspace);
        MovedOld(lists, layout.num, region, newspace, pos);
        RemoveFromOldspace(region, pos);
        OwnerAt(links, lists, region);
      }
      if links.owner[region] != newspace {
        AppendToNewspace(region);
      }
      if old(Valid() && lists.place[region].Space?) {
        PromotedOk(old(lists), lists, layout.num, region, newspace);
      }
    }

    ghost predicate NoneLoose()
      reads `lists
    {
      forall x :: x in lists.place ==> lists.place[x] != Loose
    }

    /** The allocation pointer of the new space is null, or within a region of one chunk of its list. */
    ghost predicate CursorOk()
      reads this
    {
      && |allocPtr| == 2 && |allocEnd| == 2 && 0 <= newspace < 2
      && (if allocEnd[newspace] == 0 then allocPtr[newspace] == 0
          else
            var r := RegionBefore(allocEnd[newspace]);
            && Cursor(allocPtr[newspace], allocEnd[newspace], r)
            && 0 < r < |layout.num| && r in lists.place && lists.place[r] == Space(newspace) && layout.num[r] == 1)
    }

    /** bytes_allocated counts the chunks of the regions of both spaces. */
    ghost predicate Valid()
      reads this
    {
      && Laid() && NoneLoose() && CursorOk() && Space(0) in lists.at && Space(1) in lists.at
      && bytesAllocated == CHUNK_BYTES * Owned(lists, layout.num)
    }

    ghost predicate NoneSmall()
      reads `lists
    {
      Small in lists.at && lists.at[Small] == []
    }

    /** The chunks that hold so many bytes of a large object. */
    function ChunksFor(nbytes: int): int {
      (nbytes + REGION_OVERHEAD + CHUNK_BYTES - 1) / CHUNK_BYTES
    }

    /** Neither is there room left in the current region nor a region of one chunk, or for a large object, of enough of
        them. */
    ghost predicate NoRoom(nbytes: int)
      reads this
    {
      if nbytes > CHUNK_BYTES - REGION_OVERHEAD then NoRegion(ChunksFor(nbytes))
      else
        && |allocPtr| == 2 && |allocEnd| == 2 && 0 <= newspace < 2
        && allocPtr[newspace] + nbytes > allocEnd[newspace] && NoneSmall() && NoRegion(1)
    }

    /** alloc_small_region */
    method AllocSmallRegion() returns (region: int)
      requires Laid() && NoneLoose()
      modifies `layout, `smallObjects, `links, `lists, `top
      ensures Laid() && NoneLoose()
      ensures region != 0 ==> Obtained(old(lists), lists, old(layout).num, layout.num, region, 1, newspace)
      ensures region == 0 ==> lists == old(lists) && layout == old(layout) && NoneSmall() && NoRegion(1)
    {
      hide LayoutOk, ListsOk, SizesOk, Keeps, Obtained, RegionMoved, LinksOk, SpaceOk;
      ghost var l0, k0, num0 := lists, links, layout.num;
      ListAtSmall(links, lists);
      region := links.small;
      if region == 0 {
        region := AllocLargeRegion(1);
        if region == 0 {
          return;
        }
      } else {
        TakeSmall(region);
      }
      ghost var l1 := lists;
      MoveToNewspace(region);
      ObtainedOk(k0, l0, l1, lists, num0, layout.num, region, 1, newspace);
      ObtainedPlaces(l0, lists, num0, layout.num, region, 1, newspace);
    }

    /** The first region of the list of small ones is taken. */
    method TakeSmall(region: int)
      requires Laid() && Small in lists.at && |lists.at[Small]| > 0 && region == lists.at[Small][0] == links.small
      modifies `links, `lists
      ensures Laid() && Got(region, 1) && old(region in lists.place && lists.place[region] == Small)
      ensures forall x ::
        x in lists.place && x != region ==> x in old(lists).place && lists.place[x] == old(lists).place[x]
      ensures KeepsOthers(old(lists), lists, layout.num, layout.num, region)
    {
      hide LayoutOk, ListsOk, SizesOk, Without;
      SmallAt(links, lists, layout.num);
      TakeOk(links, lists, Small, 0);
      TakeSmallKeeps(lists, layout.num);
      var k := links;
      k := k.(small := k.next[region]);
      links := k.(next := k.next[region := 0], prev := k.prev[region := Null], owner := k.owner[region := NO_SPACE]);
      assert links == Take(old(links), Small, lists.at[Small], 0);
      lists := Taken(lists, Small, 0);
      assert Starts() == old(Starts());
    }

    /** alloc_large */
    method AllocLarge(nbytes: int) returns (address: int, ghost region: int)
      requires Valid() && 0 <= nbytes <= MAX_BLOCKS * BLOCK_CHUNKS * CHUNK_BYTES - REGION_OVERHEAD
      modifies `layout, `smallObjects, `links, `lists, `top, `bytesAllocated
      ensures Valid() && (address == 0 ==> lists == old(lists) && layout == old(layout) && NoRegion(ChunksFor(nbytes)))
      ensures address != 0 ==> 0 < region < |layout.num|
      ensures address != 0 ==>
                Obtained(old(lists), lists, old(layout).num, layout.num, region, layout.num[region], newspace)
      ensures address != 0 ==> address == region * CHUNK_BYTES + REGION_OVERHEAD
      ensures address != 0 ==>
        address + nbytes <= (region + layout.num[region]) * CHUNK_BYTES < address + nbytes + CHUNK_BYTES
    {
      hide LayoutOk, ListsOk, SizesOk, Keeps, Obtained, RegionMoved, LinksOk, SpaceOk;
      ghost var l0, k0, num0 := lists, links, layout.num;
      var nchunks := (nbytes + REGION_OVERHEAD + CHUNK_BYTES - 1) / CHUNK_BYTES;
      var r := AllocLargeRegion(nchunks);
      region := r;
      if r == 0 {
        return 0, 0;
      }
      smallObjects := smallObjects[r := false];
      bytesAllocated := bytesAllocated + layout.num[r] * CHUNK_BYTES;
      ghost var l1 := lists;
      MoveToNewspace(r);
      ObtainedOk(k0, l0, l1, lists, num0, layout.num, r, nchunks, newspace);
      ObtainedPlaces(l0, lists, num0, layout.num, r, nchunks, newspace);
      ObtainedKeeps(l0, lists, num0, layout.num, r, nchunks, newspace);
      address := r * CHUNK_BYTES + REGION_OVERHEAD;
    }

    /** The current region for small objects is replaced by a new one. */
    method RefillSmall() returns (region: int)
      requires Valid()
      modifies `layout, `smallObjects, `links, `lists, `top, `bytesAllocated, `allocPtr, `allocEnd
      ensures Valid()
      ensures allocPtr[oldspace] == old(allocPtr[oldspace]) && allocEnd[oldspace] == old(allocEnd[oldspace])
      ensures region == 0 ==> lists == old(lists) && layout == old(layout) && allocPtr == old(allocPtr)
      ensures region == 0 ==> allocEnd == old(allocEnd) && NoneSmall() && NoRegion(1)
      ensures region != 0 ==> Obtained(old(lists), lists, old(layout).num, layout.num, region, 1, newspace)
      ensures region != 0 ==> allocPtr[newspace] == region * CHUNK_BYTES + REGION_OVERHEAD
                              && allocEnd[newspace] == (region + 1) * CHUNK_BYTES
    {
      hide LayoutOk, ListsOk, SizesOk, LinksOk, SpaceOk, Obtained, Owned, RegionBefore, Cursor;
      region := AllocSmallRegion();
      if region != 0 {
        ObtainedPlace(old(lists), lists, old(layout).num, layout.num, region, 1, newspace);
        smallObjects := smallObjects[region := true];
        allocPtr := allocPtr[newspace := region * CHUNK_BYTES + REGION_OVERHEAD];
        allocEnd := allocEnd[newspace := (region + 1) * CHUNK_BYTES];
        bytesAllocated := bytesAllocated + layout.num[region] * CHUNK_BYTES;
        NewCursor(region);
      }
    }

    /** The bytes given out lie in a region of the new space. */
    ghost predicate Within(address: int, nbytes: int, region: int)
      reads this
    {
      && 0 < region < |layout.num| && region in lists.place && lists.place[region] == Space(newspace)
      && Aligned(address) && region * CHUNK_BYTES + REGION_OVERHEAD <= address
      && address + nbytes <= (region + layout.num[region]) * CHUNK_BYTES
    }

    /** They have been given out of the current region for small objects. */
    ghost predicate InCurrent(address: int, nbytes: int, region: int)
      reads this
    {
      && 0 <= newspace < |allocPtr| == |allocEnd| && region == RegionBefore(allocEnd[newspace])
      && address + nbytes <= allocPtr[newspace]
    }

    /** cgc_alloc: the bytes given out lie in a region of the new space, one just added to it or, past all that was
        given out of it before, the current one for small objects; the address is 0 when the heap is exhausted. */
    method CgcAlloc(nbytes: int) returns (address: int, ghost region: int)
      requires Valid() && 0 < nbytes <= MAX_BLOCKS * BLOCK_CHUNKS * CHUNK_BYTES - REGION_OVERHEAD
      modifies `layout, `smallObjects, `links, `lists, `top, `bytesAllocated, `allocPtr, `allocEnd
      ensures Valid() && (address == 0 ==> lists == old(lists) && layout == old(layout) && NoRoom(nbytes))
      ensures address == 0 ==> allocPtr == old(allocPtr) && allocEnd == old(allocEnd)
      ensures allocPtr[oldspace] == old(allocPtr[oldspace]) && allocEnd[oldspace] == old(allocEnd[oldspace])
      ensures lists.at[Space(oldspace)] == old(lists.at[Space(oldspace)])
      ensures address != 0 ==> Within(address, nbytes, region)
      ensures address != 0 ==>
                || (allocPtr == old(allocPtr) && allocEnd == old(allocEnd)
                    && Obtained(old(lists), lists, old(layout).num, layout.num, region, layout.num[region], newspace))
                || InCurrent(address, nbytes, region)
      ensures address != 0 ==>
                || Obtained(old(lists), lists, old(layout).num, layout.num, region, layout.num[region], newspace)
                || (lists == old(lists) && layout == old(layout) && region == RegionBefore(old(allocEnd)[newspace])
                    && address == old(allocPtr)[newspace] && address + nbytes <= allocPtr[newspace])
    {
      hide LayoutOk, ListsOk, SizesOk, LinksOk, SpaceOk, Obtained, Owned, RegionBefore, RoundUp, Aligned;
      if nbytes > CHUNK_BYTES - REGION_OVERHEAD {
        address, region := AllocLarge(nbytes);
        if address != 0 {
          ObtainedPlace(old(lists), lists, old(layout).num, layout.num, region, layout.num[region], newspace);
          NewCursor(region);
          assert Aligned(address) by {
            assert Cursor(address, (region + 1) * CHUNK_BYTES, region);
          }
        }
        return;
      }
      region := RegionBefore(allocEnd[newspace]);
      if allocPtr[newspace] + nbytes > allocEnd[newspace] {
        var r := RefillSmall();
        if r == 0 {
          return 0, 0;
        }
        ObtainedPlace(old(lists), lists, old(layout).num, layout.num, r, 1, newspace);
        NewCursor(r);
        region := r;
      }
      address := allocPtr[newspace];
      BumpCursor(address, allocEnd[newspace], region, nbytes);
      allocPtr := allocPtr[newspace := address + RoundUp(nbytes)];
    }
  }
}
