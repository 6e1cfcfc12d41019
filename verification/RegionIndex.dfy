/** The regions that tile the clusters of the conservative collector's heap, and the table of offsets by which the
    region of a pointer is found, src/lisp/cgc.c. Addresses are counted in chunks of 512 bytes; chunk 0 is no address of
    the heap. */
module RegionIndex {

  const CHUNK_BYTES := 512
  const BLOCK_CHUNKS := 128
  const UCHAR_MAX := 255

  /** num_chunks is a field of 16 bits: a cluster, and so every region, has fewer chunks. */
  const MAX_BLOCKS := 511

  datatype Cluster = Cluster(first: int, blocks: int) {
    function End(): int {
      first + blocks * BLOCK_CHUNKS
    }
  }

  /** The table of the cluster of each block, -1 for none; by the number of its first chunk, the size of each region;
      and, by the number of a chunk, how far to go back from it. */
  datatype Layout = Layout(clusters: seq<Cluster>, block: seq<int>, num: seq<int>, off: seq<int>)

  function Saturated(i: int): int {
    if i < UCHAR_MAX then i else UCHAR_MAX
  }

  predicate InCluster(c: Cluster, x: int) {
    c.first <= x < c.End()
  }

  ghost predicate ClusterOk(l: Layout, c: nat)
    requires c < |l.clusters|
  {
    var k := l.clusters[c];
    && 0 < k.first && k.first % BLOCK_CHUNKS == 0 && 0 < k.blocks <= MAX_BLOCKS && k.End() <= |l.num|
    && (forall b :: 0 <= b < |l.block| ==> (l.block[b] == c <==> k.first <= b * BLOCK_CHUNKS < k.End()))
  }

  ghost predicate BlocksOk(l: Layout) {
    && |l.num| == |l.off| == |l.block| * BLOCK_CHUNKS
    && (forall b :: 0 <= b < |l.block| ==> -1 <= l.block[b] < |l.clusters|)
    && (forall c :: 0 <= c < |l.clusters| ==> ClusterOk(l, c))
  }

  /** The cluster of a chunk. */
  function ClusterOf(l: Layout, x: int): int {
    if 0 <= x / BLOCK_CHUNKS < |l.block| then l.block[x / BLOCK_CHUNKS] else -1
  }

  lemma ClusterOfChunk(l: Layout, x: int, c: int)
    requires BlocksOk(l) && 0 <= c < |l.clusters|
    ensures ClusterOf(l, x) == c <==> InCluster(l.clusters[c], x)
  {
    assert ClusterOk(l, c);
    var b := x / BLOCK_CHUNKS;
    assert x == b * BLOCK_CHUNKS + x % BLOCK_CHUNKS;
    var k := l.clusters[c];
    assert k.first == k.first / BLOCK_CHUNKS * BLOCK_CHUNKS;
    assert InCluster(k, x) <==> k.first <= b * BLOCK_CHUNKS < k.End();
  }

  /** The region that starts at chunk s lies in one cluster, and no other starts before its end, where the next one
      does. */
  ghost predicate RegionOk(l: Layout, starts: set<int>, s: int) {
    && 0 <= ClusterOf(l, s) < |l.clusters| && 0 < s < |l.num| && 0 < l.num[s]
    && s + l.num[s] <= l.clusters[ClusterOf(l, s)].End()
    && (s + l.num[s] < l.clusters[ClusterOf(l, s)].End() ==> s + l.num[s] in starts)
    && (forall t :: t in starts ==> !(s < t < s + l.num[s]))
  }

  /** The regions tile the clusters. */
  ghost predicate Tiled(l: Layout, starts: set<int>) {
    && BlocksOk(l)
    && (forall s {:trigger RegionOk(l, starts, s)} :: s in starts ==> RegionOk(l, starts, s))
    && (forall c :: 0 <= c < |l.clusters| ==> l.clusters[c].first in starts)
  }

  /** The offsets of a region's chunks lead back to its first. */
  ghost predicate OffsetsOk(l: Layout, s: int) {
    && 0 <= s < |l.num| && s + l.num[s] <= |l.off|
    && (forall x :: s <= x < s + l.num[s] ==> l.off[x] == Saturated(x - s))
  }

  ghost predicate Indexed(l: Layout, starts: set<int>) {
    forall s {:trigger OffsetsOk(l, s)} :: s in starts ==> OffsetsOk(l, s)
  }

  predicate Spans(l: Layout, s: int, x: int) {
    0 <= s < |l.num| && s <= x < s + l.num[s]
  }

  /** Every chunk of a cluster is in a region. */
  lemma {:induction false} Covered(l: Layout, starts: set<int>, c: int, x: int, from: int) returns (s: int)
    requires Tiled(l, starts) && 0 <= c < |l.clusters| && InCluster(l.clusters[c], x)
    requires from in starts && ClusterOf(l, from) == c && from <= x
    ensures s in starts && Spans(l, s, x) && ClusterOf(l, s) == c
    decreases x - from
  {
    assert RegionOk(l, starts, from);
    if x < from + l.num[from] {
      s := from;
    } else {
      ClusterOfChunk(l, from, c);
      ClusterOfChunk(l, from + l.num[from], c);
      s := Covered(l, starts, c, x, from + l.num[from]);
    }
  }

  /** And in just one. */
  lemma Unique(l: Layout, starts: set<int>, s: int, t: int, x: int)
    requires Tiled(l, starts) && s in starts && t in starts && Spans(l, s, x) && Spans(l, t, x)
    ensures s == t
  {
    assert RegionOk(l, starts, s) && RegionOk(l, starts, t);
  }

  lemma InSomeRegion(l: Layout, starts: set<int>, x: int) returns (s: int)
    requires Tiled(l, starts) && ClusterOf(l, x) != -1
    ensures s in starts && Spans(l, s, x) && ClusterOf(l, s) == ClusterOf(l, x)
  {
    var c := ClusterOf(l, x);
    ClusterOfChunk(l, x, c);
    ClusterOfChunk(l, l.clusters[c].first, c);
    s := Covered(l, starts, c, x, l.clusters[c].first);
  }

  /** find_region: for a pointer into a cluster, the header of the one region that contains it, and 0 for any other. */
  method FindRegion(l: Layout, ghost starts: set<int>, heapBase: int, p: int) returns (region: int)
    requires Tiled(l, starts) && Indexed(l, starts)
    requires forall c :: 0 <= c < |l.clusters| ==> heapBase <= l.clusters[c].first
    requires 0 < heapBase
    ensures ClusterOf(l, p / CHUNK_BYTES) == -1 ==> region == 0
    ensures ClusterOf(l, p / CHUNK_BYTES) != -1 ==>
              region in starts && Spans(l, region, p / CHUNK_BYTES)
              && forall s :: s in starts && Spans(l, s, p / CHUNK_BYTES) ==> s == region
  {
    hide Tiled, Indexed;
    var ptr := p / 4 * 4;
    var chunkNum := ptr / CHUNK_BYTES;
    SameChunk(p);
    if ptr < heapBase * CHUNK_BYTES || ptr >= |l.block| * BLOCK_CHUNKS * CHUNK_BYTES {
      OutsideHeap(l, starts, heapBase, ptr);
      return 0;
    }
    InsideHeap(l, heapBase, ptr);
    var c := l.block[chunkNum / BLOCK_CHUNKS];
    if c == -1 {
      return 0;
    }
    FirstBelow(l, starts, ptr, c);
    assert !(ptr < l.clusters[c].first * CHUNK_BYTES);
    ghost var s := InSomeRegion(l, starts, chunkNum);
    OffsetsInside(l, starts, s);
    var delta := l.off[chunkNum];
    while delta != 0
      invariant s <= chunkNum <= p / CHUNK_BYTES && delta == l.off[chunkNum]
      decreases chunkNum
    {
      chunkNum := chunkNum - delta;
      delta := l.off[chunkNum];
    }
    region := chunkNum;
    forall t | t in starts && Spans(l, t, p / CHUNK_BYTES) ensures t == region {
      Unique(l, starts, s, t, p / CHUNK_BYTES);
    }
  }

  lemma OffsetsInside(l: Layout, starts: set<int>, s: int)
    requires Indexed(l, starts) && s in starts
    ensures OffsetsOk(l, s)
  {
  }

  lemma SameChunk(p: int)
    ensures p / 4 * 4 / CHUNK_BYTES == p / CHUNK_BYTES
  {
    assert p == CHUNK_BYTES * (p / CHUNK_BYTES) + p % CHUNK_BYTES;
  }

  lemma OutsideHeap(l: Layout, starts: set<int>, heapBase: int, ptr: int)
    requires Tiled(l, starts) && (forall c :: 0 <= c < |l.clusters| ==> heapBase <= l.clusters[c].first)
    requires ptr < heapBase * CHUNK_BYTES || ptr >= |l.block| * BLOCK_CHUNKS * CHUNK_BYTES
    ensures ClusterOf(l, ptr / CHUNK_BYTES) == -1
  {
    var x := ptr / CHUNK_BYTES;
    if ClusterOf(l, x) != -1 {
      ClusterOfChunk(l, x, ClusterOf(l, x));
    }
  }

  lemma FirstBelow(l: Layout, starts: set<int>, ptr: int, c: int)
    requires Tiled(l, starts) && ClusterOf(l, ptr / CHUNK_BYTES) == c != -1
    ensures 0 <= c < |l.clusters| && l.clusters[c].first * CHUNK_BYTES <= ptr
  {
    ClusterOfChunk(l, ptr / CHUNK_BYTES, c);
  }

  lemma InsideHeap(l: Layout, heapBase: int, ptr: int)
    requires 0 < heapBase && heapBase * CHUNK_BYTES <= ptr < |l.block| * BLOCK_CHUNKS * CHUNK_BYTES
    ensures 0 <= ptr / CHUNK_BYTES / BLOCK_CHUNKS < |l.block|
  {
  }

  // --- Splitting and joining regions

  /** A region is split: its second part begins at chunk n. */
  lemma SplitTiled(l: Layout, l2: Layout, starts: set<int>, s: int, n: int)
    requires Tiled(l, starts) && s in starts && 0 <= s < n < |l.num| && n < s + l.num[s]
    requires l2.clusters == l.clusters && l2.block == l.block && |l2.off| == |l.off|
    requires l2.num == l.num[n := s + l.num[s] - n][s := n - s]
    ensures Tiled(l2, starts + {n})
  {
    hide BlocksOk;
    BlocksSame(l, l2);
    assert RegionOk(l, starts, s);
    ClusterOfSame(l, s, n, starts);
    forall t | t in starts + {n} ensures RegionOk(l2, starts + {n}, t) {
      if t in starts {
        assert RegionOk(l, starts, t);
      }
    }
  }

  lemma BlocksSame(l: Layout, l2: Layout)
    requires BlocksOk(l) && l2.clusters == l.clusters && l2.block == l.block && |l2.num| == |l.num|
    requires |l2.off| == |l.off|
    ensures BlocksOk(l2)
  {
    forall c | 0 <= c < |l2.clusters| ensures ClusterOk(l2, c) {
      assert ClusterOk(l, c);
    }
  }

  /** The chunks of a region are all in one cluster. */
  lemma ClusterOfSame(l: Layout, s: int, x: int, starts: set<int>)
    requires BlocksOk(l) && RegionOk(l, starts, s) && Spans(l, s, x)
    ensures ClusterOf(l, x) == ClusterOf(l, s) && |l.off| == |l.num| && x < |l.num|
  {
    var c := ClusterOf(l, s);
    ClusterOfChunk(l, s, c);
    ClusterOfChunk(l, x, c);
    assert ClusterOk(l, c);
  }

  /** Two adjacent regions of a cluster are joined. */
  lemma JoinTiled(l: Layout, l2: Layout, starts: set<int>, s: int)
    requires Tiled(l, starts) && s in starts && RegionOk(l, starts, s) && s + l.num[s] in starts
    requires RegionOk(l, starts, s + l.num[s])
    requires ClusterOf(l, s + l.num[s]) == ClusterOf(l, s)
    requires l2.clusters == l.clusters && l2.block == l.block && |l2.off| == |l.off|
    requires l2.num == l.num[s := l.num[s] + l.num[s + l.num[s]]]
    ensures Tiled(l2, starts - {s + l.num[s]})
  {
    hide BlocksOk;
    BlocksSame(l, l2);
    var n := s + l.num[s];
    assert RegionOk(l, starts, s) && RegionOk(l, starts, n);
    forall t | t in starts - {n} ensures RegionOk(l2, starts - {n}, t) {
      assert RegionOk(l, starts, t);
      if t + l.num[t] == n && t != s {
        Unique(l, starts, s, t, n - 1);
      }
    }
    forall c | 0 <= c < |l.clusters| ensures l2.clusters[c].first in starts - {n} {
      ClusterOfFirst(l, c);
      ClusterOfFirst2(l, s, n, c);
    }
  }

  lemma ClusterOfFirst(l: Layout, c: int)
    requires BlocksOk(l) && 0 <= c < |l.clusters|
    ensures ClusterOf(l, l.clusters[c].first) == c
  {
    assert ClusterOk(l, c);
    ClusterOfChunk(l, l.clusters[c].first, c);
  }

  lemma ClusterOfFirst2(l: Layout, s: int, n: int, c: int)
    requires BlocksOk(l) && 0 <= c < |l.clusters| && s < n && ClusterOf(l, s) == ClusterOf(l, n) != -1
    ensures l.clusters[c].first != n
  {
    ClusterOfChunk(l, s, ClusterOf(l, s));
    ClusterOfChunk(l, n, ClusterOf(l, n));
    if l.clusters[c].first == n {
      ClusterOfFirst(l, c);
    }
  }

  // --- Setting up a region

  /** The offsets do not matter for the tiling. */
  lemma TiledOffsets(l: Layout, l2: Layout, starts: set<int>)
    requires Tiled(l, starts) && l2 == l.(off := l2.off) && |l2.off| == |l.off|
    ensures Tiled(l2, starts)
  {
    hide BlocksOk;
    BlocksSame(l, l2);
    forall t | t in starts ensures RegionOk(l2, starts, t) {
      assert RegionOk(l, starts, t);
    }
  }

  /** Only the offsets of region s change, and they are set up. */
  lemma InitIndexed(l: Layout, l2: Layout, starts: set<int>, s: int)
    requires Tiled(l, starts) && s in starts && RegionOk(l, starts, s) && OffsetsOk(l2, s)
    requires l2.num == l.num && |l2.off| == |l.off| && (forall t :: t in starts && t != s ==> OffsetsOk(l, t))
    requires forall x :: 0 <= x < |l.off| && !(s <= x < s + l.num[s]) ==> l2.off[x] == l.off[x]
    ensures Indexed(l2, starts)
  {
    hide BlocksOk;
    forall t | t in starts ensures OffsetsOk(l2, t) {
      if t != s {
        assert RegionOk(l, starts, t) && OffsetsOk(l, t);
      }
    }
  }

  /** A cluster is added, with one region. */
  lemma NewClusterTiled(l: Layout, l2: Layout, starts: set<int>, k: Cluster)
    requires Tiled(l, starts) && 0 < k.first && k.first % BLOCK_CHUNKS == 0 && 0 < k.blocks <= MAX_BLOCKS
    requires k.End() <= |l.num|
    requires forall b :: 0 <= b < |l.block| && k.first <= b * BLOCK_CHUNKS < k.End() ==> l.block[b] == -1
    requires l2.clusters == l.clusters + [k] && |l2.block| == |l.block| && |l2.off| == |l.off|
    requires forall b :: 0 <= b < |l.block| ==>
               l2.block[b] == if k.first <= b * BLOCK_CHUNKS < k.End() then |l.clusters| else l.block[b]
    requires l2.num == l.num[k.first := k.blocks * BLOCK_CHUNKS]
    ensures k.first !in starts && Tiled(l2, starts + {k.first})
    ensures forall s :: s in starts ==> ClusterOf(l2, s) == ClusterOf(l, s)
  {
    NewClusterBlocks(l, l2, k);
    forall s | s in starts
      ensures ClusterOf(l2, s) == ClusterOf(l, s) && s != k.first && 0 <= s < |l.num|
      ensures s < k.first ==> s + l.num[s] <= k.first
    {
      assert RegionOk(l, starts, s);
      NewClusterApart(l, k, ClusterOf(l, s), s);
    }
    assert ClusterOf(l2, k.first) == |l.clusters| by {
      ClusterOfFirst(l2, |l.clusters|);
    }
    hide BlocksOk;
    forall s | s in starts + {k.first} ensures RegionOk(l2, starts + {k.first}, s) {
      if s in starts {
        assert RegionOk(l, starts, s);
      } else {
        forall t | t in starts ensures !(s < t < k.End()) {
          assert RegionOk(l, starts, t);
          NewClusterApart(l, k, ClusterOf(l, t), t);
          assert !(k.first <= t < k.End());
        }
      }
    }
  }

  lemma NewClusterBlocks(l: Layout, l2: Layout, k: Cluster)
    requires BlocksOk(l) && 0 < k.first && k.first % BLOCK_CHUNKS == 0 && 0 < k.blocks <= MAX_BLOCKS
    requires k.End() <= |l.num|
    requires forall b :: 0 <= b < |l.block| && k.first <= b * BLOCK_CHUNKS < k.End() ==> l.block[b] == -1
    requires l2.clusters == l.clusters + [k] && |l2.block| == |l.block| && |l2.off| == |l.off| && |l2.num| == |l.num|
    requires forall b :: 0 <= b < |l.block| ==>
               l2.block[b] == if k.first <= b * BLOCK_CHUNKS < k.End() then |l.clusters| else l.block[b]
    ensures BlocksOk(l2)
  {
    forall c | 0 <= c < |l2.clusters| ensures ClusterOk(l2, c) {
      if c < |l.clusters| {
        assert ClusterOk(l, c) && l2.clusters[c] == l.clusters[c];
        forall b | 0 <= b < |l2.block|
          ensures l2.block[b] == c <==> l2.clusters[c].first <= b * BLOCK_CHUNKS < l2.clusters[c].End() {
          assert l.block[b] == c <==> l.clusters[c].first <= b * BLOCK_CHUNKS < l.clusters[c].End();
        }
      } else {
        assert l2.clusters[c] == k;
      }
    }
  }

  /** The chunks of another cluster, from x to its end, are apart from the new one's. */
  lemma NewClusterApart(l: Layout, k: Cluster, c: int, x: int)
    requires BlocksOk(l) && 0 < k.first && k.first % BLOCK_CHUNKS == 0 && 0 < k.blocks && k.End() <= |l.num|
    requires forall b :: 0 <= b < |l.block| && k.first <= b * BLOCK_CHUNKS < k.End() ==> l.block[b] == -1
    requires 0 <= c < |l.clusters| && ClusterOf(l, x) == c
    ensures !InCluster(k, x) && (x < k.first ==> l.clusters[c].End() <= k.first)
  {
    ClusterOfChunk(l, x, c);
    assert ClusterOk(l, c);
    assert k.first == k.first / BLOCK_CHUNKS * BLOCK_CHUNKS;
    var b, d := x / BLOCK_CHUNKS, k.first / BLOCK_CHUNKS;
    assert x == b * BLOCK_CHUNKS + x % BLOCK_CHUNKS && 0 <= b < |l.block| && 0 <= d < |l.block|;
    assert l.block[b] == c && l.block[d] == -1;
  }
}
