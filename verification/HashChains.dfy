/** The lists of an EQ hash table, src/lisp/gencgc.c: the collision chains of its index vector, the free list and the
    list of the entries that need rehashing, all linked through one next vector; and what taking an entry out of a chain
    and pushing it on another list does to them. */
module HashChains {
  import opened LinkedLists

  const EQ_HASH_SIZE := 0x2000_0000

  /** EQ_HASH, which keeps the low 29 bits of an address. */
  function EqHash(key: int): int {
    key % EQ_HASH_SIZE
  }

  /** Where an entry is: in the collision chain of a bucket, in the free list, in the list of those needing rehashing,
      or, while it is moved, nowhere. */
  datatype Place = Chain(bucket: int) | Free | Rehash | Loose

  /** The words that link the entries. */
  datatype Links = Links(index: seq<int>, next: seq<int>, nextFree: int, needingRehash: int)

  /** The entries in each place. */
  datatype Lists = Lists(at: map<Place, seq<int>>, place: seq<Place>)

  predicate IsPlace(p: Place, buckets: int) {
    !p.Loose? && (p.Chain? ==> 0 <= p.bucket < buckets)
  }

  function Head(k: Links, p: Place): int
    requires IsPlace(p, |k.index|)
  {
    match p
    case Chain(b) => k.index[b]
    case Free => k.nextFree
    case Rehash => k.needingRehash
  }

  function WithHead(k: Links, p: Place, e: int): Links
    requires IsPlace(p, |k.index|)
  {
    match p
    case Chain(b) => k.(index := k.index[b := e])
    case Free => k.(nextFree := e)
    case Rehash => k.(needingRehash := e)
  }

  ghost predicate Holds(place: seq<Place>, p: Place, s: seq<int>, i: int)
    requires 0 <= i < |place|
  {
    place[i] == p <==> i in s
  }

  /** A list without cycles that holds exactly the entries of one place. */
  ghost predicate ListOk(k: Links, l: Lists, p: Place)
    requires IsPlace(p, |k.index|) && p in l.at
  {
    && List(k.next, Head(k, p), l.at[p]) && NoDuplicates(l.at[p])
    && (forall i :: 0 < i < |l.place| ==> Holds(l.place, p, l.at[p], i))
  }

  /** The entries are partitioned into the chains, the free list and the list of those needing rehashing. */
  ghost predicate LinksOk(k: Links, l: Lists) {
    && |l.place| == |k.next| && 0 < |k.index| && 0 < |k.next|
    && (forall p :: IsPlace(p, |k.index|) <==> p in l.at)
    && (forall p :: p in l.at ==> ListOk(k, l, p))
    && (forall i :: 0 < i < |k.next| ==> l.place[i] == Loose || IsPlace(l.place[i], |k.index|))
  }

  lemma InRange(k: Links, l: Lists, p: Place, e: int)
    requires LinksOk(k, l) && p in l.at && e in l.at[p]
    ensures 0 < e < |k.next| && l.place[e] == p
  {
    var j :| 0 <= j < |l.at[p]| && l.at[p][j] == e;
    assert ListOk(k, l, p) && LinkOk(k.next, l.at[p], j) && Holds(l.place, p, l.at[p], e);
  }

  // --- Pushing an entry

  function Push(k: Links, p: Place, e: int): Links
    requires IsPlace(p, |k.index|) && 0 <= e < |k.next|
  {
    WithHead(k.(next := k.next[e := Head(k, p)]), p, e)
  }

  function Pushed(l: Lists, p: Place, e: int): Lists
    requires p in l.at && 0 <= e < |l.place|
  {
    Lists(l.at[p := [e] + l.at[p]], l.place[e := p])
  }

  /** Pushing a loose entry on a list keeps the partition. */
  lemma PushOk(k: Links, l: Lists, p: Place, e: int)
    requires LinksOk(k, l) && IsPlace(p, |k.index|) && 0 < e < |k.next| && l.place[e] == Loose
    ensures LinksOk(Push(k, p, e), Pushed(l, p, e))
  {
    hide NoDuplicates, List;
    var k2, l2 := Push(k, p, e), Pushed(l, p, e);
    forall q | q in l2.at ensures ListOk(k2, l2, q) {
      assert ListOk(k, l, q) && Holds(l.place, q, l.at[q], e);
      if q == p {
        PushList(k.next, Head(k, p), l.at[p], e);
        PushNoDuplicates(l.at[p], e);
      } else {
        ListFrame(k.next, k2.next, Head(k, q), l.at[q]);
      }
      forall i | 0 < i < |l.place| ensures Holds(l2.place, q, l2.at[q], i) {
        assert Holds(l.place, q, l.at[q], i);
      }
    }
  }

  // --- Taking an entry out of a list

  /** The links after entry e, which follows entry prev in chain b or, when prev is 0, is its first, has been taken
      out. */
  function Unlink(k: Links, b: int, prev: int, e: int): Links
    requires 0 <= b < |k.index| && 0 <= prev < |k.next| && 0 < e < |k.next|
  {
    if prev == 0 then k.(index := k.index[b := k.next[e]]) else k.(next := k.next[prev := k.next[e]])
  }

  function Unlinked(l: Lists, b: int, pos: int): Lists
    requires Chain(b) in l.at && 0 <= pos < |l.at[Chain(b)]| && 0 <= l.at[Chain(b)][pos] < |l.place|
  {
    Lists(l.at[Chain(b) := Without(l.at[Chain(b)], pos)], l.place[l.at[Chain(b)][pos] := Loose])
  }

  /** Taking an entry out of its chain keeps the partition, but for the entry, which is nowhere. */
  lemma UnlinkOk(k: Links, l: Lists, b: int, pos: nat, prev: int)
    requires LinksOk(k, l) && 0 <= b < |k.index| && pos < |l.at[Chain(b)]|
    requires prev == if pos == 0 then 0 else l.at[Chain(b)][pos - 1]
    ensures 0 < l.at[Chain(b)][pos] < |k.next| && 0 <= prev < |k.next|
    ensures LinksOk(Unlink(k, b, prev, l.at[Chain(b)][pos]), Unlinked(l, b, pos))
  {
    hide NoDuplicates, List, Without;
    var p, s := Chain(b), l.at[Chain(b)];
    forall i | i in s ensures 0 < i < |k.next| && l.place[i] == p {
      InRange(k, l, p, i);
    }
    assert s[pos] in s && (pos > 0 ==> s[pos - 1] in s);
    var k2, l2 := Unlink(k, b, prev, s[pos]), Unlinked(l, b, pos);
    assert ListOk(k, l, p);
    forall q | q in l2.at ensures ListOk(k2, l2, q) {
      assert ListOk(k, l, q);
      if q == p {
        if pos == 0 {
          UnlinkFirst(k.next, Head(k, p), s);
        } else {
          UnlinkLater(k.next, Head(k, p), s, pos);
        }
        WithoutNoDuplicates(s, pos);
      } else {
        if pos > 0 {
          assert Holds(l.place, q, l.at[q], s[pos - 1]);
        }
        ListFrame(k.next, k2.next, Head(k, q), l.at[q]);
      }
      forall i | 0 < i < |l.place| ensures Holds(l2.place, q, l2.at[q], i) {
        assert Holds(l.place, q, l.at[q], i);
        WithoutMembers(s, pos, i);
      }
    }
  }

  // --- Counting

  function Below(n: nat): set<int> {
    if n <= 1 then {} else Below(n - 1) + {n - 1}
  }

  lemma {:induction false} BelowSize(n: nat)
    ensures |Below(n)| == if n == 0 then 0 else n - 1
    ensures forall i :: i in Below(n) <==> 0 < i < n
  {
    if n > 1 {
      BelowSize(n - 1);
    }
  }

  function Members(s: seq<int>): set<int> {
    if s == [] then {} else Members(s[..|s| - 1]) + {s[|s| - 1]}
  }

  lemma {:induction false} MembersSize(s: seq<int>)
    requires NoDuplicates(s)
    ensures |Members(s)| == |s| && (forall i :: i in Members(s) <==> i in s)
  {
    if s != [] {
      MembersSize(s[..|s| - 1]);
    }
  }

  lemma Subset(a: set<int>, b: set<int>)
    requires a <= b
    ensures |a| <= |b|
  {
    assert b == a + (b - a);
  }

  /** A list that leaves out an entry is not full. */
  lemma LeavesOut(s: seq<int>, n: nat, e: int)
    requires NoDuplicates(s) && (forall i :: i in s ==> 0 < i < n) && 0 < e < n && e !in s
    ensures |s| < n - 1
  {
    BelowSize(n);
    MembersSize(s);
    forall i | i in Members(s) ensures i in Below(n) && i != e {
    }
    Subset(Members(s), Below(n) - {e});
  }
}
