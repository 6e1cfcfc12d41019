/** The lists of regions of the conservative collector, src/lisp/cgc.c: two singly linked free lists, and the lists of
    the two spaces, whose elements are linked back by the address of the next pointer that leads to them. */
module RegionLists {
  import opened LinkedLists

  /** Where a region is; one that is about to be put in a list is loose. */
  datatype Place = Large | Small | Space(space: int) | Loose

  /** The address of a pointer to a region: the head of the list of a space, or the next pointer of a region. */
  datatype Slot = Null | First(space: int) | NextOf(region: int)

  const NO_SPACE := -1

  datatype Links = Links(next: seq<int>, prev: seq<Slot>, owner: seq<int>, large: int, small: int, heads: seq<int>,
      tails: seq<Slot>)

  datatype Lists = Lists(at: map<Place, seq<int>>, place: map<int, Place>)

  predicate IsPlace(p: Place) {
    !p.Loose? && (p.Space? ==> 0 <= p.space < 2)
  }

  ghost predicate Sizes(k: Links) {
    |k.prev| == |k.next| && |k.owner| == |k.next| && |k.heads| == 2 && |k.tails| == 2
  }

  function Head(k: Links, p: Place): int
    requires IsPlace(p) && |k.heads| == 2
  {
    match p
    case Large => k.large
    case Small => k.small
    case Space(i) => k.heads[i]
  }

  function WithHead(k: Links, p: Place, e: int): Links
    requires IsPlace(p) && |k.heads| == 2
  {
    match p
    case Large => k.(large := e)
    case Small => k.(small := e)
    case Space(i) => k.(heads := k.heads[i := e])
  }

  function OwnerOf(p: Place): int {
    if p.Space? then p.space else NO_SPACE
  }

  ghost predicate Holds(l: Lists, p: Place, x: int)
    requires p in l.at
  {
    x in l.at[p] <==> x in l.place && l.place[x] == p
  }

  ghost predicate ListOk(k: Links, l: Lists, p: Place)
    requires IsPlace(p) && p in l.at && |k.heads| == 2
  {
    List(k.next, Head(k, p), l.at[p]) && NoDuplicates(l.at[p]) && (forall x :: Holds(l, p, x))
  }

  ghost predicate OwnerOk(k: Links, l: Lists, x: int)
    requires x in l.place
  {
    0 < x < |k.owner| && k.owner[x] == OwnerOf(l.place[x]) && (l.place[x] == Loose || IsPlace(l.place[x]))
  }

  /** Every region that is not loose is in one list, and the owner that it names tells in which. */
  ghost predicate LinksOk(k: Links, l: Lists) {
    && Sizes(k)
    && (forall p :: IsPlace(p) <==> p in l.at)
    && (forall p :: p in l.at ==> ListOk(k, l, p))
    && (forall x :: x in l.place ==> OwnerOk(k, l, x))
  }

  /** What leads to position k of the list of a space. */
  function Before(i: int, s: seq<int>, k: int): Slot
    requires 0 <= k <= |s|
  {
    if k == 0 then First(i) else NextOf(s[k - 1])
  }

  ghost predicate BackOk(prev: seq<Slot>, i: int, s: seq<int>, k: nat)
    requires k < |s|
  {
    0 <= s[k] < |prev| && prev[s[k]] == Before(i, s, k)
  }

  /** The links back, and the tail, are exact. */
  ghost predicate Doubly(prev: seq<Slot>, tail: Slot, i: int, s: seq<int>) {
    tail == Before(i, s, |s|) && (forall k :: 0 <= k < |s| ==> BackOk(prev, i, s, k))
  }

  ghost predicate SpaceOk(k: Links, l: Lists, i: int)
    requires 0 <= i < 2 && Space(i) in l.at && |k.tails| == 2
  {
    Doubly(k.prev, k.tails[i], i, l.at[Space(i)])
  }

  lemma InRange(k: Links, l: Lists, p: Place, x: int)
    requires LinksOk(k, l) && p in l.at && x in l.at[p]
    ensures x in l.place && l.place[x] == p && 0 < x < |k.next| && k.owner[x] == OwnerOf(p)
  {
    assert ListOk(k, l, p) && Holds(l, p, x) && OwnerOk(k, l, x);
  }

  lemma ListAt(k: Links, l: Lists, p: Place)
    requires LinksOk(k, l) && IsPlace(p)
    ensures Sizes(k) && p in l.at && List(k.next, Head(k, p), l.at[p]) && NoDuplicates(l.at[p])
    ensures forall x :: x in l.at[p] ==> x in l.place && l.place[x] == p && 0 < x < |k.next|
  {
    assert ListOk(k, l, p);
    forall x | x in l.at[p] ensures x in l.place && l.place[x] == p && 0 < x < |k.next| {
      InRange(k, l, p, x);
    }
  }

  // --- A list is changed

  function Put(l: Lists, p: Place, s: seq<int>, x: int, q: Place): Lists {
    Lists(l.at[p := s], l.place[x := q])
  }

  /** One list changes, and so does the place of one region, in that list or out of it; the others see nothing of it. */
  lemma PutOk(k: Links, k2: Links, l: Lists, p: Place, s: seq<int>, x: int, q: Place)
    requires LinksOk(k, l) && Sizes(k2) && |k2.next| == |k.next| && IsPlace(p) && 0 < x < |k.next|
    requires List(k2.next, Head(k2, p), s) && NoDuplicates(s)
    requires q == p || q == Loose
    requires x in l.place ==> l.place[x] == p || l.place[x] == Loose
    requires forall y {:trigger y in s} :: y in s <==> (y == x && q == p) || (y != x && y in l.at[p])
    requires k2.owner == k.owner[x := OwnerOf(q)]
    requires forall r :: IsPlace(r) && r != p ==> Head(k2, r) == Head(k, r)
    requires forall y {:trigger k2.next[y]} :: 0 <= y < |k.next| && y != x && y !in l.at[p] ==> k2.next[y] == k.next[y]
    ensures LinksOk(k2, Put(l, p, s, x, q))
  {
    hide List, NoDuplicates;
    var l2 := Put(l, p, s, x, q);
    assert ListOk(k, l, p);
    forall r | r in l2.at ensures ListOk(k2, l2, r) {
      assert ListOk(k, l, r);
      forall y ensures Holds(l2, r, y) {
        assert Holds(l, r, y) && Holds(l, p, y) && Holds(l, r, x);
      }
      if r != p {
        forall y | 0 <= y < |k.next| && y in l.at[r] ensures k2.next[y] == k.next[y] {
          assert Holds(l, r, y) && Holds(l, p, y) && Holds(l, r, x);
        }
        ListFrame(k.next, k2.next, Head(k, r), l.at[r]);
      }
    }
    forall y | y in l2.place ensures OwnerOk(k2, l2, y) {
      if y != x {
        assert OwnerOk(k, l, y);
      }
    }
  }

  /** free_region, once the region is out of its list: it becomes the first of a free list. */
  function Push(k: Links, p: Place, e: int): Links
    requires IsPlace(p) && Sizes(k) && 0 <= e < |k.next|
  {
    WithHead(k.(next := k.next[e := Head(k, p)], prev := k.prev[e := Null], owner := k.owner[e := OwnerOf(p)]), p, e)
  }

  lemma PushOk(k: Links, l: Lists, p: Place, e: int)
    requires LinksOk(k, l) && p in {Large, Small} && 0 < e < |k.next| && (e in l.place ==> l.place[e] == Loose)
    ensures p in l.at && LinksOk(Push(k, p, e), Put(l, p, [e] + l.at[p], e, p))
  {
    ListAt(k, l, p);
    PushList(k.next, Head(k, p), l.at[p], e);
    PushNoDuplicates(l.at[p], e);
    PutOk(k, Push(k, p, e), l, p, [e] + l.at[p], e, p);
  }

  /** Taking the region at position pos out of a list, whose elements are s, through the pointer that leads to it. */
  function Unlink(k: Links, p: Place, s: seq<int>, pos: nat): Links
    requires IsPlace(p) && Sizes(k) && pos < |s| && (forall j :: 0 <= j < |s| ==> 0 < s[j] < |k.next|)
  {
    var e := s[pos];
    var k1 := k.(owner := k.owner[e := NO_SPACE]);
    if pos == 0 then WithHead(k1, p, k.next[e]) else k1.(next := k.next[s[pos - 1] := k.next[e]])
  }

  lemma UnlinkOk(k: Links, l: Lists, p: Place, pos: nat)
    requires LinksOk(k, l) && IsPlace(p) && p in l.at && pos < |l.at[p]|
    ensures forall j :: 0 <= j < |l.at[p]| ==> 0 < l.at[p][j] < |k.next|
    ensures LinksOk(Unlink(k, p, l.at[p], pos), Put(l, p, Without(l.at[p], pos), l.at[p][pos], Loose))
  {
    hide Without;
    var s := l.at[p];
    ListAt(k, l, p);
    forall j | 0 <= j < |s| ensures 0 < s[j] < |k.next| {
      assert s[j] in s;
    }
    if pos == 0 {
      UnlinkFirst(k.next, Head(k, p), s);
    } else {
      UnlinkLater(k.next, Head(k, p), s, pos);
    }
    WithoutNoDuplicates(s, pos);
    forall y ensures y in Without(s, pos) <==> y in s && y != s[pos] {
      WithoutMembers(s, pos, y);
    }
    PutOk(k, Unlink(k, p, s, pos), l, p, Without(s, pos), s[pos], Loose);
  }

  /** Splitting the region at position pos of a free list: what is left of it, which is new, takes its position. */
  function Replaced(s: seq<int>, pos: nat, e: int): seq<int>
    requires pos < |s|
  {
    s[pos := e]
  }

  function Replace(k: Links, p: Place, s: seq<int>, pos: nat, e: int): Links
    requires IsPlace(p) && Sizes(k) && pos < |s| && 0 < e < |k.next|
    requires forall j :: 0 <= j < |s| ==> 0 < s[j] < |k.next|
  {
    var r := s[pos];
    var k1 := k.(next := k.next[e := k.next[r]], prev := k.prev[e := Null], owner := k.owner[e := NO_SPACE]);
    var k2 := if pos == 0 then WithHead(k1, p, e) else k1.(next := k1.next[s[pos - 1] := e]);
    k2.(next := k2.next[r := 0], prev := k2.prev[r := Null], owner := k2.owner[r := NO_SPACE])
  }

  /** The new region, inserted after position pos. */
  function Insert(k: Links, s: seq<int>, pos: nat, e: int): Links
    requires Sizes(k) && pos < |s| && 0 < e < |k.next| && (forall j :: 0 <= j < |s| ==> 0 < s[j] < |k.next|)
  {
    k.(next := k.next[e := k.next[s[pos]]][s[pos] := e], prev := k.prev[e := Null], owner := k.owner[e := NO_SPACE])
  }

  lemma InsertOk(k: Links, l: Lists, p: Place, pos: nat, e: int)
    requires LinksOk(k, l) && p in {Large, Small} && p in l.at && pos < |l.at[p]| && 0 < e < |k.next| && e !in l.place
    ensures Sizes(k) && (forall j :: 0 <= j < |l.at[p]| ==> 0 < l.at[p][j] < |k.next|)
    ensures LinksOk(Insert(k, l.at[p], pos, e), Put(l, p, l.at[p][..pos + 1] + [e] + l.at[p][pos + 1..], e, p))
  {
    hide LinksOk;
    var s := l.at[p];
    ListAt(k, l, p);
    assert s[pos] in s;
    forall j | 0 <= j < |s| ensures 0 < s[j] < |k.next| {
      assert s[j] in s;
    }
    InsertAfter(k.next, Head(k, p), s, pos, e);
    var s1 := s[..pos + 1] + [e] + s[pos + 1..];
    forall y ensures y in s1 <==> y == e || y in s {
      InsertedMembers(s, pos, e, y);
    }
    PutOk(k, Insert(k, s, pos, e), l, p, s1, e, p);
  }

  lemma ReplaceOk(k: Links, l: Lists, p: Place, pos: nat, e: int)
    requires LinksOk(k, l) && p in {Large, Small} && p in l.at && pos < |l.at[p]| && 0 < e < |k.next| && e !in l.place
    ensures Sizes(k) && (forall j :: 0 <= j < |l.at[p]| ==> 0 < l.at[p][j] < |k.next|)
    ensures LinksOk(Replace(k, p, l.at[p], pos, e), Lists(l.at[p := Replaced(l.at[p], pos, e)],
        l.place[e := p][l.at[p][pos] := Loose]))
  {
    hide LinksOk;
    var s, r := l.at[p], l.at[p][pos];
    assert forall j :: 0 <= j < |s| ==> s[j] in l.place by {
      ListAt(k, l, p);
      forall j | 0 <= j < |s| ensures s[j] in l.place {
        assert s[j] in s;
      }
    }
    InsertOk(k, l, p, pos, e);
    var k1, s1 := Insert(k, s, pos, e), s[..pos + 1] + [e] + s[pos + 1..];
    var l1 := Put(l, p, s1, e, p);
    UnlinkOk(k1, l1, p, pos);
    assert Without(s1, pos) == Replaced(s, pos, e);
    var l2 := Lists(l.at[p := Replaced(s, pos, e)], l.place[e := p][r := Loose]);
    assert l2.at == l1.at[p := Without(s1, pos)] && l2.place == l1.place[s1[pos] := Loose];
    LooseLinks(Unlink(k1, p, s1, pos), Replace(k, p, s, pos, e), l2, r);
  }

  lemma InsertedMembers(s: seq<int>, pos: nat, e: int, y: int)
    requires pos < |s|
    ensures y in s[..pos + 1] + [e] + s[pos + 1..] <==> y == e || y in s
  {
    assert s == s[..pos + 1] + s[pos + 1..];
  }

  /** The links of a loose region do not matter. */
  lemma LooseLinks(k: Links, k2: Links, l: Lists, e: int)
    requires LinksOk(k, l) && Sizes(k2) && e in l.place && l.place[e] == Loose
    requires |k2.next| == |k.next|
    requires forall y {:trigger k2.next[y]} :: 0 <= y < |k.next| && y != e ==> k2.next[y] == k.next[y]
    requires k2.owner == k.owner && k2.heads == k.heads && k2.large == k.large && k2.small == k.small
    ensures LinksOk(k2, l)
  {
    hide List, NoDuplicates;
    forall p | p in l.at ensures ListOk(k2, l, p) {
      assert ListOk(k, l, p) && Holds(l, p, e);
      ListFrame(k.next, k2.next, Head(k, p), l.at[p]);
    }
    forall x | x in l.place ensures OwnerOk(k2, l, x) {
      assert OwnerOk(k, l, x);
    }
  }

  // --- Spaces

  lemma DoublyFrame(prev: seq<Slot>, prev2: seq<Slot>, tail: Slot, i: int, s: seq<int>)
    requires Doubly(prev, tail, i, s) && |prev2| == |prev|
    requires forall x {:trigger prev2[x]} :: 0 <= x < |prev| && x in s ==> prev2[x] == prev[x]
    ensures Doubly(prev2, tail, i, s)
  {
    forall k | 0 <= k < |s| ensures BackOk(prev2, i, s, k) {
      assert BackOk(prev, i, s, k) && s[k] in s;
    }
  }

  lemma DoublyWithout(next: seq<int>, prev: seq<Slot>, tail: Slot, i: int, s: seq<int>, p: nat)
    requires Doubly(prev, tail, i, s) && NoDuplicates(s) && p < |s| && LinkOk(next, s, p)
    requires forall k :: 0 <= k < |s| ==> s[k] != 0
    ensures 0 <= s[p] < |prev| && prev[s[p]] == Before(i, s, p) && 0 <= next[s[p]] < |prev|
    ensures var prev2 := if next[s[p]] != 0 then prev[next[s[p]] := prev[s[p]]] else prev;
            Doubly(prev2, if tail == NextOf(s[p]) then prev[s[p]] else tail, i, Without(s, p))
  {
    assert BackOk(prev, i, s, p) && (p + 1 < |s| ==> BackOk(prev, i, s, p + 1));
    var s2 := Without(s, p);
    var prev2 := if next[s[p]] != 0 then prev[next[s[p]] := prev[s[p]]] else prev;
    forall k | 0 <= k < |s2| ensures BackOk(prev2, i, s2, k) {
      var j := if k < p then k else k + 1;
      assert s2[k] == s[j] && BackOk(prev, i, s, j);
      assert p + 1 < |s| && j != p + 1 ==> s[j] != s[p + 1];
      if k > 0 {
        assert s2[k - 1] == s[if k - 1 < p then k - 1 else k];
      }
    }
    assert |s2| > 0 ==> s2[|s2| - 1] == s[if |s2| - 1 < p then |s2| - 1 else |s2|];
    assert p < |s| - 1 ==> s[p] != s[|s| - 1];
  }

  lemma AppendList(next: seq<int>, head: int, s: seq<int>, e: int)
    requires List(next, head, s) && NoDuplicates(s) && 0 < e < |next| && e !in s
    ensures s != [] ==> 0 < s[|s| - 1] < |next|
    ensures NoDuplicates(s + [e])
    ensures s == [] ==> List(next[e := 0], e, s + [e])
    ensures s != [] ==> List(next[e := 0][s[|s| - 1] := e], head, s + [e])
  {
    var s2 := s + [e];
    if s != [] {
      assert LinkOk(next, s, |s| - 1);
      var next2 := next[e := 0][s[|s| - 1] := e];
      forall k | 0 <= k < |s2| ensures LinkOk(next2, s2, k) {
        if k < |s| {
          assert LinkOk(next, s, k) && s[k] in s;
          assert k < |s| - 1 ==> s[k] != s[|s| - 1];
        }
      }
    }
  }

  lemma DoublyAppend(prev: seq<Slot>, tail: Slot, i: int, s: seq<int>, e: int)
    requires Doubly(prev, tail, i, s) && 0 <= e < |prev| && e !in s
    ensures Doubly(prev[e := tail], NextOf(e), i, s + [e])
  {
    var s2, prev2 := s + [e], prev[e := tail];
    forall k | 0 <= k < |s2| ensures BackOk(prev2, i, s2, k) {
      if k < |s| {
        assert BackOk(prev, i, s, k) && s[k] in s;
      }
    }
  }

  predicate SlotOk(k: Links, slot: Slot) {
    (slot.First? ==> 0 <= slot.space < 2) && (slot.NextOf? ==> 0 <= slot.region < |k.next|)
  }

  /** A word is stored through the address of a pointer. */
  function Store(k: Links, slot: Slot, e: int): Links
    requires Sizes(k) && SlotOk(k, slot)
  {
    match slot
    case Null => k
    case First(i) => k.(heads := k.heads[i := e])
    case NextOf(r) => k.(next := k.next[r := e])
  }

  /** move_to_newspace: the region is taken out of the list of the old space, */
  function Detach(k: Links, e: int, space: int): Links
    requires Sizes(k) && 0 <= space < 2 && 0 <= e < |k.next| && 0 <= k.next[e] < |k.next| && SlotOk(k, k.prev[e])
  {
    var k1 := Store(k, k.prev[e], k.next[e]);
    var k2 := if k.next[e] != 0 then k1.(prev := k1.prev[k.next[e] := k.prev[e]]) else k1;
    var k3 := if k.tails[space] == NextOf(e) then k2.(tails := k2.tails[space := k.prev[e]]) else k2;
    k3.(owner := k3.owner[e := NO_SPACE])
  }

  /** and put at the end of that of the new space. */
  function Attach(k: Links, e: int, space: int): Links
    requires Sizes(k) && 0 <= space < 2 && 0 <= e < |k.next| && SlotOk(k, k.tails[space])
  {
    var k1 := k.(prev := k.prev[e := k.tails[space]], next := k.next[e := 0]);
    var k2 := Store(k1, k1.tails[space], e);
    k2.(tails := k2.tails[space := NextOf(e)], owner := k2.owner[e := space])
  }

  /** Links back, and tails, do not matter for the lists. */
  lemma SameLinks(k: Links, k2: Links, l: Lists)
    requires LinksOk(k, l) && Sizes(k2)
    requires k2.next == k.next && k2.owner == k.owner && k2.heads == k.heads && k2.large == k.large
    requires k2.small == k.small
    ensures LinksOk(k2, l)
  {
    hide List, NoDuplicates;
    forall p | p in l.at ensures ListOk(k2, l, p) {
      assert ListOk(k, l, p);
    }
    forall x | x in l.place ensures OwnerOk(k2, l, x) {
      assert OwnerOk(k, l, x);
    }
  }

  lemma DetachSlots(k: Links, l: Lists, e: int, i: int)
    requires LinksOk(k, l) && 0 <= i < 2 && Space(i) in l.at && SpaceOk(k, l, i) && e in l.place
    requires l.place[e] == Space(i)
    ensures 0 < e < |k.next| && 0 <= k.next[e] < |k.next| && |k.prev| == |k.next| && SlotOk(k, k.prev[e])
    ensures e in l.at[Space(i)]
  {
    var s := l.at[Space(i)];
    ListAt(k, l, Space(i));
    assert ListOk(k, l, Space(i)) && Holds(l, Space(i), e);
    var pos :| 0 <= pos < |s| && s[pos] == e;
    assert LinkOk(k.next, s, pos);
    assert pos > 0 ==> LinkOk(k.next, s, pos - 1);
    assert pos + 1 < |s| ==> LinkOk(k.next, s, pos + 1);
    assert BackOk(k.prev, i, s, pos);
  }

  lemma DetachOk(k: Links, l: Lists, pos: nat, i: int)
    requires LinksOk(k, l) && 0 <= i < 2 && (forall j :: 0 <= j < 2 ==> Space(j) in l.at && SpaceOk(k, l, j))
    requires pos < |l.at[Space(i)]|
    requires 0 < l.at[Space(i)][pos] < |k.next| && 0 <= k.next[l.at[Space(i)][pos]] < |k.next|
    requires SlotOk(k, k.prev[l.at[Space(i)][pos]])
    ensures var k2, l2 := Detach(k, l.at[Space(i)][pos], i), Put(l, Space(i), Without(l.at[Space(i)], pos),
        l.at[Space(i)][pos], Loose);
            LinksOk(k2, l2) && (forall j :: 0 <= j < 2 ==> SpaceOk(k2, l2, j))
  {
    hide Without, Doubly, LinksOk;
    var s, e := l.at[Space(i)], l.at[Space(i)][pos];
    ListAt(k, l, Space(i));
    assert LinkOk(k.next, s, pos) by {
      assert List(k.next, Head(k, Space(i)), s);
    }
    forall j | 0 <= j < |s| ensures s[j] != 0 {
      assert s[j] in s;
    }
    DoublyWithout(k.next, k.prev, k.tails[i], i, s, pos);
    UnlinkOk(k, l, Space(i), pos);
    var k2, l2 := Detach(k, e, i), Put(l, Space(i), Without(s, pos), e, Loose);
    var k3 := Unlink(k, Space(i), s, pos);
    assert k2.next == k3.next && k2.owner == k3.owner && k2.heads == k3.heads && k2.large == k3.large &&
        k2.small == k3.small;
    SameLinks(k3, k2, l2);
    var t := l.at[Space(1 - i)];
    ListAt(k, l, Space(1 - i));
    assert k.next[e] != 0 ==> k.next[e] in s by {
      assert pos + 1 < |s| ==> s[pos + 1] in s;
    }
    DoublyFrame(k.prev, k2.prev, k.tails[1 - i], 1 - i, t);
    assert SpaceOk(k2, l2, i) && SpaceOk(k2, l2, 1 - i);
  }

  lemma AttachSlot(k: Links, l: Lists, i: int)
    requires LinksOk(k, l) && 0 <= i < 2 && Space(i) in l.at && SpaceOk(k, l, i)
    ensures SlotOk(k, k.tails[i])
  {
    ListAt(k, l, Space(i));
    assert l.at[Space(i)] != [] ==> l.at[Space(i)][|l.at[Space(i)]| - 1] in l.at[Space(i)];
  }

  lemma AttachOk(k: Links, l: Lists, e: int, i: int)
    requires LinksOk(k, l) && 0 <= i < 2 && (forall j :: 0 <= j < 2 ==> Space(j) in l.at && SpaceOk(k, l, j))
    requires SlotOk(k, k.tails[i]) && 0 < e < |k.next| && (e in l.place ==> l.place[e] == Loose)
    ensures var k2, l2 := Attach(k, e, i), Put(l, Space(i), l.at[Space(i)] + [e], e, Space(i));
            LinksOk(k2, l2) && (forall j :: 0 <= j < 2 ==> SpaceOk(k2, l2, j))
  {
    hide LinksOk;
    var s := l.at[Space(i)];
    ListAt(k, l, Space(i));
    ListAt(k, l, Space(1 - i));
    AppendList(k.next, Head(k, Space(i)), s, e);
    DoublyAppend(k.prev, k.tails[i], i, s, e);
    var k2, l2 := Attach(k, e, i), Put(l, Space(i), s + [e], e, Space(i));
    DoublyFrame(k.prev, k2.prev, k.tails[1 - i], 1 - i, l.at[Space(1 - i)]);
    assert s != [] ==> s[|s| - 1] in s;
    PutOk(k, k2, l, Space(i), s + [e], e, Space(i));
    assert SpaceOk(k2, l2, i) && SpaceOk(k2, l2, 1 - i);
  }

  // --- The operations on all lists

  ghost predicate ListsOk(k: Links, l: Lists) {
    LinksOk(k, l) && (forall j :: 0 <= j < 2 ==> Space(j) in l.at && SpaceOk(k, l, j))
  }

  /** Links back of regions that are not in the lists of the spaces do not matter. */
  lemma SpacesFrame(k: Links, l: Lists, k2: Links, l2: Lists)
    requires ListsOk(k, l) && LinksOk(k2, l2) && |k2.prev| == |k.prev| && |k.tails| == 2 && k2.tails == k.tails
    requires forall j :: 0 <= j < 2 ==> Space(j) in l2.at && l2.at[Space(j)] == l.at[Space(j)]
    requires forall x {:trigger k2.prev[x]} ::
      0 <= x < |k.prev| && k2.prev[x] != k.prev[x] ==> x !in l.place || !l.place[x].Space?
    ensures ListsOk(k2, l2)
  {
    hide LinksOk, Doubly;
    forall j | 0 <= j < 2 ensures SpaceOk(k2, l2, j) {
      ListAt(k, l, Space(j));
      DoublyFrame(k.prev, k2.prev, k.tails[j], j, l.at[Space(j)]);
    }
  }

  /** A region is taken out of a free list. */
  function Take(k: Links, p: Place, s: seq<int>, pos: nat): Links
    requires IsPlace(p) && Sizes(k) && pos < |s| && (forall j :: 0 <= j < |s| ==> 0 < s[j] < |k.next|)
  {
    var k2 := Unlink(k, p, s, pos);
    k2.(next := k2.next[s[pos] := 0], prev := k2.prev[s[pos] := Null], owner := k2.owner[s[pos] := NO_SPACE])
  }

  function Taken(l: Lists, p: Place, pos: nat): Lists
    requires p in l.at && pos < |l.at[p]|
  {
    Put(l, p, Without(l.at[p], pos), l.at[p][pos], Loose)
  }

  lemma TakeOk(k: Links, l: Lists, p: Place, pos: nat)
    requires ListsOk(k, l) && p in {Large, Small} && p in l.at && pos < |l.at[p]|
    ensures Sizes(k) && (forall j :: 0 <= j < |l.at[p]| ==> 0 < l.at[p][j] < |k.next|)
    ensures ListsOk(Take(k, p, l.at[p], pos), Taken(l, p, pos))
  {
    hide LinksOk, SpaceOk, Without;
    var s := l.at[p];
    ListAt(k, l, p);
    assert s[pos] in s;
    UnlinkOk(k, l, p, pos);
    LooseLinks(Unlink(k, p, s, pos), Take(k, p, s, pos), Taken(l, p, pos), s[pos]);
    SpacesFrame(k, l, Take(k, p, s, pos), Taken(l, p, pos));
  }

  function Split(l: Lists, p: Place, pos: nat, e: int): Lists
    requires p in l.at && pos < |l.at[p]|
  {
    Lists(l.at[p := Replaced(l.at[p], pos, e)], l.place[e := p][l.at[p][pos] := Loose])
  }

  lemma SplitOk(k: Links, l: Lists, p: Place, pos: nat, e: int)
    requires ListsOk(k, l) && p in {Large, Small} && p in l.at && pos < |l.at[p]| && 0 < e < |k.next| && e !in l.place
    ensures Sizes(k) && (forall j :: 0 <= j < |l.at[p]| ==> 0 < l.at[p][j] < |k.next|)
    ensures ListsOk(Replace(k, p, l.at[p], pos, e), Split(l, p, pos, e))
  {
    hide LinksOk, SpaceOk;
    ListAt(k, l, p);
    assert l.at[p][pos] in l.at[p];
    ReplaceOk(k, l, p, pos, e);
    SpacesFrame(k, l, Replace(k, p, l.at[p], pos, e), Split(l, p, pos, e));
  }

  lemma FreeOk(k: Links, l: Lists, p: Place, e: int)
    requires ListsOk(k, l) && p in {Large, Small} && 0 < e < |k.next| && (e in l.place ==> l.place[e] == Loose)
    ensures Sizes(k) && p in l.at && ListsOk(Push(k, p, e), Put(l, p, [e] + l.at[p], e, p))
  {
    hide LinksOk, SpaceOk;
    ListAt(k, l, p);
    PushOk(k, l, p, e);
    SpacesFrame(k, l, Push(k, p, e), Put(l, p, [e] + l.at[p], e, p));
  }
}
