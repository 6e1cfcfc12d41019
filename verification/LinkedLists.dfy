/** Singly linked lists whose links are kept in one array, indexed by the number of the element; 0 ends a list. */
module LinkedLists {

  /** The entry after position k of a list; 0 ends it. */
  function Following(s: seq<int>, k: int): int
    requires -1 <= k
  {
    if k + 1 < |s| then s[k + 1] else 0
  }

  ghost predicate LinkOk(next: seq<int>, s: seq<int>, k: nat)
    requires k < |s|
  {
    0 < s[k] < |next| && next[s[k]] == Following(s, k)
  }

  /** The list of entries s, linked through next from its head. */
  ghost predicate List(next: seq<int>, head: int, s: seq<int>) {
    head == Following(s, -1) && (forall k :: 0 <= k < |s| ==> LinkOk(next, s, k))
  }

  ghost predicate NoDuplicates(s: seq<int>) {
    forall j, k :: 0 <= j < k < |s| ==> s[j] != s[k]
  }

  /** Links that are not those of the list do not matter. */
  lemma ListFrame(next: seq<int>, next2: seq<int>, head: int, s: seq<int>)
    requires List(next, head, s) && |next2| == |next|
    requires forall i {:trigger next2[i]} :: 0 <= i < |next| && i in s ==> next2[i] == next[i]
    ensures List(next2, head, s)
  {
    forall k | 0 <= k < |s| ensures LinkOk(next2, s, k) {
      assert LinkOk(next, s, k) && s[k] in s;
    }
  }

  // --- Adding at the front

  lemma PushList(next: seq<int>, head: int, s: seq<int>, e: int)
    requires List(next, head, s) && 0 < e < |next| && e !in s
    ensures List(next[e := head], e, [e] + s)
  {
    var next2, s2 := next[e := head], [e] + s;
    forall k | 0 <= k < |s2| ensures LinkOk(next2, s2, k) {
      if k > 0 {
        assert LinkOk(next, s, k - 1) && s2[k] == s[k - 1];
      }
    }
  }

  lemma PushNoDuplicates(s: seq<int>, e: int)
    requires NoDuplicates(s) && e !in s
    ensures NoDuplicates([e] + s)
  {
  }

  // --- Taking an element out

  function Without(s: seq<int>, p: int): seq<int>
    requires 0 <= p < |s|
  {
    s[..p] + s[p + 1..]
  }

  lemma WithoutMembers(s: seq<int>, p: int, i: int)
    requires 0 <= p < |s| && NoDuplicates(s)
    ensures i in Without(s, p) <==> i in s && i != s[p]
  {
    var s2 := Without(s, p);
    if i in s && i != s[p] {
      var j :| 0 <= j < |s| && s[j] == i;
      assert s2[if j < p then j else j - 1] == i;
    }
    if i in s2 {
      var j :| 0 <= j < |s2| && s2[j] == i;
      assert s[if j < p then j else j + 1] == i;
    }
  }

  lemma WithoutNoDuplicates(s: seq<int>, p: int)
    requires 0 <= p < |s| && NoDuplicates(s)
    ensures NoDuplicates(Without(s, p))
  {
    var s2 := Without(s, p);
    forall j, k | 0 <= j < k < |s2| ensures s2[j] != s2[k] {
      assert s2[j] == s[if j < p then j else j + 1] && s2[k] == s[if k < p then k else k + 1];
    }
  }

  lemma UnlinkFirst(next: seq<int>, head: int, s: seq<int>)
    requires List(next, head, s) && s != []
    ensures LinkOk(next, s, 0) && List(next, next[s[0]], Without(s, 0))
  {
    var s2 := Without(s, 0);
    assert LinkOk(next, s, 0);
    forall k | 0 <= k < |s2| ensures LinkOk(next, s2, k) {
      assert LinkOk(next, s, k + 1) && s2[k] == s[k + 1];
    }
  }

  lemma UnlinkLater(next: seq<int>, head: int, s: seq<int>, p: int)
    requires List(next, head, s) && NoDuplicates(s) && 0 < p < |s|
    ensures LinkOk(next, s, p) && LinkOk(next, s, p - 1) && List(next[s[p - 1] := next[s[p]]], head, Without(s, p))
  {
    assert LinkOk(next, s, p) && LinkOk(next, s, p - 1);
    var s2, next2 := Without(s, p), next[s[p - 1] := next[s[p]]];
    forall k | 0 <= k < |s2| ensures LinkOk(next2, s2, k) {
      var j := if k < p then k else k + 1;
      assert s2[k] == s[j] && LinkOk(next, s, j);
      assert j != p - 1 ==> s[j] != s[p - 1];
      if k + 1 < |s2| {
        assert s2[k + 1] == s[if k + 1 < p then k + 1 else k + 2];
      }
    }
  }

  lemma InsertAfter(next: seq<int>, head: int, s: seq<int>, p: nat, e: int)
    requires List(next, head, s) && NoDuplicates(s) && p < |s| && 0 < e < |next| && e !in s
    ensures LinkOk(next, s, p)
    ensures List(next[e := next[s[p]]][s[p] := e], head, s[..p + 1] + [e] + s[p + 1..])
    ensures NoDuplicates(s[..p + 1] + [e] + s[p + 1..])
  {
    assert LinkOk(next, s, p);
    var s2, next2 := s[..p + 1] + [e] + s[p + 1..], next[e := next[s[p]]][s[p] := e];
    forall k | 0 <= k < |s2| ensures LinkOk(next2, s2, k) {
      if k != p + 1 {
        var j := if k <= p then k else k - 1;
        assert s2[k] == s[j] && LinkOk(next, s, j) && s[j] in s;
        assert j != p ==> s[j] != s[p];
        if k + 1 < |s2| && k != p {
          assert s2[k + 1] == s[j + 1];
        }
      } else if k + 1 < |s2| {
        assert s2[k + 1] == s[k];
      }
    }
    forall j, k | 0 <= j < k < |s2| ensures s2[j] != s2[k] {
      assert j != p + 1 ==> s2[j] == s[if j <= p then j else j - 1] && s2[j] in s;
      assert k != p + 1 ==> s2[k] == s[if k <= p then k else k - 1] && s2[k] in s;
    }
  }
}
