/** Scavenging EQ hash tables, strong and weak, in the generational collector, src/lisp/gencgc.c: entries whose keys
    move to another bucket are recorded for rehashing, dead entries of weak tables are freed, and weak tables are
    scavenged until nothing new survives. All entries are EQ-based: the tables have no hash vector. */
module HashTables {
  import opened HashChains
  import opened LinkedLists

  datatype Weakness = Strong | Key | Value | KeyAndValue | KeyOrValue

  /** The objects of the old space, which are the words that refer to them, where they are moved, what is copied along
      with them, which is the rest of a list, and which have been copied. */
  class Space {
    const from: set<int>
    const moved: int -> int
    const along: int -> set<int>
    var copied: set<int>

    ghost predicate Valid()
      reads this
    {
      copied <= from && (forall w :: w in from ==> moved(w) !in from && along(w) <= from)
    }

    constructor (from: set<int>, moved: int -> int, along: int -> set<int>)
      requires forall w :: w in from ==> moved(w) !in from && along(w) <= from
      ensures Valid() && this.from == from && this.moved == moved && this.along == along && copied == {}
    {
      this.from := from;
      this.moved := moved;
      this.along := along;
      copied := {};
    }

    /** What has been copied after a word is scavenged. */
    function With(c: set<int>, w: int): set<int> {
      if w in from && w !in c then c + {w} + along(w) else c
    }

    /** A set that has with each object what is copied along with it. */
    ghost predicate Whole(c: set<int>) {
      forall w :: w in c && w in from ==> along(w) <= c
    }

    /** survives_gc */
    predicate Survives(w: int)
      reads this
    {
      Lives(from, copied, w)
    }

    function Now(w: int): int {
      if w in from then moved(w) else w
    }

    /** scavenge of one word. */
    method Scavenge(w: int) returns (now: int)
      requires Valid()
      modifies `copied
      ensures Valid() && now == Now(w) && now !in from
      ensures copied == With(old(copied), w)
    {
      now := w;
      if w in from {
        copied := With(copied, w);
        now := moved(w);
      }
    }
  }

  predicate Lives(from: set<int>, copied: set<int>, w: int) {
    w !in from || w in copied
  }

  /** An entry: its key, its value and the list that it is in. */
  datatype Entry = Entry(key: int, value: int, place: Place)

  function Bucket(key: int, buckets: int): int
    requires 0 < buckets
  {
    EqHash(key) % buckets
  }

  /** An entry in a collision chain is in the chain of its key's bucket; the collector does not care for entries whose
      key and value are both the table's empty marker. */
  predicate Hashed(e: Entry, buckets: int, empty: int)
    requires 0 < buckets
  {
    e.place.Chain? ==> e.place == Chain(Bucket(e.key, buckets)) || (e.key == empty && e.value == empty)
  }

  /** Whether a table gives up an entry because of what does not survive. */
  predicate Gives(weak: Weakness, keySurvives: bool, valueSurvives: bool) {
    match weak
    case Strong => false
    case Key => !keySurvives
    case Value => !valueSurvives
    case KeyAndValue => !keySurvives || !valueSurvives
    case KeyOrValue => !keySurvives && !valueSurvives
  }

  /** The entry has these words now, and was recorded for rehashing if it is in the wrong chain for its key. */
  predicate Kept(e0: Entry, e1: Entry, key: int, value: int, buckets: int, empty: int)
    requires 0 < buckets
  {
    && e1.key == key && e1.value == value
    && e1.place == (if e0.place == Chain(Bucket(e0.key, buckets)) && Bucket(key, buckets) != Bucket(e0.key, buckets)
                       && (key != empty || value != empty) then Rehash else e0.place)
  }

  /** The entry is given up: it is freed if that is asked for and it is in the chain of its key's bucket, and left as it
      is otherwise. */
  predicate GivenUp(e0: Entry, e1: Entry, removep: bool, buckets: int, empty: int)
    requires 0 < buckets
  {
    e1 == if removep && e0.place == Chain(Bucket(e0.key, buckets)) then Entry(empty, empty, Free) else e0
  }

  /** What becomes of an entry: it is kept with its words moved, and they survive, or it is given up because of what did
      not survive before. */
  predicate Outcome(weak: Weakness, e0: Entry, e1: Entry, removep: bool, key: int, value: int, keyLived: bool,
                    valueLived: bool, keyLives: bool, valueLives: bool, buckets: int, empty: int)
    requires 0 < buckets
  {
    || (Kept(e0, e1, key, value, buckets, empty) && keyLives && valueLives)
    || (Gives(weak, keyLived, valueLived) && GivenUp(e0, e1, removep, buckets, empty))
  }

  /** What has to survive in a weak table because something else in its entry does: an entry that is closed has no side
      that survives with the other, which depends on it, dead. */
  predicate Closed(weak: Weakness, chained: bool, keyLives: bool, valueLives: bool) {
    match weak
    case Strong => true
    case Key => chained && keyLives ==> valueLives
    case Value => valueLives ==> keyLives
    case KeyAndValue => true
    case KeyOrValue => (chained && keyLives ==> valueLives) && (valueLives ==> keyLives)
  }

  /** Whether a weak table makes the value of an entry survive, because its key does. */
  predicate DragsValue(weak: Weakness, chained: bool, keyLives: bool) {
    weak in {Key, KeyOrValue} && chained && keyLives
  }

  /** Whether it makes the key survive, because the value does. */
  predicate DragsKey(weak: Weakness, valueLives: bool) {
    weak in {Value, KeyOrValue} && valueLives
  }

  /** An entry is closed exactly if both of its words survive, or what the table holds weakly does not, a key whose
      chain is empty dragging nothing along; and exactly if it drags nothing along that is dead. */
  lemma ClosedExactly(weak: Weakness, chained: bool, keyLives: bool, valueLives: bool)
    requires weak != Strong
    ensures Closed(weak, chained, keyLives, valueLives) <==>
              || (keyLives && valueLives) || (weak == Key && (!keyLives || !chained)) || (weak == Value && !valueLives)
              || (weak == KeyAndValue && !(keyLives && valueLives))
              || (weak == KeyOrValue && !valueLives && (!keyLives || !chained))
    ensures Closed(weak, chained, keyLives, valueLives) <==>
              (DragsValue(weak, chained, keyLives) ==> valueLives) && (DragsKey(weak, valueLives) ==> keyLives)
  {
  }

  /** No chain gets its first entry. */
  ghost predicate Emptier(index0: seq<int>, index1: seq<int>) {
    |index1| == |index0| && (forall b :: 0 <= b < |index0| && index0[b] == 0 ==> index1[b] == 0)
  }

  class HashTable {
    const weak: Weakness
    var index: seq<int>
    var next: seq<int>
    var keys: seq<int>
    var values: seq<int>
    var nextFree: int
    var needingRehash: int
    var numberEntries: int
    ghost var lists: Lists

    constructor (weak: Weakness, links: Links, keys: seq<int>, values: seq<int>, numberEntries: int, ghost lists: Lists)
      requires LinksOk(links, lists) && |keys| == |values| == |links.next| && Free in lists.at && Rehash in lists.at
      requires (forall i :: 0 < i < |lists.place| ==> lists.place[i] != Loose)
      requires numberEntries == |links.next| - 1 - |lists.at[Free]|
      ensures Valid() && this.weak == weak && K() == links && this.lists == lists && this.keys == keys
      ensures this.values == values
    {
      this.weak := weak;
      index, next, nextFree, needingRehash := links.index, links.next, links.nextFree, links.needingRehash;
      this.keys, this.values := keys, values;
      this.numberEntries := numberEntries;
      this.lists := lists;
    }

    function K(): Links
      reads `index, `next, `nextFree, `needingRehash
    {
      Links(index, next, nextFree, needingRehash)
    }

    ghost predicate Partitioned()
      reads this
    {
      && LinksOk(K(), lists) && |keys| == |next| && |values| == |next|
      && 0 < |index| && 0 < |next| && |lists.place| == |next| && Free in lists.at && Rehash in lists.at
    }

    ghost predicate NoneLoose(place: seq<Place>) {
      forall i :: 0 < i < |place| ==> place[i] != Loose
    }

    /** Every entry is in just one list, and the entries that are not free are counted. */
    ghost predicate Valid()
      reads this
    {
      Partitioned() && NoneLoose(lists.place) && numberEntries == |next| - 1 - |lists.at[Free]|
    }

    ghost function At(i: int): Entry
      requires Partitioned() && 0 <= i < |next|
      reads this
    {
      Entry(keys[i], values[i], lists.place[i])
    }

    ghost function Entries(): (s: seq<Entry>)
      requires Partitioned()
      reads this
      ensures |s| == |next| && (forall i :: 0 <= i < |next| ==> s[i] == At(i))
    {
      seq(|next|, i requires Partitioned() && 0 <= i < |next| reads this => At(i))
    }

    /** What tells entries apart, the links left out: a table with the same shape is that of another time. */
    ghost predicate Shape(buckets: int, entries: int, empty: int)
      reads this
    {
      |index| == buckets && |next| == entries && |values| == entries && 0 < entries && values[0] == empty
    }

    /** The two halves of the search for an entry in a chain, and its removal. */
    method Unlink(b: int, e: int) returns (found: bool)
      requires Valid() && 0 <= b < |index| && index[b] != 0 && 0 < e < |next|
      modifies `index, `next, `lists
      ensures found <==> old(lists.place[e]) == Chain(b)
      ensures !found ==> index == old(index) && next == old(next) && lists == old(lists)
      ensures |index| == |old(index)| && |next| == |old(next)| && Emptier(old(index), index)
      ensures found ==> Partitioned() && lists.place == old(lists.place)[e := Loose]
      ensures found ==> lists.at[Free] == old(lists.at[Free])
    {
      hide LinksOk, NoneLoose;
      ghost var k, l := K(), lists;
      ChainAt(k, l, b, e);
      ghost var s := lists.at[Chain(b)];
      if index[b] == e {
        UnlinkOk(k, l, b, 0, 0);
        index := index[b := next[e]];
        lists := Unlinked(lists, b, 0);
        found := true;
      } else {
        assert LinkOk(next, s, 0);
        var prev := index[b];
        var i := next[prev];
        ghost var pos := 0;
        while i != 0 && i != e
          invariant 0 <= pos < |s| && 0 < prev < |next| && prev == s[pos] && i == Following(s, pos)
          invariant forall j :: 0 <= j <= pos ==> s[j] != e
          decreases |s| - pos
          modifies {}
        {
          assert LinkOk(next, s, pos + 1);
          prev, i := i, next[i];
          pos := pos + 1;
        }
        found := i == e;
        if found {
          UnlinkOk(k, l, b, pos + 1, prev);
          next := next[prev := next[e]];
          lists := Unlinked(lists, b, pos + 1);
        } else {
          assert pos + 1 == |s| by {
            assert pos + 1 < |s| ==> LinkOk(next, s, pos + 1);
          }
        }
      }
    }

    /** free_hash_entry: an entry in the chain is put on the free list, and its key and value are emptied. */
    method FreeHashEntry(b: int, e: int)
      requires Valid() && 0 <= b < |index| && index[b] != 0 && 0 < e < |next|
      modifies this
      ensures Valid() && Shape(|old(index)|, |old(next)|, old(values[0]))
      ensures At(e) == if old(At(e)).place == Chain(b) then Entry(values[0], values[0], Free) else old(At(e))
      ensures numberEntries == old(numberEntries) - if old(At(e)).place == Chain(b) then 1 else 0
      ensures forall i :: 0 <= i < |next| && i != e ==> At(i) == old(At(i))
    {
      hide LinksOk;
      var freeP := Unlink(b, e);
      if freeP {
        CountPositive(K(), lists, e);
        assert numberEntries > 0;
        PushOk(K(), lists, Free, e);
        numberEntries := numberEntries - 1;
        next := next[e := nextFree];
        nextFree := e;
        lists := Pushed(lists, Free, e);
        var empty := values[0];
        keys := keys[e := empty];
        values := values[e := empty];
      }
    }

    /** record_for_rehashing: an entry in the chain is put on the list of those needing rehashing. */
    method RecordForRehashing(b: int, e: int)
      requires Valid() && 0 <= b < |index| && index[b] != 0 && 0 < e < |next|
      modifies `index, `next, `lists, `needingRehash
      ensures Valid() && Shape(|old(index)|, |old(next)|, old(values[0]))
      ensures At(e) == if old(At(e)).place == Chain(b) then old(At(e)).(place := Rehash) else old(At(e))
      ensures Emptier(old(index), index)
      ensures forall i :: 0 <= i < |next| && i != e ==> At(i) == old(At(i))
    {
      hide LinksOk;
      var rehashP := Unlink(b, e);
      if rehashP {
        PushOk(K(), lists, Rehash, e);
        next := next[e := needingRehash];
        needingRehash := e;
        lists := Pushed(lists, Rehash, e);
      }
    }

    ghost predicate HashedAt(i: int)
      requires Partitioned() && 0 <= i < |next|
      reads this
    {
      Hashed(At(i), |index|, values[0])
    }

    /** Every chained entry is in its key's bucket, and the empty marker, which is scavenged first, has been moved. */
    ghost predicate Ready(from: set<int>)
      reads this
    {
      Valid() && values[0] !in from && (forall i :: 0 < i < |next| ==> HashedAt(i))
    }

    /** A chained entry refers to nothing in the old space. */
    ghost predicate CleanAt(i: int, from: set<int>)
      requires Partitioned() && 0 <= i < |next|
      reads this
    {
      At(i).place.Chain? ==> keys[i] !in from && values[i] !in from
    }

    ghost predicate ClosedAt(i: int, from: set<int>, copied: set<int>)
      requires Partitioned() && 0 <= i < |next|
      reads this
    {
      Closed(weak, index[Bucket(keys[i], |index|)] != 0, Lives(from, copied, keys[i]), Lives(from, copied, values[i]))
    }

    ghost predicate AllClosed(from: set<int>, copied: set<int>)
      requires Partitioned()
      reads this
    {
      forall i :: 0 < i < |next| ==> ClosedAt(i, from, copied)
    }

    /** maybe_record_for_rehashing, after the words of entry i have been scavenged. */
    method MaybeRecordForRehashing(oldIndex: int, i: int, indexValue: int)
      requires Valid() && 0 <= oldIndex < |index| && indexValue == index[oldIndex] && 0 < i < |next|
      modifies `index, `next, `lists, `needingRehash
      ensures Valid() && Shape(|old(index)|, |old(next)|, old(values[0]))
      ensures At(i) == if old(At(i)).place == Chain(oldIndex) && Bucket(keys[i], |index|) != oldIndex
                          && (keys[i] != values[0] || values[i] != values[0]) then old(At(i)).(place := Rehash)
                              else old(At(i))
      ensures forall j :: 0 <= j < |next| && j != i ==> At(j) == old(At(j))
      ensures Emptier(old(index), index)
      ensures Bucket(keys[i], |index|) == oldIndex ==> index == old(index) && next == old(next) && lists == old(lists)
    {
      hide LinksOk;
      ChainNotEmpty(K(), lists, oldIndex, i);
      var newKey, value, empty := keys[i], values[i], values[0];
      var newIndex := Bucket(newKey, |index|);
      if oldIndex != newIndex && indexValue != 0 && (newKey != empty || value != empty) {
        RecordForRehashing(oldIndex, i);
      }
    }

    /** The outcome for entry i, which was e0 when the objects of c0 had been copied, now that those of c1 have. */
    ghost predicate DoneAt(i: int, space: Space, e0: Entry, c0: set<int>, c1: set<int>, removep: bool)
      requires Partitioned() && 0 <= i < |next|
      reads this
    {
      Outcome(weak, e0, At(i), removep, space.Now(e0.key), space.Now(e0.value),
              Lives(space.from, c0, e0.key), Lives(space.from, c0, e0.value),
              Lives(space.from, c1, e0.key), Lives(space.from, c1, e0.value), |index|, values[0])
    }

    /** The outcomes for the entries, which were s. */
    ghost predicate Done(space: Space, s: seq<Entry>, c0: set<int>, c1: set<int>, removep: bool)
      requires Partitioned()
      reads this
    {
      |s| == |next| && (forall i :: 0 < i < |next| ==> DoneAt(i, space, s[i], c0, c1, removep))
    }

    lemma DoneLater(space: Space, s: seq<Entry>, c0: set<int>, c1: set<int>, c2: set<int>, removep: bool)
      requires Partitioned() && Done(space, s, c0, c1, removep) && c1 <= c2
      ensures Done(space, s, c0, c2, removep)
    {
      hide Kept, GivenUp, LinksOk;
      forall i | 0 < i < |next| ensures DoneAt(i, space, s[i], c0, c2, removep) {
        assert DoneAt(i, space, s[i], c0, c1, removep);
      }
    }

    /** Of the entries that a table gives up because of what has not survived in the end, those in the chain of their
        key's bucket are freed if that is asked for, and no others; these keep their words, also if they are to be
        rehashed. */
    lemma DeadFreed(space: Space, s: seq<Entry>, c0: set<int>, c1: set<int>, removep: bool, i: int)
      requires Partitioned() && Done(space, s, c0, c1, removep) && 0 < i < |next|
      requires Gives(weak, Lives(space.from, c1, s[i].key), Lives(space.from, c1, s[i].value))
      ensures s[i].place != Free ==>
        (At(i).place == Free <==> removep && s[i].place == Chain(Bucket(s[i].key, |index|)))
      ensures At(i) == if removep && s[i].place == Chain(Bucket(s[i].key, |index|))
                       then Entry(values[0], values[0], Free) else s[i]
    {
      assert DoneAt(i, space, s[i], c0, c1, removep);
    }

    /** And what is freed did not survive in the beginning. */
    lemma FreedDead(space: Space, s: seq<Entry>, c0: set<int>, c1: set<int>, removep: bool, i: int)
      requires Partitioned() && Done(space, s, c0, c1, removep) && 0 < i < |next|
      requires s[i].place != Free && At(i).place == Free
      ensures removep && s[i].place == Chain(Bucket(s[i].key, |index|))
      ensures Gives(weak, Lives(space.from, c0, s[i].key), Lives(space.from, c0, s[i].value))
    {
      assert DoneAt(i, space, s[i], c0, c1, removep);
    }

    /** Entry i has its words e0.key and e0.value still, where they are now. */
    ghost predicate MovedAt(i: int, space: Space, e0: Entry)
      requires Partitioned() && 0 <= i < |next|
      reads this
    {
      && keys[i] == (if e0.key in space.from then space.moved(e0.key) else e0.key)
      && values[i] == (if e0.value in space.from then space.moved(e0.value) else e0.value)
      && (At(i).place in {Chain(Bucket(keys[i], |index|)), Rehash} || (keys[i] == values[0] && values[i] == values[0]))
    }

    ghost predicate FreedAt(i: int)
      requires Partitioned() && 0 <= i < |next|
      reads this
    {
      At(i) == Entry(values[0], values[0], Free)
    }

    /** What the removing scan makes of an entry in the chain of its key's bucket, said for each kind of table: it is
        freed if what the table holds weakly is dead in the end, and has its words, moved, if that was alive in the
        beginning. */
    ghost predicate DecidedAt(i: int, space: Space, e0: Entry, c0: set<int>, c1: set<int>)
      requires Partitioned() && 0 <= i < |next|
      reads this
    {
      var key0, value0 := Lives(space.from, c0, e0.key), Lives(space.from, c0, e0.value);
      var key1, value1 := Lives(space.from, c1, e0.key), Lives(space.from, c1, e0.value);
      && (weak == Strong ==> MovedAt(i, space, e0))
      && (weak == Key ==> (!key1 ==> FreedAt(i)) && (key0 ==> MovedAt(i, space, e0)))
      && (weak == Value ==> (!value1 ==> FreedAt(i)) && (value0 ==> MovedAt(i, space, e0)))
      && (weak == KeyAndValue ==> (!key1 || !value1 ==> FreedAt(i)) && (key0 && value0 ==> MovedAt(i, space, e0)))
      && (weak == KeyOrValue ==> (!key1 && !value1 ==> FreedAt(i)) && (key0 || value0 ==> MovedAt(i, space, e0)))
    }

    ghost predicate Decided(space: Space, s: seq<Entry>, c0: set<int>, c1: set<int>)
      requires Partitioned()
      reads this
    {
      |s| == |next| && forall i :: 0 < i < |next| && s[i].place == Chain(Bucket(s[i].key, |index|)) ==>
        DecidedAt(i, space, s[i], c0, c1)
    }

    lemma DoneDecided(space: Space, s: seq<Entry>, c0: set<int>, c1: set<int>)
      requires Partitioned() && Done(space, s, c0, c1, true) && c0 <= c1
      ensures Decided(space, s, c0, c1)
    {
      hide LinksOk, EqHash;
      forall i | 0 < i < |next| && s[i].place == Chain(Bucket(s[i].key, |index|))
        ensures DecidedAt(i, space, s[i], c0, c1)
      {
        assert DoneAt(i, space, s[i], c0, c1, true);
      }
    }

    /** Every entry with a word that refers to the old space is in the chain of its key's bucket. */
    ghost predicate AllInChains(from: set<int>)
      requires Partitioned()
      reads this
    {
      forall i :: 0 < i < |next| ==> InChainAt(i, from)
    }

    /** Nothing more of the table has to survive. */
    ghost predicate QuietIn(from: set<int>, copied: set<int>)
      requires Partitioned()
      reads this
    {
      weak != Strong && AllClosed(from, copied) && AllInChains(from)
    }

    ghost predicate InChainAt(i: int, from: set<int>)
      requires Partitioned() && 0 <= i < |next|
      reads this
    {
      keys[i] in from || values[i] in from ==> At(i).place == Chain(Bucket(keys[i], |index|))
    }

    /** The body of the loop of scav_hash_entries. */
    method ScavHashEntry(i: int, space: Space, removep: bool)
      requires Ready(space.from) && space.Valid() && 0 < i < |next|
      modifies this, space`copied
      ensures Valid() && Shape(|old(index)|, |old(next)|, old(values[0])) && space.Valid()
      ensures old(space.copied) <= space.copied
      ensures if old(index[Bucket(keys[i], |index|)] != 0
                     && Gives(weak, space.Survives(keys[i]), space.Survives(values[i])))
              then GivenUp(old(At(i)), At(i), removep, |index|, values[0]) && space.copied == old(space.copied)
              else Kept(old(At(i)), At(i), space.Now(old(keys[i])), space.Now(old(values[i])), |index|, values[0])
                   && space.copied == space.With(space.With(old(space.copied), old(keys[i])), old(values[i]))
      ensures forall j :: 0 <= j < |next| && j != i ==> At(j) == old(At(j))
    {
      hide LinksOk;
      var oldKey, value := keys[i], values[i];
      var oldIndex := Bucket(oldKey, |index|);
      var indexValue := index[oldIndex];
      ChainNotEmpty(K(), lists, oldIndex, i);
      if indexValue != 0 && Gives(weak, space.Survives(oldKey), space.Survives(value)) {
        if removep {
          FreeHashEntry(oldIndex, i);
        }
      } else {
        var newKey := space.Scavenge(oldKey);
        var newValue := space.Scavenge(value);
        keys := keys[i := newKey];
        values := values[i := newValue];
        MaybeRecordForRehashing(oldIndex, i, indexValue);
      }
    }

    /** A settled entry in the chain of its key's bucket makes nothing survive any more. */
    lemma SettledEntry(space: Space, i: int)
      requires Partitioned() && 0 < i < |next| && weak != Strong && space.Valid()
      requires keys[i] in space.from || values[i] in space.from ==> index[Bucket(keys[i], |index|)] != 0
      requires Closed(weak, true, space.Survives(keys[i]), space.Survives(values[i]))
      ensures (index[Bucket(keys[i], |index|)] != 0 && Gives(weak, space.Survives(keys[i]), space.Survives(values[i])))
              || space.With(space.With(space.copied, keys[i]), values[i]) == space.copied
    {
    }

    /** scav_hash_entries; the objects of c0 are any that have been copied before. */
    method ScavHashEntries(space: Space, removep: bool, ghost c0: set<int>)
      requires Ready(space.from) && space.Valid() && c0 <= space.copied
      modifies this, space`copied
      ensures Ready(space.from) && space.Valid() && Shape(|old(index)|, |old(next)|, old(values[0]))
      ensures old(space.copied) <= space.copied
      ensures Done(space, old(Entries()), c0, space.copied, removep)
      ensures removep || weak == Strong ==> forall i :: 0 < i < |next| ==> CleanAt(i, space.from)
      ensures old(QuietIn(space.from, space.copied)) ==> space.copied == old(space.copied)
    {
      hide LinksOk, Outcome, Hashed, NoneLoose, EqHash, Closed, Gives, Kept, GivenUp;
      ghost var settled := QuietIn(space.from, space.copied);
      var i := 1;
      while i < |next|
        invariant settled ==> space.copied == old(space.copied)
        invariant 1 <= i <= |next| && Ready(space.from) && space.Valid()
        invariant Shape(|old(index)|, |old(next)|, old(values[0]))
        invariant old(space.copied) <= space.copied
        invariant forall j :: 0 < j < i ==> DoneAt(j, space, old(At(j)), c0, space.copied, removep)
        invariant forall j :: 0 < j < i && (removep || weak == Strong) ==> CleanAt(j, space.from)
        invariant forall j :: i <= j < |next| ==> At(j) == old(At(j))
      {
        label Before:
        assert HashedAt(i);
        if settled {
          assert At(i) == old(At(i)) && old(InChainAt(i, space.from)) && old(ClosedAt(i, space.from, space.copied));
          ChainNotEmpty(K(), lists, Bucket(keys[i], |index|), i);
          ChainNotEmpty(old(K()), old(lists), Bucket(keys[i], |index|), i);
          SettledEntry(space, i);
        }
        ScavHashEntry(i, space, removep);
        ghost var e0, c := old(At(i)), old@Before(space.copied);
        ExactOutcome(space, weak, e0, At(i), removep, c, space.copied, |index|, values[0]);
        OutcomeOk(space, weak, e0, At(i), removep, c, space.copied, |index|, values[0]);
        OutcomeWider(space, weak, e0, At(i), removep, c, space.copied, c0, space.copied, |index|, values[0]);
        forall j | 0 < j < |next| ensures HashedAt(j) {
          if j != i {
            assert old@Before(HashedAt(j));
            assert At(j) == old@Before(At(j));
          }
        }
        forall j | 0 < j < i ensures DoneAt(j, space, old(At(j)), c0, space.copied, removep)
          ensures removep || weak == Strong ==> CleanAt(j, space.from) {
          assert At(j) == old@Before(At(j));
          var f0 := old(At(j));
          assert old@Before(DoneAt(j, space, f0, c0, c, removep));
          OutcomeWider(space, weak, f0, At(j), removep, c0, c, c0, space.copied, |index|, values[0]);
          assert removep || weak == Strong ==> old@Before(CleanAt(j, space.from));
        }
        i := i + 1;
      }
    }

    /** In entry i, which was e0, words have at most been replaced by their new addresses. */
    ghost predicate WeakAt(i: int, space: Space, e0: Entry)
      requires Partitioned() && 0 <= i < |next|
      reads this
    {
      && keys[i] in {e0.key, space.Now(e0.key)} && values[i] in {e0.value, space.Now(e0.value)}
      && Kept(e0, At(i), keys[i], values[i], |index|, values[0])
    }

    /** The key of entry i is scavenged because its value survives. */
    method ScavWeakKey(i: int, space: Space)
      requires Valid() && values[0] !in space.from && space.Valid() && 0 < i < |next| && keys[i] in space.from
      modifies this, space`copied
      ensures Valid() && Shape(|old(index)|, |old(next)|, old(values[0])) && space.Valid()
      ensures keys[i] == space.Now(old(keys[i])) && values == old(values)
      ensures Kept(old(At(i)), At(i), keys[i], values[i], |index|, values[0])
      ensures forall j :: 0 <= j < |next| && j != i ==> At(j) == old(At(j))
      ensures Emptier(old(index), index) && space.copied == space.With(old(space.copied), old(keys[i]))
    {
      hide LinksOk, EqHash;
      var oldIndex := Bucket(keys[i], |index|);
      var now := space.Scavenge(keys[i]);
      keys := keys[i := now];
      MaybeRecordForRehashing(oldIndex, i, index[oldIndex]);
    }

    /** The body of the loop of scav_weak_entries. The bound is any set of objects that already has what survives and
        what has to. */
    method ScavWeakEntry(i: int, space: Space, ghost bound: set<int>) returns (scavenged: bool)
      requires Ready(space.from) && space.Valid() && 0 < i < |next|
      requires space.copied <= bound && space.Whole(bound) && ClosedAt(i, space.from, bound)
      modifies this, space`copied
      ensures Valid() && Shape(|old(index)|, |old(next)|, old(values[0])) && space.Valid()
      ensures keys[i] in {old(keys[i]), space.Now(old(keys[i]))}
      ensures values[i] in {old(values[i]), space.Now(old(values[i]))}
      ensures Kept(old(At(i)), At(i), keys[i], values[i], |index|, values[0])
      ensures forall j :: 0 <= j < |next| && j != i ==> At(j) == old(At(j))
      ensures Emptier(old(index), index)
      ensures var c := old(space.copied);
              var c1 := if old(DragsValue(weak, index[Bucket(keys[i], |index|)] != 0, space.Survives(keys[i])))
                        then space.With(c, old(values[i])) else c;
              space.copied ==
                if old(DragsKey(weak, space.Survives(values[i]))) then space.With(c1, old(keys[i])) else c1
      ensures scavenged ==> old(space.copied) < space.copied
      ensures !scavenged ==> keys == old(keys) && values == old(values) && index == old(index)
      ensures !scavenged ==> space.copied == old(space.copied)
      ensures space.copied <= bound && ClosedAt(i, space.from, bound)
    {
      hide LinksOk, EqHash, NoneLoose, HashedAt;
      var oldKey, value := keys[i], values[i];
      var oldIndex := Bucket(oldKey, |index|);
      var keySurvives := space.Survives(oldKey) && index[oldIndex] != 0;
      var valueSurvives := space.Survives(value);
      scavenged := false;
      if weak == Key && keySurvives && !space.Survives(value) {
        var now := space.Scavenge(value);
        values := values[i := now];
        scavenged := true;
      } else if weak == Value && valueSurvives && !space.Survives(oldKey) {
        ScavWeakKey(i, space);
        scavenged := true;
      } else if weak == KeyAndValue && keySurvives && valueSurvives {
      } else if weak == KeyOrValue && (keySurvives || valueSurvives) {
        if keySurvives && !space.Survives(value) {
          var now := space.Scavenge(value);
          values := values[i := now];
          scavenged := true;
        }
        if valueSurvives && !space.Survives(oldKey) {
          ScavWeakKey(i, space);
          scavenged := true;
        }
      }
    }

    /** scav_weak_entries */
    method ScavWeakEntries(space: Space, ghost bound: set<int>) returns (scavenged: bool)
      requires Ready(space.from) && space.Valid() && space.copied <= bound && space.Whole(bound)
      requires AllClosed(space.from, bound)
      modifies this, space`copied
      ensures Ready(space.from) && space.Valid() && Shape(|old(index)|, |old(next)|, old(values[0]))
      ensures old(space.copied) <= space.copied <= bound && AllClosed(space.from, bound)
      ensures forall i :: 0 < i < |next| ==> WeakAt(i, space, old(At(i)))
      ensures scavenged ==> old(space.copied) < space.copied
      ensures !scavenged ==> space.copied == old(space.copied) && AllClosed(space.from, space.copied)
    {
      hide LinksOk, Hashed, Kept, EqHash, NoneLoose, DragsKey, DragsValue, Emptier;
      scavenged := false;
      var i := 1;
      while i < |next|
        invariant 1 <= i <= |next| && Ready(space.from) && space.Valid()
        invariant Shape(|old(index)|, |old(next)|, old(values[0]))
        invariant old(space.copied) <= space.copied <= bound && AllClosed(space.from, bound)
        invariant forall j :: 0 < j < i ==> WeakAt(j, space, old(At(j)))
        invariant forall j :: i <= j < |next| ==> At(j) == old(At(j))
        invariant scavenged ==> old(space.copied) < space.copied
        invariant !scavenged ==> space.copied == old(space.copied)
        invariant !scavenged ==> forall j :: 0 < j < i ==> ClosedAt(j, space.from, space.copied)
      {
        label Before:
        assert HashedAt(i) && ClosedAt(i, space.from, bound);
        var more := ScavWeakEntry(i, space, bound);
        WeakHashed(space, old@Before(At(i)), At(i), |index|, values[0]);
        forall j | 0 < j < |next| ensures HashedAt(j) && ClosedAt(j, space.from, bound) {
          if j != i {
            assert old@Before(HashedAt(j)) && old@Before(ClosedAt(j, space.from, bound));
            assert At(j) == old@Before(At(j));
            StillClosed(weak, old@Before(index), index, keys[j], values[j], space.from, bound);
          }
        }
        forall j | 0 < j < i ensures WeakAt(j, space, old(At(j))) {
          var e0 := old(At(j));
          assert At(j) == old@Before(At(j)) && old@Before(WeakAt(j, space, e0));
        }
        if !more && !scavenged {
          DraggedClosed(space, weak, index[Bucket(keys[i], |index|)] != 0, keys[i], values[i], space.copied);
          forall j | 0 < j < i ensures ClosedAt(j, space.from, space.copied) {
            assert old@Before(ClosedAt(j, space.from, space.copied));
          }
        }
        scavenged := scavenged || more;
        i := i + 1;
      }
    }
  }

  predicate OutcomeIn(space: Space, weak: Weakness, e0: Entry, e1: Entry, removep: bool, c0: set<int>, c1: set<int>,
                      buckets: int, empty: int)
    requires 0 < buckets
  {
    Outcome(weak, e0, e1, removep, space.Now(e0.key), space.Now(e0.value), Lives(space.from, c0, e0.key),
            Lives(space.from, c0, e0.value), Lives(space.from, c1, e0.key), Lives(space.from, c1, e0.value), buckets,
                empty)
  }

  /** What the scan of an entry does exactly is such an outcome. */
  lemma ExactOutcome(space: Space, weak: Weakness, e0: Entry, e1: Entry, removep: bool, c0: set<int>, c1: set<int>,
                     buckets: int, empty: int)
    requires 0 < buckets
    requires || (Gives(weak, Lives(space.from, c0, e0.key), Lives(space.from, c0, e0.value)) &&
        GivenUp(e0, e1, removep, buckets, empty))
             || (Kept(e0, e1, space.Now(e0.key), space.Now(e0.value), buckets, empty)
                 && c1 == space.With(space.With(c0, e0.key), e0.value))
    ensures OutcomeIn(space, weak, e0, e1, removep, c0, c1, buckets, empty)
  {
  }

  /** The outcome keeps chained entries in their key's bucket, and, where dead ones are removed, leaves no chained one
      with a reference to the old space. */
  lemma OutcomeOk(space: Space, weak: Weakness, e0: Entry, e1: Entry, removep: bool, c0: set<int>, c1: set<int>,
                  buckets: int, empty: int)
    requires 0 < buckets && space.Valid() && empty !in space.from && Hashed(e0, buckets, empty)
    requires OutcomeIn(space, weak, e0, e1, removep, c0, c1, buckets, empty)
    ensures Hashed(e1, buckets, empty)
    ensures (removep || weak == Strong) && e1.place.Chain? ==> e1.key !in space.from && e1.value !in space.from
  {
  }

  lemma WeakHashed(space: Space, e0: Entry, e1: Entry, buckets: int, empty: int)
    requires 0 < buckets && space.Valid() && empty !in space.from && Hashed(e0, buckets, empty)
    requires e1.key in {e0.key, space.Now(e0.key)} && e1.value in {e0.value, space.Now(e0.value)}
    requires Kept(e0, e1, e1.key, e1.value, buckets, empty)
    ensures Hashed(e1, buckets, empty)
  {
  }

  lemma StillClosed(weak: Weakness, index0: seq<int>, index1: seq<int>, key: int, value: int, from: set<int>,
        bound: set<int>)
    requires Emptier(index0, index1) && 0 < |index0|
    requires Closed(weak, index0[Bucket(key, |index0|)] != 0, Lives(from, bound, key), Lives(from, bound, value))
    ensures Closed(weak, index1[Bucket(key, |index1|)] != 0, Lives(from, bound, key), Lives(from, bound, value))
  {
  }

  /** An entry is closed when all that it makes survive does. */
  lemma DraggedClosed(space: Space, weak: Weakness, chained: bool, key: int, value: int, copied: set<int>)
    requires DragsValue(weak, chained, Lives(space.from, copied, key)) ==> space.With(copied, value) == copied
    requires DragsKey(weak, Lives(space.from, copied, value)) ==> space.With(copied, key) == copied
    ensures Closed(weak, chained, Lives(space.from, copied, key), Lives(space.from, copied, value))
  {
    assert space.With(copied, value) == copied ==> Lives(space.from, copied, value);
    assert space.With(copied, key) == copied ==> Lives(space.from, copied, key);
  }

  /** What did not survive later did not survive earlier, and what survives earlier survives later. */
  lemma OutcomeWider(space: Space, weak: Weakness, e0: Entry, e1: Entry, removep: bool, c0: set<int>, c1: set<int>,
                     earlier: set<int>, later: set<int>, buckets: int, empty: int)
    requires 0 < buckets && OutcomeIn(space, weak, e0, e1, removep, c0, c1, buckets, empty) && earlier <= c0
    requires c1 <= later
    ensures OutcomeIn(space, weak, e0, e1, removep, earlier, later, buckets, empty)
  {
    hide Kept, GivenUp;
  }

  /** An entry in a chain shows that the chain is not empty. */
  lemma ChainNotEmpty(k: Links, l: Lists, b: int, e: int)
    requires LinksOk(k, l) && 0 <= b < |k.index| && 0 < e < |k.next|
    ensures |l.place| == |k.next| && (l.place[e] == Chain(b) ==> k.index[b] != 0)
  {
    ChainAt(k, l, b, e);
    assert l.at[Chain(b)] != [] ==> LinkOk(k.next, l.at[Chain(b)], 0);
  }

  lemma ChainAt(k: Links, l: Lists, b: int, e: int)
    requires LinksOk(k, l) && 0 <= b < |k.index| && 0 < e < |k.next|
    ensures Chain(b) in l.at && List(k.next, k.index[b], l.at[Chain(b)]) && |l.place| == |k.next|
    ensures Holds(l.place, Chain(b), l.at[Chain(b)], e)
  {
    assert ListOk(k, l, Chain(b));
  }

  /** With an entry in no list, the free list is not full: the counter of entries is positive. */
  lemma CountPositive(k: Links, l: Lists, e: int)
    requires LinksOk(k, l) && 0 < e < |k.next| && l.place[e] == Loose
    ensures Free in l.at && |l.at[Free]| < |k.next| - 1
  {
    assert ListOk(k, l, Free) && Holds(l.place, Free, l.at[Free], e);
    forall i | i in l.at[Free] ensures 0 < i < |k.next| {
      InRange(k, l, Free, i);
    }
    LeavesOut(l.at[Free], |k.next|, e);
  }

  // --- All weak tables

  ghost predicate Distinct(tables: seq<HashTable>) {
    forall i, j :: 0 <= i < j < |tables| ==> tables[i] != tables[j]
  }

  ghost predicate AllReady(tables: seq<HashTable>, from: set<int>)
    reads tables
  {
    forall k :: 0 <= k < |tables| ==> tables[k].Ready(from)
  }

  /** In no table does a side of an entry survive with the side that depends on it dead. */
  ghost predicate Settled(tables: seq<HashTable>, from: set<int>, copied: set<int>)
    requires AllReady(tables, from)
    reads tables
  {
    forall k :: 0 <= k < |tables| ==> tables[k].AllClosed(from, copied)
  }

  /** The weak tables are settled, and no entry that refers to the old space waits for rehashing. */
  ghost predicate Quiet(tables: seq<HashTable>, from: set<int>, copied: set<int>)
    requires AllReady(tables, from)
    reads tables
  {
    forall k :: 0 <= k < |tables| ==> tables[k].QuietIn(from, copied)
  }

  /** One round through the weak tables. */
  method ScavWeakRound(tables: seq<HashTable>, space: Space, ghost bound: set<int>) returns (more: bool)
    requires Distinct(tables) && space.Valid() && AllReady(tables, space.from)
    requires space.copied <= bound && space.Whole(bound) && Settled(tables, space.from, bound)
    modifies tables, space`copied
    ensures space.Valid() && AllReady(tables, space.from)
    ensures old(space.copied) <= space.copied <= bound && Settled(tables, space.from, bound)
    ensures more ==> old(space.copied) < space.copied
    ensures !more ==> space.copied == old(space.copied) && Settled(tables, space.from, space.copied)
  {
    hide LinksOk, HashTable.ClosedAt, HashTable.HashedAt, HashTable.WeakAt;
    more := false;
    var k := 0;
    while k < |tables|
      invariant 0 <= k <= |tables| && space.Valid() && AllReady(tables, space.from)
      invariant old(space.copied) <= space.copied <= bound && Settled(tables, space.from, bound)
      invariant more ==> old(space.copied) < space.copied
      invariant !more ==> space.copied == old(space.copied)
      invariant !more ==> forall j :: 0 <= j < k ==> tables[j].AllClosed(space.from, space.copied)
    {
      var scavenged := tables[k].ScavWeakEntries(space, bound);
      more := more || scavenged;
      k := k + 1;
    }
  }

  /** The first loop of scav_weak_tables: what survives at its end is the least that contains what survived before and
      leaves every table settled. */
  method SettleWeakTables(tables: seq<HashTable>, space: Space, ghost bound: set<int>)
    requires Distinct(tables) && space.Valid() && AllReady(tables, space.from)
    requires space.copied <= bound && space.Whole(bound) && Settled(tables, space.from, bound)
    modifies tables, space`copied
    ensures space.Valid() && AllReady(tables, space.from)
    ensures Settled(tables, space.from, space.copied)
    ensures old(space.copied) <= space.copied <= bound
  {
    var moreScavenged := true;
    while moreScavenged
      invariant space.Valid() && AllReady(tables, space.from)
      invariant old(space.copied) <= space.copied <= bound && Settled(tables, space.from, bound)
      invariant !moreScavenged ==> Settled(tables, space.from, space.copied)
      decreases space.from - space.copied, moreScavenged
    {
      moreScavenged := ScavWeakRound(tables, space, bound);
    }
  }

  /** The loops of scav_weak_tables and scan_weak_tables that scavenge what the tables do not give up, and, in the
      latter, remove what they do. */
  method ScavTables(tables: seq<HashTable>, space: Space, removep: bool)
    requires Distinct(tables) && space.Valid() && AllReady(tables, space.from)
    modifies tables, space`copied
    ensures space.Valid() && AllReady(tables, space.from) && old(space.copied) <= space.copied
    ensures forall k :: 0 <= k < |tables| ==>
              tables[k].Done(space, old(tables[k].Entries()), old(space.copied), space.copied, removep)
    ensures removep ==>
      forall k, i :: 0 <= k < |tables| && 0 < i < |tables[k].next| ==> tables[k].CleanAt(i, space.from)
    ensures old(Quiet(tables, space.from, space.copied)) ==> space.copied == old(space.copied)
  {
    hide LinksOk, HashTable.Done, HashTable.CleanAt, HashTable.HashedAt, HashTable.ClosedAt, HashTable.InChainAt;
    var k := 0;
    while k < |tables|
      invariant old(Quiet(tables, space.from, space.copied)) ==> space.copied == old(space.copied)
      invariant 0 <= k <= |tables| && space.Valid() && AllReady(tables, space.from) && old(space.copied) <= space.copied
      invariant forall j :: 0 <= j < k ==>
                  tables[j].Done(space, old(tables[j].Entries()), old(space.copied), space.copied, removep)
      invariant forall j :: k <= j < |tables| ==> unchanged(tables[j])
      invariant removep ==> forall j, i :: 0 <= j < k && 0 < i < |tables[j].next| ==> tables[j].CleanAt(i, space.from)
    {
      ghost var c := space.copied;
      assert old(Quiet(tables, space.from, space.copied)) ==> tables[k].QuietIn(space.from, old(space.copied));
      tables[k].ScavHashEntries(space, removep, old(space.copied));
      forall j | 0 <= j < k
        ensures tables[j].Done(space, old(tables[j].Entries()), old(space.copied), space.copied, removep) {
        tables[j].DoneLater(space, old(tables[j].Entries()), old(space.copied), c, space.copied, removep);
      }
      k := k + 1;
    }
  }

  /** scav_weak_tables */
  method ScavWeakTables(tables: seq<HashTable>, space: Space)
    requires Distinct(tables) && space.Valid() && AllReady(tables, space.from)
    modifies tables, space`copied
    ensures space.Valid() && AllReady(tables, space.from) && old(space.copied) <= space.copied
  {
    SettleWeakTables(tables, space, space.from);
    ScavTables(tables, space, false);
  }

  /** scan_weak_tables: afterwards no chained entry of any table refers to the old space, what a table holds weakly has
      decided which entries are left, and if the tables were settled nothing more has been copied. */
  method ScanWeakTables(tables: seq<HashTable>, space: Space)
    requires Distinct(tables) && space.Valid() && AllReady(tables, space.from)
    modifies tables, space`copied
    ensures space.Valid() && AllReady(tables, space.from)
    ensures forall k :: 0 <= k < |tables| ==>
              tables[k].Done(space, old(tables[k].Entries()), old(space.copied), space.copied, true)
    ensures forall k :: 0 <= k < |tables| ==>
              tables[k].Decided(space, old(tables[k].Entries()), old(space.copied), space.copied)
    ensures old(Quiet(tables, space.from, space.copied)) ==> space.copied == old(space.copied)
    ensures forall k, i :: 0 <= k < |tables| && 0 < i < |tables[k].next| ==> tables[k].CleanAt(i, space.from)
  {
    hide HashTable.Done, HashTable.Decided, HashTable.CleanAt, HashTable.QuietIn;
    ScavTables(tables, space, true);
    forall k | 0 <= k < |tables|
      ensures tables[k].Decided(space, old(tables[k].Entries()), old(space.copied), space.copied)
    {
      tables[k].DoneDecided(space, old(tables[k].Entries()), old(space.copied), space.copied);
    }
  }

  // --- A dead entry that is not freed

  lemma WaitingLinks()
    ensures LinksOk(Links([1], [0, 0, 0], 0, 2), Lists(map[Chain(0) := [1], Free := [], Rehash := [2]],
        [Free, Chain(0), Rehash]))
  {
    var k, l := Links([1], [0, 0, 0], 0, 2), Lists(map[Chain(0) := [1], Free := [], Rehash := [2]],
        [Free, Chain(0), Rehash]);
    forall p ensures IsPlace(p, 1) <==> p in l.at {
    }
    forall p | p in l.at ensures ListOk(k, l, p) {
      assert l.at[p] == [1] || l.at[p] == [] || l.at[p] == [2];
    }
  }

  /** A weak table with an entry in its only chain and one that waits for rehashing, whose key is dead: the scan that
      removes dead entries leaves it, with its reference to the old space. */
  method WaitingEntryStays() returns (table: HashTable, space: Space)
    ensures table.Valid() && table.weak == Key && |table.next| == 3 && table.At(2) == Entry(5, 8, Rehash)
    ensures 5 in space.from && 5 !in space.copied
  {
    WaitingLinks();
    table := new HashTable(Key, Links([1], [0, 0, 0], 0, 2), [0, 8, 5], [3, 8, 8], 2,
                           Lists(map[Chain(0) := [1], Free := [], Rehash := [2]], [Free, Chain(0), Rehash]));
    space := new Space({5}, w => 16, w => {});
    assert Bucket(8, 1) == 0 && Bucket(5, 1) == 0;
    table.ScavHashEntry(1, space, true);
    assert table.At(1) == Entry(8, 8, Chain(0)) && table.At(2) == Entry(5, 8, Rehash);
    ChainNotEmpty(table.K(), table.lists, 0, 1);
    table.ScavHashEntry(2, space, true);
  }
}
