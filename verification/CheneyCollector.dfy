/** The stop-and-copy collector of src/lisp/gc.c, working in place on an array of words. */
module CheneyCollector {
  import opened CheneyHeap
  import opened CheneyGraph
  import opened CheneyFields

  class Collector {
    const mem: array<Word>
    const nil: Word
    const tee: Word
    const dynamic0: int
    const dynamic1: int
    const spaceSize: nat
    const roots: seq<Area>

    var currentSpace: int
    var currentFree: int

    var fromSpace: int
    var fromFree: int
    var newSpace: int
    var newFree: int
    var weakPointers: int

    /** The heap the collection started from, the objects that may survive it, and what has been copied. */
    ghost var heap: Heap
    ghost var live: set<int>
    ghost var trace: Trace

    ghost predicate Collecting()
      reads this, mem
    {
      && fromSpace == heap.lo && fromFree == heap.hi && newSpace == heap.base
      && newFree == heap.base + |trace.owner|
      && weakPointers == WeakHead(trace)
      && Copying(heap, trace, mem[..])
      && heap.SizesOk()
      && trace.fwd.Keys <= live
      && LiveClosed(heap, live)
    }

    /** Nothing that a collection fixes at its start has changed, and what was copied stays copied. */
    twostate predicate Progress()
      reads this
    {
      && heap == old(heap) && live == old(live) && Extends(old(trace), trace)
      && fromSpace == old(fromSpace) && fromFree == old(fromFree) && newSpace == old(newSpace)
    }

    /** Memory has changed only in from space, in copies made since, and at `where`. */
    twostate predicate OnlyCopies(where: int)
      reads this, mem
    {
      forall c {:trigger mem[c]} | 0 <= c < mem.Length && c != where && !(heap.lo <= c < heap.hi)
        && !(heap.base + |old(trace.owner)| <= c < heap.base + |trace.owner|) :: mem[c] == old(mem[c])
    }

    // ---------- Copying objects ----------

    /** A pointer to an object that is in the heap being collected and has not been copied yet. */
    ghost predicate Fresh(obj: Word)
      reads this, mem
    {
      Collecting() && obj.Pointer? && heap.lo <= obj.addr < heap.hi && Traceable(heap, live, obj) &&
          obj.addr !in trace.fwd
    }

    /** The object has been copied to the end of new space, but not forwarded. */
    twostate predicate Transported(obj: Word, copy: Word)
      requires old(Fresh(obj))
      reads this, mem
    {
      && heap == old(heap) && trace == old(trace) && obj.addr in heap.objects
      && copy == Pointer(obj.tag, old(newFree)) && newFree == old(newFree) + heap.objects[obj.addr]
      && weakPointers == (if IsWeak(heap.words[obj.addr]) then copy.addr else old(weakPointers))
      && TransportedInto(heap, trace, obj.addr, old(mem[..]), mem[..])
    }

    /** A fresh object is still as it was, and new space has room for it. */
    lemma RoomToCopy(obj: Word)
      requires Fresh(obj)
      ensures obj.addr in heap.objects && heap.objects[obj.addr] % 2 == 0
      ensures newFree + heap.objects[obj.addr] <= heap.base + heap.size && obj.addr + 1 < heap.hi
      ensures obj.addr + heap.objects[obj.addr] <= newFree || newFree + heap.objects[obj.addr] <= obj.addr
      ensures forall c {:trigger mem[c]} ::
        obj.addr <= c < obj.addr + heap.objects[obj.addr] ==> mem[c] == heap.words[c]
      ensures heap.objects[obj.addr] == Size(mem[obj.addr], mem[obj.addr + 1])
    {
      var a, now := obj.addr, mem[..];
      CopyTrace(heap, trace, a);
      CopiesFit(heap, Copy(heap, trace, a));
      assert a in heap.objects && heap.objects[a] == Size(heap.words[a], heap.words[a + 1]);
      forall c {:trigger mem[c]} | a <= c < a + heap.objects[a] ensures mem[c] == heap.words[c] {
        assert a in heap.objects && c in trace.fwd ==> c in heap.objects;
        assert now[c] == heap.words[c];
      }
    }

    method CopyWords(dst: int, src: int, nwords: nat)
      requires nwords % 2 == 0
      requires 0 <= src && src + nwords <= mem.Length && 0 <= dst && dst + nwords <= mem.Length
      requires src + nwords <= dst || dst + nwords <= src
      modifies mem
      ensures forall c {:trigger mem[c]} :: dst <= c < dst + nwords ==> mem[c] == old(mem[..])[src + (c - dst)]
      ensures forall c {:trigger mem[c]} :: 0 <= c < mem.Length && !(dst <= c < dst + nwords) ==> mem[c] == old(mem[c])
    {
      var dest, source, left := dst, src, nwords;
      while left > 0
        invariant 0 <= left <= nwords && left % 2 == 0
        invariant dest == dst + (nwords - left) && source == src + (nwords - left)
        invariant forall c {:trigger mem[c]} :: dst <= c < dest ==> mem[c] == old(mem[..])[src + (c - dst)]
        invariant forall c {:trigger mem[c]} :: 0 <= c < mem.Length && !(dst <= c < dest) ==> mem[c] == old(mem[c])
      {
        mem[dest] := mem[source];
        mem[dest + 1] := mem[source + 1];
        dest, source, left := dest + 2, source + 2, left - 2;
      }
    }

    method CopyObject(obj: Word, nwords: nat) returns (copy: Word)
      requires Fresh(obj) && nwords == heap.objects[obj.addr]
      modifies mem, this`newFree
      ensures copy == Pointer(obj.tag, old(newFree)) && newFree == old(newFree) + nwords <= heap.base + heap.size
      ensures forall c {:trigger mem[c]} ::
        old(newFree) <= c < newFree ==> mem[c] == heap.words[obj.addr + (c - old(newFree))]
      ensures forall c {:trigger mem[c]} ::
        0 <= c < mem.Length && !(old(newFree) <= c < newFree) ==> mem[c] == old(mem[c])
      ensures !IsWeak(heap.words[obj.addr]) ==> Transported(obj, copy)
    {
      hide WeakChainOk, CopiesOk, FromSpaceOk, TraceOk, LiveClosed;
      RoomToCopy(obj);
      var start := newFree;
      newFree := newFree + nwords;
      CopyWords(start, obj.addr, nwords);
      copy := Pointer(obj.tag, start);
    }

    method TransBoxed(obj: Word) returns (copy: Word)
      requires Fresh(obj) && mem[obj.addr].Header? && (mem[obj.addr].kind.Instance? || mem[obj.addr].kind.Boxed?)
      modifies mem, this`newFree
      ensures Transported(obj, copy)
    {
      RoomToCopy(obj);
      var header := mem[obj.addr];
      var length := Ceil2(header.count + 1);
      copy := CopyObject(obj, length);
    }

    method TransWeakPointer(obj: Word) returns (copy: Word)
      requires Fresh(obj) && IsWeak(mem[obj.addr])
      modifies mem, this`newFree, this`weakPointers
      ensures Transported(obj, copy)
    {
      RoomToCopy(obj);
      copy := CopyObject(obj, WEAK_POINTER_WORDS);
      mem[copy.addr + 3] := Link(weakPointers);
      weakPointers := copy.addr;
    }

    /** The transport functions of the objects with other-pointer lowtag, by header type. */
    method TransOther(obj: Word) returns (copy: Word)
      requires Fresh(obj) && mem[obj.addr].Header? && !mem[obj.addr].kind.Instance?
      modifies mem, this`newFree, this`weakPointers
      ensures Transported(obj, copy)
    {
      RoomToCopy(obj);
      var header := mem[obj.addr];
      match header.kind {
        case Boxed => copy := TransBoxed(obj);
        case Unboxed => copy := CopyObject(obj, Ceil2(header.count + 1));
        case SimpleVector => copy := CopyObject(obj, Ceil2(FixnumValue(mem[obj.addr + 1]) + 2));
        case SpecializedVector(e) => copy := CopyObject(obj, Ceil2(DataWords(e, FixnumValue(mem[obj.addr + 1])) + 2));
        case WeakPtr => copy := TransWeakPointer(obj);
      }
    }

    // ---------- Scavenging ----------

    /** Leaves the forwarding pointer to a transported object. */
    method Forward(obj: Word, copy: Word, ghost before: seq<Word>)
      requires heap.Valid() && obj.Pointer? && obj.addr in heap.objects && obj.addr in live && obj.addr !in trace.fwd
      requires obj.tag == TagOf(heap.words[obj.addr]) && copy == Pointer(obj.tag, heap.base + |trace.owner|)
      requires Copying(heap, trace, before) && heap.SizesOk() && trace.fwd.Keys <= live
      requires fromSpace == heap.lo && fromFree == heap.hi && newSpace == heap.base
      requires newFree == copy.addr + heap.objects[obj.addr]
      requires weakPointers == if IsWeak(heap.words[obj.addr]) then copy.addr else WeakHead(trace)
      requires LiveClosed(heap, live)
      requires TransportedInto(heap, trace, obj.addr, before, mem[..])
      modifies mem, this`trace
      ensures Collecting() && trace == Copy(heap, old(trace), obj.addr) && Extends(old(trace), trace)
      ensures mem[obj.addr] == copy
      ensures forall c {:trigger mem[c]} :: 0 <= c < mem.Length && c != obj.addr ==> mem[c] == old(mem[c])
    {
      ForwardStep(heap, trace, obj.addr, before, mem[..]);
      mem[obj.addr] := copy;
      assert mem[..] == old(mem[..])[obj.addr := copy];
      trace := Copy(heap, trace, obj.addr);
    }

    ghost predicate Slotted(where: int)
      reads this, mem
    {
      0 <= where < mem.Length && SlotAt(heap, trace, where)
    }

    method Update(where: int, w: Word)
      requires Collecting() && Slotted(where) && w == Scav(trace.fwd, mem[where])
      modifies mem
      ensures Collecting() && mem[where] == w
      ensures forall c {:trigger mem[c]} :: 0 <= c < mem.Length && c != where ==> mem[c] == old(mem[c])
    {
      WriteStep(heap, trace, mem[..], where, w);
      mem[where] := w;
      assert mem[..] == old(mem[..])[where := w];
    }

    /** What scavenging the word at `where` has achieved. */
    twostate predicate WordDone(where: int)
      requires 0 <= where < mem.Length
      reads this, mem
    {
      Collecting() && Progress() && OnlyCopies(where) && Scavenged(heap, trace, old(mem[where]), mem[where])
    }

    method ScavInstancePointer(where: int, obj: Word)
      requires Fresh(obj) && obj.tag == InstanceTag && Slotted(where) && mem[where] == obj
      modifies mem, this`newFree, this`trace
      ensures WordDone(where)
    {
      hide Heap.Valid, WeakChainOk, CopiesOk, FromSpaceOk, TraceOk, LiveClosed;
      ghost var before := mem[..];
      RoomToCopy(obj);
      var copy := TransBoxed(obj);
      Forward(obj, copy, before);
      Update(where, copy);
    }

    method ScavOtherPointer(where: int, obj: Word)
      requires Fresh(obj) && obj.tag == OtherTag && Slotted(where) && mem[where] == obj
      modifies mem, this`newFree, this`trace, this`weakPointers
      ensures WordDone(where)
    {
      hide Heap.Valid, WeakChainOk, CopiesOk, FromSpaceOk, TraceOk, LiveClosed;
      ghost var before := mem[..];
      RoomToCopy(obj);
      var copy := TransOther(obj);
      Forward(obj, copy, before);
      Update(where, copy);
    }

    /** A first word in from space is a pointer into new space exactly when the object has been copied. */
    lemma ForwardedIff(a: int)
      requires Collecting() && a in heap.objects
      ensures 0 <= a < mem.Length && |trace.owner| <= heap.size
      ensures mem[a].Pointer? && newSpace <= mem[a].addr < newFree <==> a in trace.fwd
      ensures a in trace.fwd ==> mem[a] == Pointer(TagOf(heap.words[a]), trace.fwd[a])
    {
      var now := mem[..];
      assert now[a] == if a in trace.fwd then Pointer(TagOf(heap.words[a]), trace.fwd[a]) else heap.words[a];
      assert heap.SlotOk(a, 0);
    }

    /** What the slots of a surviving object refer to survives. */
    lemma SlotTraceable(a: int, i: nat)
      requires Collecting() && a in trace.fwd && a in heap.objects && i < heap.objects[a] && !IsRaw(heap.words[a])
      ensures Traceable(heap, live, heap.Slot(a, i))
    {
      assert heap.SlotOk(a, i);
      assert heap.ClosedAt(a, live);
    }

    /** The cell has been copied, and its copy's second word has yet to be scavenged. */
    ghost predicate ConsCopied(cons: int, newCons: int)
      requires Collecting()
      reads this, mem
    {
      && cons in trace.fwd && cons in heap.objects && newCons == trace.fwd[cons]
      && heap.objects[cons] == 2 && !heap.words[cons].Header?
      && 0 <= newCons && newCons + 1 < mem.Length && mem[newCons + 1] == heap.words[cons + 1]
    }

    method CopyCons(obj: Word) returns (copy: Word)
      requires Fresh(obj) && obj.tag == ListTag
      modifies mem, this`newFree, this`trace
      ensures Collecting() && Progress() && OnlyCopies(-1)
      ensures copy == Pointer(ListTag, old(newFree)) && ConsCopied(obj.addr, copy.addr)
      ensures |trace.owner| > |old(trace).owner|
    {
      ghost var before := mem[..];
      RoomToCopy(obj);
      copy := CopyObject(obj, 2);
      Forward(obj, copy, before);
    }

    /** One step along the cdrs of a list: unless the next cell needs no copying, copies it and makes the
        copy of this one refer to that copy. */
    method TransCdr(cons: int, newCons: int) returns (more: bool, nextCons: int, newNext: int)
      requires Collecting() && ConsCopied(cons, newCons)
      modifies mem, this`newFree, this`trace
      ensures Collecting() && Progress() && OnlyCopies(newCons + 1)
      ensures more ==> ConsCopied(nextCons, newNext) && newNext == heap.base + |old(trace).owner|
      ensures more ==> |trace.owner| > |old(trace).owner|
      ensures !more ==> trace == old(trace)
      ensures newCons + 1 < old(newFree)
    {
      hide Copying, LiveClosed;
      more, nextCons, newNext := false, cons, newCons;
      RestOfCons(cons);
      SlotTraceable(cons, 1);
      SecondOfCons(cons, newCons);
      var cdr := mem[cons + 1];
      if cdr.Pointer? && cdr.tag == ListTag && fromSpace <= cdr.addr < fromFree {
        ForwardedIff(cdr.addr);
        var first := mem[cdr.addr];
        if !(first.Pointer? && newSpace <= first.addr < newFree) {
          var newCdr := CopyCons(cdr);
          assert mem[newCons + 1] == cdr;
          SecondOfCons(cons, newCons);
          Update(newCons + 1, newCdr);
          more, nextCons, newNext := true, cdr.addr, newCdr.addr;
        }
      }
    }

    method TransList(obj: Word) returns (list: Word)
      requires Fresh(obj) && obj.tag == ListTag
      modifies mem, this`newFree, this`trace
      ensures Collecting() && Progress() && OnlyCopies(-1)
      ensures obj.addr in trace.fwd && list == Pointer(ListTag, trace.fwd[obj.addr])
    {
      hide Copying, LiveClosed;
      list := CopyCons(obj);
      var more, cons, newCons := true, obj.addr, list.addr;
      while more
        invariant Collecting() && Progress() && OnlyCopies(-1)
        invariant obj.addr in trace.fwd && list == Pointer(ListTag, trace.fwd[obj.addr])
        invariant more ==> ConsCopied(cons, newCons) && heap.base + |old(trace).owner| <= newCons
        decreases heap.size - |trace.owner|, more
      {
        more, cons, newCons := TransCdr(cons, newCons);
        ForwardedIff(obj.addr);
      }
    }

    lemma SecondOfCons(cons: int, newCons: int)
      requires Collecting() && ConsCopied(cons, newCons)
      ensures Slotted(newCons + 1) && newCons + 1 < newFree
    {
      assert trace.owner[newCons + 1 - heap.base] == cons;
      assert OwnerOk(heap, trace, newCons + 1 - heap.base);
    }

    lemma RestOfCons(a: int)
      requires Collecting() && a in heap.objects && heap.objects[a] == 2
      ensures 0 <= a && a + 1 < mem.Length == |heap.words| && mem[a + 1] == heap.words[a + 1] == heap.Slot(a, 1)
    {
      var now := mem[..];
      assert a + 1 in trace.fwd ==> a + 1 in heap.objects;
      assert now[a + 1] == heap.words[a + 1];
    }

    method ScavListPointer(where: int, obj: Word)
      requires Fresh(obj) && obj.tag == ListTag && Slotted(where) && mem[where] == obj
      modifies mem, this`newFree, this`trace
      ensures WordDone(where)
    {
      var first := TransList(obj);
      ForwardedIff(obj.addr);
      mem[obj.addr] := first;
      Update(where, first);
    }

    // ---------- Scavenging ----------

    /** The scavenging functions of header words: how many words to step over. */
    method ScavHeader(where: int) returns (words: nat)
      requires Collecting() && 0 <= where < mem.Length && mem[where].Header? && (IsRaw(mem[where]) || Slotted(where))
      modifies mem
      ensures WordDone(where) && words == Skip(old(mem[..]), where)
    {
      var header := mem[where];
      match header.kind {
        case Unboxed => words := Ceil2(header.count + 1);
        case SpecializedVector(e) =>
          words := Ceil2(DataWords(e, FixnumValue(if where + 1 < mem.Length then mem[where + 1] else NULL)) + 2);
        case WeakPtr => words := WEAK_POINTER_WORDS;
        case SimpleVector =>
          if header.count == VALID_HASHING {
            Update(where, Header(SimpleVector, MUST_REHASH));
          }
          words := 1;
        case _ => words := 1;
      }
    }

    method ScavengeWord(start: int) returns (words: nat)
      requires Collecting() && 0 <= start < mem.Length && Traceable(heap, live, mem[start])
      requires IsRaw(mem[start]) || Slotted(start)
      modifies mem, this`newFree, this`trace, this`weakPointers
      ensures WordDone(start) && words == Skip(old(mem[..]), start)
    {
      hide Copying, LiveClosed;
      var obj := mem[start];
      if obj.Pointer? {
        words := 1;
        if fromSpace <= obj.addr < fromFree {
          ForwardedIff(obj.addr);
          var first := mem[obj.addr];
          if first.Pointer? && newSpace <= first.addr < newFree {
            Update(start, first);
          } else {
            match obj.tag {
              case ListTag => ScavListPointer(start, obj);
              case InstanceTag => ScavInstancePointer(start, obj);
              case OtherTag => ScavOtherPointer(start, obj);
            }
          }
        } else {
          NotForwarded(obj.addr);
        }
      } else if obj.Immediate? || obj.Link? {
        words := 1;
      } else {
        words := ScavHeader(start);
      }
    }

    lemma NotForwarded(a: int)
      requires Collecting() && !(heap.lo <= a < heap.hi)
      ensures a !in trace.fwd
    {
      assert a in trace.fwd ==> a in heap.objects;
    }

    lemma TraceStaysOk()
      requires Collecting()
      ensures heap.Valid() && heap.SpacesOk() && TraceOk(heap, trace) && mem.Length == |heap.words|
      ensures heap.base + |trace.owner| <= heap.base + heap.size <= mem.Length
    {
    }

    /** Memory has changed only in from space, in copies made since, and at `stops`. */
    twostate predicate OnlyAt(stops: set<int>)
      reads this, mem
    {
      forall c {:trigger mem[c]} | 0 <= c < mem.Length && c !in stops && !(heap.lo <= c < heap.hi)
        && !(heap.base + |old(trace.owner)| <= c < heap.base + |trace.owner|) :: mem[c] == old(mem[c])
    }

    method Scavenge(start: nat, nwords: nat)
      requires Collecting() && AreaOk(heap, trace, live, mem[..], start, start + nwords)
      modifies mem, this`newFree, this`trace, this`weakPointers
      ensures Collecting() && Progress()
      ensures AllScavenged(heap, trace, old(mem[..]), mem[..], Visits(old(mem[..]), start, start + nwords))
      ensures OnlyAt(Visits(old(mem[..]), start, start + nwords))
    {
      hide Copying, LiveClosed, Heap.Valid, TraceOk, Scavenged, Traceable, SlotAt, Skip, Stream, Visits;
      ghost var m0, e := mem[..], start + nwords;
      ghost var stops: set<int> := {};
      var here, left := start, nwords as int;
      StreamEnd(m0, e);
      while left > 0
        invariant here + left == e && 0 <= left
        invariant Collecting() && Progress() && OnlyAt(stops)
        invariant Stream(m0, here, e) && Visits(m0, start, e) == stops + Visits(m0, here, e)
        invariant forall p :: p in stops ==> start <= p < here
        invariant AllScavenged(heap, trace, m0, mem[..], stops)
        decreases left
      {
        ghost var t, m := trace, mem[..];
        TraceStaysOk();
        StreamStep(m0, here, e);
        forall c {:trigger m[c]} | here <= c < e ensures m[c] == m0[c] {
          assert mem[c] == old(mem[c]);
        }
        NextStop(heap, old(trace), trace, live, m0, m, start, here, e);
        var words := ScavengeWord(here);
        TraceStaysOk();
        AllScavengedGrows(heap, t, trace, m0, m, mem[..], stops);
        stops := stops + {here};
        here, left := here + words, left - words;
      }
    }

    /** Memory has changed only in from space and in new space. */
    twostate predicate OnlySpaces()
      reads this, mem
    {
      forall c {:trigger mem[c]} | 0 <= c < mem.Length && !(heap.lo <= c < heap.hi)
        && !(heap.base <= c < heap.base + |trace.owner|) :: mem[c] == old(mem[c])
    }

    /** Scavenges what was copied since the last pass; what is copied meanwhile is left for the next. */
    method ScavengePass(here: nat) returns (next: nat)
      requires Collecting() && heap.base <= here < newFree
      requires Boundary(heap, trace, here - heap.base) && AllDone(heap, trace, mem[..], here - heap.base)
      modifies mem, this`newFree, this`trace, this`weakPointers
      ensures Collecting() && Progress() && OnlySpaces()
      ensures next == old(newFree) && here < next <= newFree
      ensures Boundary(heap, trace, next - heap.base) && AllDone(heap, trace, mem[..], next - heap.base)
    {
      hide Copying, LiveClosed, Heap.Valid, TraceOk, Stream, Visits, AllDone, AreaOk, AllScavenged, Boundary;
      TraceStaysOk();
      next := newFree;
      ghost var t, m, k, n := trace, mem[..], here - heap.base, |trace.owner|;
      EndBoundary(heap, trace, trace);
      CopyArea(heap, trace, live, m, k, n);
      Scavenge(here, next - here);
      TraceStaysOk();
      forall c {:trigger m[c]} | heap.base <= c < heap.base + k ensures mem[..][c] == m[c] {
        assert mem[c] == m[c];
      }
      PassDone(heap, t, trace, m, mem[..], k, n);
      EndBoundary(heap, t, trace);
    }

    /** Scavenges new space until nothing in it is left to scavenge. */
    method ScavengeNewspace()
      requires Collecting()
      modifies mem, this`newFree, this`trace, this`weakPointers
      ensures Collecting() && Progress() && OnlySpaces()
      ensures AllDone(heap, trace, mem[..], |trace.owner|)
    {
      hide Copying, LiveClosed, Heap.Valid, TraceOk, Boundary;
      TraceStaysOk();
      var here := newSpace;
      EndBoundary(heap, EMPTY_TRACE, trace);
      while here < newFree
        invariant Collecting() && Progress() && OnlySpaces()
        invariant heap.Valid() && TraceOk(heap, trace)
        invariant heap.base + |trace.owner| <= heap.base + heap.size <= mem.Length
        invariant heap.base <= here <= newFree && Boundary(heap, trace, here - heap.base)
        invariant AllDone(heap, trace, mem[..], here - heap.base)
        decreases heap.base + heap.size - here
      {
        here := ScavengePass(here);
        TraceStaysOk();
      }
    }

    // ---------- Weak pointers ----------

    /** Gives the next weak pointer the copy of its value, or nil and a broken flag if it has none. */
    method FixWeakPointer(wp: int, ghost m0: seq<Word>, ghost j: nat)
      requires fromSpace == heap.lo && fromFree == heap.hi && newSpace == heap.base
      requires newFree == heap.base + |trace.owner|
      requires Copying(heap, trace, m0) && WeaksFixed(heap, trace, nil, tee, m0, mem[..], j)
      requires j < |trace.weaks| && wp == trace.weaks[j]
      modifies mem
      ensures WeaksFixed(heap, trace, nil, tee, m0, mem[..], j + 1)
      ensures 0 <= wp && wp + 3 < mem.Length
      ensures mem[wp + 3] == Link(if j + 1 < |trace.weaks| then trace.weaks[j + 1] else 0)
    {
      hide Copying, WeaksFixed;
      ghost var m := mem[..];
      CopyingBounds(heap, trace, m0);
      WeakNext(heap, trace, nil, tee, m0, m, j);
      var value := mem[wp + 1];
      if value.Pointer? && fromSpace <= value.addr < fromFree {
        WeakTarget(heap, trace, nil, tee, m0, m, j, value.addr);
        var first := mem[value.addr];
        if first.Pointer? && newSpace <= first.addr < newFree {
          mem[wp + 1] := first;
        } else {
          mem[wp + 1] := nil;
          mem[wp + 2] := tee;
        }
      }
      WeakStep(heap, trace, nil, tee, m0, m, mem[..], j);
    }

    method ScanWeakPointers()
      requires Collecting() && AllDone(heap, trace, mem[..], |trace.owner|)
      modifies mem
      ensures Mirrored(heap, trace, nil, tee, mem[..]) && OnlySpaces()
    {
      hide Copying, AllDone, CopyMirrors, LiveClosed;
      ghost var m0 := mem[..];
      TraceStaysOk();
      var wp := weakPointers;
      ghost var j := 0;
      while wp != 0
        invariant 0 <= j <= |trace.weaks| && wp == (if j < |trace.weaks| then trace.weaks[j] else 0)
        invariant WeaksFixed(heap, trace, nil, tee, m0, mem[..], j)
        decreases |trace.weaks| - j
      {
        FixWeakPointer(wp, m0, j);
        wp := mem[wp + 3].target;
        j := j + 1;
      }
      if j < |trace.weaks| {
        WeakPlace(heap, trace, m0, j, 0);
      }
      forall c {:trigger mem[c]} | 0 <= c < mem.Length && !(heap.base <= c < heap.base + |trace.owner|)
        ensures mem[c] == old(mem[c])
      {
        WeakSlotsInside(heap, trace, m0, c);
        assert mem[..][c] == m0[c];
      }
      forall k | 0 <= k < |trace.owner|
        ensures OwnerOk(heap, trace, k) && CopyMirrors(heap, trace, nil, tee, mem[..], k)
      {
        WeakScanMirrors(heap, trace, nil, tee, m0, mem[..], k);
      }
    }

    // ---------- A whole collection ----------

    method ScavengeRoots()
      requires Collecting() && RootsUpTo(heap, trace, mem[..], roots, 0)
      requires forall j :: 0 <= j < |roots| ==> RootsIn(heap, roots[j], live)
      modifies mem, this`newFree, this`trace, this`weakPointers
      ensures Collecting() && Progress() && RootsUpTo(heap, trace, mem[..], roots, |roots|)
    {
      hide Copying, LiveClosed, TraceOk, Heap.Valid, RootsIn, AreaOk, Stream, Visits, AllScavenged, RootMoved;
      TraceStaysOk();
      for j := 0 to |roots|
        invariant Collecting() && Progress() && RootsUpTo(heap, trace, mem[..], roots, j)
      {
        ghost var t, m := trace, mem[..];
        TraceStaysOk();
        RootPending(heap, t, m, roots, j);
        assert RootOk(heap, roots[j]) && RootsIn(heap, roots[j], live);
        RootArea(heap, t, live, m, roots[j]);
        AreaBounds(heap, t, live, m, roots[j].first, roots[j].last);
        Scavenge(roots[j].first, roots[j].last - roots[j].first);
        RootsStep(heap, t, trace, m, mem[..], roots, j);
      }
    }

    method Zero(start: int, nwords: nat)
      requires 0 <= start && start + nwords <= mem.Length
      modifies mem
      ensures forall c {:trigger mem[c]} :: start <= c < start + nwords ==> mem[c] == Immediate(0)
      ensures forall c {:trigger mem[c]} ::
        0 <= c < mem.Length && !(start <= c < start + nwords) ==> mem[c] == old(mem[c])
    {
      for i := 0 to nwords
        invariant forall c {:trigger mem[c]} :: start <= c < start + i ==> mem[c] == Immediate(0)
        invariant forall c {:trigger mem[c]} ::
          0 <= c < mem.Length && !(start <= c < start + i) ==> mem[c] == old(mem[c])
      {
        mem[start + i] := Immediate(0);
      }
    }

    /** Between collections: the heap and the roots are in order. */
    ghost predicate Valid()
      reads this, mem
    {
      && heap.words == mem[..]
      && heap.lo == currentSpace && heap.hi == currentFree && heap.size == spaceSize
      && ((currentSpace == dynamic0 && heap.base == dynamic1) || (currentSpace == dynamic1 && heap.base == dynamic0))
      && heap.Valid() && heap.SizesOk() && RootsOk(heap, roots)
      && Static(heap, nil) && Static(heap, tee)
    }

    /** Scavenges the roots and new space and fixes the weak pointers. */
    method TraceAll()
      requires Collecting() && trace == EMPTY_TRACE && heap.words == mem[..] && RootsOk(heap, roots)
      requires live == Reachable(heap, roots)
      modifies mem, this`newFree, this`trace, this`weakPointers
      ensures heap == old(heap) && Traced(heap, trace, nil, tee, mem[..], roots)
      ensures newFree == heap.base + |trace.owner|
    {
      hide Copying, LiveClosed, TraceOk, Heap.Valid, RootsOk, RootsUpTo, AllDone, Mirrored, Extends;
      TraceStaysOk();
      ReachableClosed(heap, roots);
      RootsUpToNone(heap, trace, mem[..], roots);
      ScavengeRoots();
      ghost var t1, m1 := trace, mem[..];
      ScavengeNewspace();
      TraceStaysOk();
      ghost var m2 := mem[..];
      RootsStay(heap, t1, trace, m1, m2, roots);
      ScanWeakPointers();
      ExtendsSelf(trace);
      RootsStay(heap, trace, trace, m2, mem[..], roots);
    }

    /** Sets up from space and new space. */
    method Begin()
      requires Valid()
      modifies this
      ensures Collecting() && trace == EMPTY_TRACE && heap.Valid() && RootsOk(heap, roots)
      ensures live == Reachable(heap, roots)
      ensures heap == old(heap) && currentSpace == old(currentSpace) && currentFree == old(currentFree)
      ensures newSpace == (if currentSpace == dynamic0 then dynamic1 else dynamic0)
    {
      hide Heap.Valid, RootsOk, Copying;
      fromSpace, fromFree := currentSpace, currentFree;
      newSpace := if currentSpace == dynamic0 then dynamic1 else dynamic0;
      newFree, weakPointers := newSpace, 0;
      live, trace := Reachable(heap, roots), EMPTY_TRACE;
      ReachableClosed(heap, roots);
      NothingCopied(heap);
    }

    /** Zeroes the old space and makes new space the current one. */
    method FlipSpaces()
      requires heap.lo == currentSpace && heap.size == spaceSize && newFree == heap.base + |trace.owner|
      requires (currentSpace == dynamic0 && heap.base == dynamic1) ||
          (currentSpace == dynamic1 && heap.base == dynamic0)
      requires newSpace == heap.base && Traced(heap, trace, nil, tee, mem[..], roots) && Static(heap, nil)
      requires Static(heap, tee)
      modifies this, mem
      ensures Valid() && trace == old(trace) && Collected(old(heap), heap, trace, nil, tee, roots)
      ensures currentFree - currentSpace <= old(heap.hi - heap.lo)
      ensures forall c {:trigger mem[c]} | 0 <= c < mem.Length && !InRoots(roots, |roots|, c)
                && !(heap.lo <= c < heap.lo + spaceSize)
                && !(heap.base <= c < heap.base + spaceSize) :: mem[c] == old(heap).words[c]
    {
      hide Heap.Valid, RootsOk, Mirrored, Traced, Copying, LiveClosed, Collected, NewHeap, Heap.SizesOk, Static;
      ghost var h, m := heap, mem[..];
      TracedBounds(h, trace, nil, tee, m, roots);
      Zero(currentSpace, spaceSize);
      Flip(h, trace, nil, tee, m, mem[..], roots);
      ghost var h2 := NewHeap(h, trace, mem[..]);
      CollectedOk(h, h2, trace, nil, tee, roots);
      NewHeapWords(h, trace, mem[..]);
      currentSpace, currentFree, heap := newSpace, newFree, h2;
    }

    method CollectGarbage()
      requires Valid()
      modifies this, mem
      ensures Valid()
      ensures Collected(old(heap), heap, trace, nil, tee, roots)
      ensures FieldsMoved(old(heap), mem[..], trace.fwd) && WeaksMoved(old(heap), mem[..], trace.fwd, nil, tee)
      ensures RootsFollowed(old(heap), mem[..], trace.fwd, roots) && OnlyReached(old(heap), roots, trace.fwd.Keys)
      ensures currentFree - currentSpace <= old(currentFree - currentSpace)
      ensures forall c {:trigger mem[c]} | 0 <= c < mem.Length && !InRoots(roots, |roots|, c)
                && !(heap.lo <= c < heap.lo + spaceSize)
                && !(heap.base <= c < heap.base + spaceSize) :: mem[c] == old(mem[c])
    {
      hide Heap.Valid, RootsOk, Copying, Traced, Heap.SizesOk, Static, Collected, LiveClosed;
      hide FieldsMoved, WeaksMoved, RootsFollowed, OnlyReached;
      ghost var h := heap;
      Begin();
      TraceAll();
      FlipSpaces();
      CollectedFields(h, heap, trace, nil, tee, roots);
      CollectedWeaks(h, heap, trace, nil, tee, roots);
      CollectedRoots(h, heap, trace, nil, tee, roots);
      CollectedReached(h, heap, trace, nil, tee, roots);
      ValidWords();
    }

    lemma ValidWords()
      requires Valid()
      ensures heap.words == mem[..]
    {
    }
  }
}
