/** The list of areas allocated while the new space is scavenged, add_new_area in src/lisp/gencgc.c. */
module NewAreas {
  import opened PageTable

  const NUM_NEW_AREAS := 512

  /** struct new_area: size words from an offset in a page. */
  datatype Area = Area(page: int, offset: int, size: int)
  {
    function Start(): int {
      PAGE * page + offset
    }

    function End(): int {
      Start() + size
    }

    predicate Holds(x: int) {
      Start() <= x < End()
    }
  }

  /** record_new_objects: nothing, areas that begin on pages up to a limit, or everything. */
  datatype Recording = Off | UpTo(page: int) | All

  predicate Covered(areas: seq<Area>, x: int) {
    exists k {:trigger areas[k]} :: 0 <= k < |areas| && areas[k].Holds(x)
  }

  /** An area is dropped if there is no room for more, or if it begins where no recording is needed. */
  predicate Dropped(areas: seq<Area>, recording: Recording, page: int) {
    |areas| >= NUM_NEW_AREAS || recording.Off? || (recording.UpTo? && page > recording.page)
  }

  /** What recording an area makes of the list: its words are covered in addition, unless it is dropped. */
  ghost predicate Records(areas: seq<Area>, areas2: seq<Area>, recording: Recording, area: Area) {
    if Dropped(areas, recording, area.page) then areas2 == areas
    else
      && areas2 != [] && |areas| <= |areas2| <= |areas| + 1
      && (forall x :: Covered(areas2, x) <==> Covered(areas, x) || area.Holds(x))
  }

  /** Recording an area makes its words covered, and no others, though it may only lengthen an earlier one. */
  method Add(areas: seq<Area>, recording: Recording, page: int, offset: int, size: int) returns (areas2: seq<Area>)
    requires size > 0 && forall k :: 0 <= k < |areas| ==> areas[k].size > 0
    ensures Records(areas, areas2, recording, Area(page, offset, size))
    ensures |areas2| <= NUM_NEW_AREAS || areas2 == areas
    ensures forall k :: 0 <= k < |areas2| ==> areas2[k].size > 0
  {
    if |areas| >= NUM_NEW_AREAS {
      return areas;
    }
    match recording {
      case Off => return areas;
      case UpTo(limit) =>
        if page > limit {
          return areas;
        }
      case All =>
    }
    var area := Area(page, offset, size);
    var i, c := |areas| - 1, 0;
    while i >= 0 && c < 8
      invariant -1 <= i < |areas|
    {
      if area.Start() == areas[i].End() {
        areas2 := areas[i := areas[i].(size := areas[i].size + size)];
        Lengthened(areas, i, area);
        return;
      }
      i, c := i - 1, c + 1;
    }
    areas2 := areas + [area];
    Appended(areas, area);
  }

  lemma Lengthened(areas: seq<Area>, i: int, area: Area)
    requires 0 <= i < |areas| && area.Start() == areas[i].End() && areas[i].size > 0 && area.size > 0
    ensures
      var areas2 := areas[i := areas[i].(size := areas[i].size + area.size)];
      forall x :: Covered(areas2, x) <==> Covered(areas, x) || area.Holds(x)
  {
    var areas2 := areas[i := areas[i].(size := areas[i].size + area.size)];
    forall x ensures Covered(areas2, x) <==> Covered(areas, x) || area.Holds(x) {
      if area.Holds(x) || areas[i].Holds(x) {
        assert areas2[i].Holds(x);
      }
      forall k | 0 <= k < |areas| && k != i ensures areas2[k] == areas[k] {
      }
      assert areas2[i].Holds(x) ==> areas[i].Holds(x) || area.Holds(x);
    }
  }

  lemma Appended(areas: seq<Area>, area: Area)
    ensures forall x :: Covered(areas + [area], x) <==> Covered(areas, x) || area.Holds(x)
  {
    forall x ensures Covered(areas + [area], x) <==> Covered(areas, x) || area.Holds(x) {
      if Covered(areas, x) {
        var k :| 0 <= k < |areas| && areas[k].Holds(x);
        assert (areas + [area])[k].Holds(x);
      }
      if area.Holds(x) {
        assert (areas + [area])[|areas|].Holds(x);
      }
    }
  }
}
