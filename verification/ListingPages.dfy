/** The pages of a list: its order, the range each page draws, and where the ways on and back lead. */
module ListingPages {
  import opened Options
  import opened Cursor
  import opened Listing
  import opened ListingAddresses

  // ---- A list in its order ----

  /** Places of one count of numbers, each strictly before the ones after it. */
  predicate InOrder(marks: seq<Mark>, keys: nat, oldestFirst: bool) {
    && (forall i | 0 <= i < |marks| :: |marks[i].key| == keys)
    && (forall i, j | 0 <= i < j < |marks| :: Order(oldestFirst, marks[i], marks[j]) < 0.0)
  }

  /** Every row has a place of its own, which an address can carry. */
  ghost predicate Placed<Row(!new)>(list: List<Row>) {
    && Named(list)
    && (forall row | row in list.rows :: MarkText(list.markOf(row)).Some?)
    && Distinct(list.rows, list.markOf)
  }

  ghost predicate Distinct<Row(!new)>(rows: seq<Row>, markOf: Row -> Mark) {
    forall i, j | 0 <= i < j < |rows| :: markOf(rows[i]) != markOf(rows[j])
  }

  lemma {:induction false} FilterStaysDistinct<Row(!new)>(rows: seq<Row>, keep: Row -> bool, markOf: Row -> Mark)
    requires Distinct(rows, markOf)
    ensures Distinct(Filter(rows, keep), markOf)
  {
    if rows != [] {
      var rest := rows[1..];
      FilterStaysDistinct(rest, keep, markOf);
      forall j | 0 <= j < |Filter(rest, keep)| ensures markOf(Filter(rest, keep)[j]) != markOf(rows[0]) {
        FilterKeeps(rest, keep, Filter(rest, keep)[j]);
        var i :| 0 <= i < |rest| && rest[i] == Filter(rest, keep)[j];
        assert rows[i + 1] == rest[i];
      }
    }
  }

  lemma OrderIsTotal(oldestFirst: bool, a: Mark, b: Mark, c: Mark)
    requires |a.key| == |b.key| == |c.key|
    ensures Order(oldestFirst, a, b) == -Order(oldestFirst, b, a)
    ensures Order(oldestFirst, a, b) == 0.0 <==> a == b
    ensures Order(oldestFirst, a, b) < 0.0 && Order(oldestFirst, b, c) < 0.0 ==> Order(oldestFirst, a, c) < 0.0
  {
    PlacesAreOrdered(a, b, c);
    PlacesAreOrdered(b, a, c);
    PlacesAreOrdered(c, b, a);
    PlacesAreOrdered(a, c, b);
  }

  /** Oldest first, the lesser place comes first; newest first, the greater one. */
  lemma OrderIsByPlace(oldestFirst: bool, one: Mark, other: Mark)
    requires |one.key| == |other.key|
    ensures Order(oldestFirst, one, other) < 0.0 <==> if oldestFirst then ComesFirst(one, other) else ComesFirst(other, one)
  {
    RisesWhereItComesFirst(one, other);
    RisesWhereItComesFirst(other, one);
  }

  lemma OneMoreInOrder(marks: seq<Mark>, mark: Mark, keys: nat, oldestFirst: bool)
    requires InOrder(marks, keys, oldestFirst) && |mark.key| == keys
    requires forall i | 0 <= i < |marks| :: Order(oldestFirst, marks[i], mark) < 0.0
    ensures InOrder(marks + [mark], keys, oldestFirst)
  {
  }

  lemma AppendedInOrder<Row(!new)>(rows: seq<Row>, row: Row, markOf: Row -> Mark, keys: nat, oldestFirst: bool)
    requires InOrder(Marks(rows, markOf), keys, oldestFirst) && |markOf(row).key| == keys
    requires forall i | 0 <= i < |rows| :: Order(oldestFirst, markOf(rows[i]), markOf(row)) < 0.0
    ensures InOrder(Marks(rows + [row], markOf), keys, oldestFirst)
  {
    OneMoreInOrder(Marks(rows, markOf), markOf(row), keys, oldestFirst);
    assert Marks(rows + [row], markOf) == Marks(rows, markOf) + [markOf(row)];
  }

  lemma BehindTheLast<Row(!new)>(rows: seq<Row>, row: Row, markOf: Row -> Mark, keys: nat, oldestFirst: bool)
    requires InOrder(Marks(rows, markOf), keys, oldestFirst) && |markOf(row).key| == keys
    requires rows != [] && markOf(rows[|rows| - 1]) != markOf(row)
    requires Order(oldestFirst, markOf(row), markOf(rows[|rows| - 1])) >= 0.0
    ensures forall i | 0 <= i < |rows| :: Order(oldestFirst, markOf(rows[i]), markOf(row)) < 0.0
  {
    var marks, last := Marks(rows, markOf), |rows| - 1;
    OrderIsTotal(oldestFirst, marks[last], markOf(row), marks[last]);
    forall i | 0 <= i < last ensures Order(oldestFirst, marks[i], markOf(row)) < 0.0 {
      OrderIsTotal(oldestFirst, marks[i], marks[last], markOf(row));
    }
  }

  lemma InsertedBeforeTheLast<Row(!new)>(rows: seq<Row>, row: Row, markOf: Row -> Mark, keys: nat, oldestFirst: bool, shorter: seq<Row>)
    requires InOrder(Marks(rows, markOf), keys, oldestFirst)
    requires rows != [] && Order(oldestFirst, markOf(row), markOf(rows[|rows| - 1])) < 0.0
    requires shorter == Insert(rows[..|rows| - 1], row, markOf, oldestFirst)
    ensures forall i | 0 <= i < |shorter| :: Order(oldestFirst, markOf(shorter[i]), markOf(rows[|rows| - 1])) < 0.0
  {
    var marks, last := Marks(rows, markOf), |rows| - 1;
    forall i | 0 <= i < |shorter| ensures Order(oldestFirst, markOf(shorter[i]), markOf(rows[|rows| - 1])) < 0.0 {
      FromInsert(rows[..last], row, markOf, oldestFirst, i);
      if shorter[i] != row {
        var j :| 0 <= j < last && rows[j] == shorter[i];
        assert Order(oldestFirst, marks[j], marks[last]) < 0.0;
      }
    }
  }

  lemma {:induction false} InsertedInOrder<Row(!new)>(rows: seq<Row>, row: Row, markOf: Row -> Mark, keys: nat, oldestFirst: bool)
    requires InOrder(Marks(rows, markOf), keys, oldestFirst) && |markOf(row).key| == keys
    requires forall i | 0 <= i < |rows| :: markOf(rows[i]) != markOf(row)
    ensures InOrder(Marks(Insert(rows, row, markOf, oldestFirst), markOf), keys, oldestFirst)
  {
    if rows != [] && Order(oldestFirst, markOf(row), markOf(rows[|rows| - 1])) < 0.0 {
      var shorter := rows[..|rows| - 1];
      assert Marks(shorter, markOf) == Marks(rows, markOf)[..|rows| - 1];
      InsertedInOrder(shorter, row, markOf, keys, oldestFirst);
      var inserted := Insert(shorter, row, markOf, oldestFirst);
      InsertedBeforeTheLast(rows, row, markOf, keys, oldestFirst, inserted);
      assert Marks(rows, markOf)[|rows| - 1] == markOf(rows[|rows| - 1]);
      AppendedInOrder(inserted, rows[|rows| - 1], markOf, keys, oldestFirst);
    } else {
      if rows != [] { BehindTheLast(rows, row, markOf, keys, oldestFirst); }
      AppendedInOrder(rows, row, markOf, keys, oldestFirst);
    }
  }

  lemma FromInsert<Row(!new)>(rows: seq<Row>, row: Row, markOf: Row -> Mark, oldestFirst: bool, i: nat)
    requires i < |Insert(rows, row, markOf, oldestFirst)|
    ensures var one := Insert(rows, row, markOf, oldestFirst)[i];
            one == row || exists j | 0 <= j < |rows| :: rows[j] == one
  {
    InsertKeeps(rows, row, markOf, oldestFirst);
    var inserted := Insert(rows, row, markOf, oldestFirst);
    assert inserted[i] in multiset(inserted);
    assert inserted[i] == row || inserted[i] in rows;
  }

  lemma {:induction false} SortedInOrder<Row(!new)>(rows: seq<Row>, markOf: Row -> Mark, keys: nat, oldestFirst: bool)
    requires Distinct(rows, markOf) && forall row | row in rows :: |markOf(row).key| == keys
    ensures InOrder(Marks(Sorted(rows, markOf, oldestFirst), markOf), keys, oldestFirst)
  {
    if rows != [] {
      var last := |rows| - 1;
      var sorted := Sorted(rows[..last], markOf, oldestFirst);
      SortedInOrder(rows[..last], markOf, keys, oldestFirst);
      SortedKeeps(rows[..last], markOf, oldestFirst);
      forall i | 0 <= i < |sorted| ensures markOf(sorted[i]) != markOf(rows[last]) {
        assert sorted[i] in multiset(sorted);
        assert sorted[i] in rows[..last];
        var j :| 0 <= j < last && rows[j] == sorted[i];
      }
      InsertedInOrder(sorted, rows[last], markOf, keys, oldestFirst);
    }
  }

  /** The rows shown stand strictly in the list's order. */
  lemma ShownInOrder<Row(!new)>(list: List<Row>, asked: Asked)
    requires Placed(list)
    ensures InOrder(Marks(Shown(list, asked), list.markOf), list.keys, list.oldestFirst)
  {
    var words := list.lowered(asked.q);
    var matching := r => list.matches(r, words);
    var found := if words == "" then list.rows else Filter(list.rows, matching);
    FilterStaysDistinct(list.rows, matching, list.markOf);
    forall row | row in found ensures row in list.rows { FilterKeeps(list.rows, matching, row); }
    var segment := SegmentOf(list.segments, asked.show);
    var held := if segment.None? then found else Filter(found, segment.value.holds);
    if segment.Some? {
      FilterStaysDistinct(found, segment.value.holds, list.markOf);
      forall row | row in held ensures row in found { FilterKeeps(found, segment.value.holds, row); }
    }
    SortedInOrder(held, list.markOf, list.keys, list.oldestFirst);
  }

  // ---- Pages ----

  lemma OrderedApart(marks: seq<Mark>, keys: nat, oldestFirst: bool, i: nat, j: nat)
    requires InOrder(marks, keys, oldestFirst) && i < |marks| && j < |marks|
    ensures Order(oldestFirst, marks[i], marks[j]) < 0.0 <==> i < j
    ensures Order(oldestFirst, marks[i], marks[j]) > 0.0 <==> i > j
  {
    OrderIsTotal(oldestFirst, marks[i], marks[j], marks[i]);
  }

  /** The page after a row begins right behind it; before a row, it ends right at it. */
  lemma CutAtARow(marks: seq<Mark>, keys: nat, oldestFirst: bool, i: nat)
    requires InOrder(marks, keys, oldestFirst) && i < |marks|
    ensures i + 1 < |marks| ==>
              CutIn(marks, After(marks[i]), oldestFirst) == Cut(i + 1, Min(i + 1 + 50, |marks|), After(marks[i]))
    ensures i > 0 ==> CutIn(marks, Before(marks[i]), oldestFirst) == Cut(Max(0, i - 50), i, Before(marks[i]))
  {
    if i + 1 < |marks| { OrderedApart(marks, keys, oldestFirst, i + 1, i); }
    forall j | 0 <= j < |marks| ensures Order(oldestFirst, marks[j], marks[i]) > 0.0 <==> j > i
                                ensures Order(oldestFirst, marks[j], marks[i]) >= 0.0 <==> j >= i {
      OrderedApart(marks, keys, oldestFirst, j, i);
    }
  }

  /** A page as a range of rows: full, or up to the list's end, or down from its start. */
  predicate Page(cut: Cut, n: nat) {
    && 0 <= cut.start <= cut.end <= n
    && (cut.end == Min(cut.start + 50, n) || (cut.start == 0 && cut.end <= 50))
    && (n > 0 ==> cut.start < cut.end)
  }

  /** Whatever the cursor, a page holds fifty rows at most, and none only where the list has none. */
  lemma EveryCutIsAPage(marks: seq<Mark>, from: From, oldestFirst: bool)
    ensures Page(CutIn(marks, from, oldestFirst), |marks|)
  {
  }

  /** Rows stand behind a place, or at it or behind it, from some row on. */
  lemma StandsFromThere(marks: seq<Mark>, keys: nat, oldestFirst: bool, place: Mark, at: bool, i: nat, j: nat)
    requires InOrder(marks, keys, oldestFirst) && |place.key| == keys && i <= j < |marks|
    requires Stands(marks[i], oldestFirst, place, at)
    ensures Stands(marks[j], oldestFirst, place, at)
  {
    if i < j {
      OrderIsTotal(oldestFirst, place, marks[i], marks[j]);
      OrderIsTotal(oldestFirst, marks[i], marks[j], place);
      OrderIsTotal(oldestFirst, marks[j], place, marks[j]);
    }
  }

  /**
   * Where a page stands, whatever the place asked for, in the list or not: right behind it, with what lies
   * ahead; or right before it, with what lies back; past the end at the last page, before the start at the first.
   */
  lemma CutStandsWhereAsked(marks: seq<Mark>, keys: nat, oldestFirst: bool, from: From, cut: Cut)
    requires InOrder(marks, keys, oldestFirst) && (!from.FirstPage? ==> |from.mark.key| == keys)
    requires cut == CutIn(marks, from, oldestFirst)
    ensures match from
            case FirstPage => cut.start == 0 && cut.end == Min(50, |marks|)
            case After(place) =>
              if exists i | 0 <= i < |marks| :: Order(oldestFirst, marks[i], place) > 0.0
              then (forall i | 0 <= i < |marks| :: Order(oldestFirst, marks[i], place) > 0.0 <==> cut.start <= i)
                   && cut.end == Min(cut.start + 50, |marks|)
              else cut.start == Max(0, |marks| - 50) && cut.end == |marks|
            case Before(place) =>
              if exists i | 0 <= i < |marks| :: Order(oldestFirst, marks[i], place) < 0.0
              then (forall i | 0 <= i < |marks| :: Order(oldestFirst, marks[i], place) < 0.0 <==> i < cut.end)
                   && cut.start == Max(0, cut.end - 50)
              else cut.start == 0 && cut.end == Min(50, |marks|)
  {
    if !from.FirstPage? {
      var at := from.Before?;
      var found := FindIndex(marks, oldestFirst, from.mark, at);
      if found.Some? {
        forall i: nat | i < |marks| ensures Stands(marks[i], oldestFirst, from.mark, at) <==> found.value <= i {
          if found.value <= i { StandsFromThere(marks, keys, oldestFirst, from.mark, at, found.value, i); }
        }
      }
      if at { BackwardCut(marks, oldestFirst, from.mark, found, cut); }
    }
  }

  lemma BackwardCut(marks: seq<Mark>, oldestFirst: bool, place: Mark, found: Option<nat>, cut: Cut)
    requires cut == CutIn(marks, Before(place), oldestFirst) && found == FindIndex(marks, oldestFirst, place, true)
    requires found.Some? ==> forall i: nat | i < |marks| :: Stands(marks[i], oldestFirst, place, true) <==> found.value <= i
    ensures if exists i | 0 <= i < |marks| :: Order(oldestFirst, marks[i], place) < 0.0
            then (forall i | 0 <= i < |marks| :: Order(oldestFirst, marks[i], place) < 0.0 <==> i < cut.end)
                 && cut.start == Max(0, cut.end - 50)
            else cut.start == 0 && cut.end == Min(50, |marks|)
  {
    var end := if found.None? then |marks| else found.value;
    forall i: nat | i < |marks| ensures Order(oldestFirst, marks[i], place) < 0.0 <==> i < end {
      assert Stands(marks[i], oldestFirst, place, true) <==> end <= i;
    }
    assert end > 0 ==> Order(oldestFirst, marks[0], place) < 0.0;
  }

  predicate SameRows(one: Cut, other: Cut) {
    one.start == other.start && one.end == other.end
  }

  /** The page on from a page begins where it ends, and leads back to it. */
  lemma NextLeadsBack(marks: seq<Mark>, keys: nat, oldestFirst: bool, from: From)
    requires InOrder(marks, keys, oldestFirst)
    requires 0 < CutIn(marks, from, oldestFirst).end < |marks|
    ensures var page := CutIn(marks, from, oldestFirst);
            var next := CutIn(marks, After(marks[page.end - 1]), oldestFirst);
            next.start == page.end && SameRows(CutIn(marks, Before(marks[page.end]), oldestFirst), page)
  {
    var page := CutIn(marks, from, oldestFirst);
    EveryCutIsAPage(marks, from, oldestFirst);
    CutAtARow(marks, keys, oldestFirst, page.end - 1);
    CutAtARow(marks, keys, oldestFirst, page.end);
  }

  /** The page back from a page ends where it begins, and leads on to it. */
  lemma PreviousLeadsOn(marks: seq<Mark>, keys: nat, oldestFirst: bool, from: From)
    requires InOrder(marks, keys, oldestFirst)
    requires 0 < CutIn(marks, from, oldestFirst).start < |marks|
    ensures var page := CutIn(marks, from, oldestFirst);
            var previous := CutIn(marks, Before(marks[page.start]), oldestFirst);
            previous.end == page.start && SameRows(CutIn(marks, After(marks[page.start - 1]), oldestFirst), page)
  {
    var page := CutIn(marks, from, oldestFirst);
    EveryCutIsAPage(marks, from, oldestFirst);
    CutAtARow(marks, keys, oldestFirst, page.start);
    CutAtARow(marks, keys, oldestFirst, page.start - 1);
  }

  /** The cursor a drawn page stands at draws the same rows again, one past the list's end included. */
  lemma DrawnAgain(marks: seq<Mark>, keys: nat, oldestFirst: bool, from: From)
    requires InOrder(marks, keys, oldestFirst)
    ensures SameRows(CutIn(marks, CutIn(marks, from, oldestFirst).from, oldestFirst), CutIn(marks, from, oldestFirst))
  {
    if |marks| > 50 { CutAtARow(marks, keys, oldestFirst, |marks| - 50 - 1); }
  }

  // ---- What a drawn page says of itself ----

  /**
   * A page that is the whole list says nothing of a cut; any other says which rows it draws, counted from one, of
   * how many, and has a way back exactly where rows come before it and a way on exactly where some come after.
   */
  lemma ThePageSaysWhereItIs<Row>(list: List<Row>, asked: Asked)
    ensures var drawn, shown := ListingOf(list, asked), Shown(list, asked);
            && |drawn.rows| <= 50
            && (drawn.cut.None? <==> drawn.rows == shown)
            && (drawn.cut.Some? ==>
                  var view := drawn.cut.value;
                  && 1 <= view.from <= view.to <= view.of == |shown|
                  && drawn.rows == shown[view.from - 1..view.to]
                  && (view.previous.Some? <==> view.from > 1) && (view.next.Some? <==> view.to < view.of))
  {
    var shown, cut := Shown(list, asked), CutOf(list, asked);
    EveryCutIsAPage(Marks(shown, list.markOf), asked.from, list.oldestFirst);
    assert shown[0..|shown|] == shown;
    assert |shown[cut.start..cut.end]| == cut.end - cut.start;
  }
}
