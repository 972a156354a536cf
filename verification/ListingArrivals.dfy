/** Every row once: a walk over a list that stands still, and over one that rows arrive in between its clicks. */
module ListingArrivals {
  import opened Options
  import opened Cursor
  import opened Listing
  import opened ListingAddresses
  import opened ListingPages
  import opened ListingWalks

  // ---- Pages of rows in order ----

  /** Whether a row lies ahead of a cursor that reads on. */
  predicate Ahead(oldestFirst: bool, from: From, mark: Mark) {
    match from
    case FirstPage => true
    case After(place) => Order(oldestFirst, place, mark) < 0.0
    case Before(_) => false
  }

  /** A cursor a walk can stand at: the start, or a place with a row behind it. */
  ghost predicate Leads(marks: seq<Mark>, keys: nat, oldestFirst: bool, from: From) {
    match from
    case FirstPage => true
    case After(place) => |place.key| == keys && exists i | 0 <= i < |marks| :: Order(oldestFirst, place, marks[i]) < 0.0
    case Before(_) => false
  }

  /** The cut at such a cursor: exactly what lies ahead, from the nearest on, fifty at most. */
  lemma CutAhead(marks: seq<Mark>, keys: nat, oldestFirst: bool, from: From, cut: Cut)
    requires InOrder(marks, keys, oldestFirst) && Leads(marks, keys, oldestFirst, from)
    requires cut == CutIn(marks, from, oldestFirst)
    ensures forall i | 0 <= i < |marks| :: Ahead(oldestFirst, from, marks[i]) <==> cut.start <= i
    ensures cut.end == Min(cut.start + 50, |marks|) && (marks != [] ==> cut.start < cut.end)
  {
    if from.After? {
      var found := FindIndex(marks, oldestFirst, from.mark, false);
      var i :| 0 <= i < |marks| && Order(oldestFirst, from.mark, marks[i]) < 0.0;
      OrderIsTotal(oldestFirst, from.mark, marks[i], from.mark);
      forall j | 0 <= j < |marks| ensures Ahead(oldestFirst, from, marks[j]) <==> found.value <= j {
        OrderIsTotal(oldestFirst, from.mark, marks[j], from.mark);
        OrderIsTotal(oldestFirst, from.mark, marks[found.value], marks[j]);
        OrderIsTotal(oldestFirst, marks[found.value], from.mark, marks[j]);
      }
    }
  }

  /** A page draws rows ahead of its cursor, and leaves to its way on whatever it does not draw of them. */
  ghost predicate PageOf<Row(!new)>(shown: seq<Row>, markOf: Row -> Mark, keys: nat, oldestFirst: bool, from: From,
                                    page: seq<Row>, next: Option<From>)
  {
    && (forall row | row in page :: row in shown && |markOf(row).key| == keys && Ahead(oldestFirst, from, markOf(row)))
    && (forall row | row in shown && Ahead(oldestFirst, from, markOf(row)) ::
          row in page || (next.Some? && Ahead(oldestFirst, next.value, markOf(row))))
    && (next.Some? ==>
          && next.value.After? && |next.value.mark.key| == keys && (exists row | row in page :: markOf(row) == next.value.mark)
          && (forall row | row in page :: Order(oldestFirst, markOf(row), next.value.mark) <= 0.0)
          && (from.After? ==> Order(oldestFirst, from.mark, next.value.mark) < 0.0))
  }

  lemma WayOnLeadsOn(marks: seq<Mark>, keys: nat, oldestFirst: bool, from: From, cut: Cut)
    requires InOrder(marks, keys, oldestFirst) && Leads(marks, keys, oldestFirst, from)
    requires cut == CutIn(marks, from, oldestFirst) && cut.end != |marks| && cut.end != 0
    ensures cut.start < cut.end
    ensures Leads(marks, keys, oldestFirst, After(marks[cut.end - 1]))
    ensures from.After? ==> Order(oldestFirst, from.mark, marks[cut.end - 1]) < 0.0
    ensures forall i | cut.end <= i < |marks| :: Order(oldestFirst, marks[cut.end - 1], marks[i]) < 0.0
    ensures forall i | cut.start <= i < cut.end :: Order(oldestFirst, marks[i], marks[cut.end - 1]) <= 0.0
  {
    CutAhead(marks, keys, oldestFirst, from, cut);
    var last := cut.end - 1;
    assert Order(oldestFirst, marks[last], marks[last + 1]) < 0.0;
    assert Ahead(oldestFirst, from, marks[last]);
    OrderIsTotal(oldestFirst, marks[last], marks[last], marks[last]);
  }

  /** What a page at such a cursor draws, and what it leaves to the way on. */
  lemma OnePage<Row(!new)>(shown: seq<Row>, marks: seq<Mark>, markOf: Row -> Mark, keys: nat, oldestFirst: bool, from: From,
                           page: seq<Row>, next: Option<From>)
    requires marks == Marks(shown, markOf)
    requires InOrder(marks, keys, oldestFirst) && Leads(marks, keys, oldestFirst, from)
    requires page == PageRows(shown, markOf, oldestFirst, from) && next == NextFrom(shown, markOf, oldestFirst, from)
    ensures PageOf(shown, markOf, keys, oldestFirst, from, page, next)
    ensures next.Some? ==> Leads(marks, keys, oldestFirst, next.value)
  {
    var cut := CutFrom(shown, markOf, oldestFirst, from);
    CutAhead(marks, keys, oldestFirst, from, cut);
    if cut.end != |marks| && cut.end != 0 { WayOnLeadsOn(marks, keys, oldestFirst, from, cut); }
    PageByRange(shown, marks, markOf, keys, oldestFirst, from, cut.start, cut.end, page, next);
  }

  lemma PageByRange<Row(!new)>(shown: seq<Row>, marks: seq<Mark>, markOf: Row -> Mark, keys: nat, oldestFirst: bool, from: From,
                               start: nat, end: nat, page: seq<Row>, next: Option<From>)
    requires marks == Marks(shown, markOf) && start <= end <= |marks|
    requires page == shown[start..end]
    requires next == if end == |marks| || end == 0 then None else Some(After(marks[end - 1]))
    requires forall i | 0 <= i < |marks| :: |marks[i].key| == keys && (Ahead(oldestFirst, from, marks[i]) <==> start <= i)
    requires end == Min(start + 50, |marks|)
    requires next.Some? ==>
      && start < end
      && (from.After? ==> Order(oldestFirst, from.mark, marks[end - 1]) < 0.0)
      && (forall i | end <= i < |marks| :: Order(oldestFirst, marks[end - 1], marks[i]) < 0.0)
      && (forall i | start <= i < end :: Order(oldestFirst, marks[i], marks[end - 1]) <= 0.0)
    ensures PageOf(shown, markOf, keys, oldestFirst, from, page, next)
  {
    if next.Some? { assert page[end - 1 - start] in page && markOf(page[end - 1 - start]) == next.value.mark; }
    forall row | row in page
      ensures row in shown && |markOf(row).key| == keys && Ahead(oldestFirst, from, markOf(row))
      ensures next.Some? ==> Order(oldestFirst, markOf(row), next.value.mark) <= 0.0
    {
      var i :| 0 <= i < |page| && page[i] == row;
      assert shown[start + i] == row && marks[start + i] == markOf(row);
    }
    forall row | row in shown && Ahead(oldestFirst, from, markOf(row))
      ensures row in page || (next.Some? && Ahead(oldestFirst, next.value, markOf(row)))
    {
      var i :| 0 <= i < |shown| && shown[i] == row;
      assert marks[i] == markOf(row);
      if i < end { assert page[i - start] == row; }
    }
  }

  // ---- Rows arriving between clicks ----

  /** The rows of each read in order, none ever gone again. */
  ghost predicate Arriving<Row(!new)>(shown: nat -> seq<Row>, markOf: Row -> Mark, keys: nat, oldestFirst: bool) {
    && (forall k: nat :: InOrder(Marks(shown(k), markOf), keys, oldestFirst))
    && (forall k: nat, row | row in shown(k) :: row in shown(k + 1))
  }

  function PageAt<Row>(shown: nat -> seq<Row>, markOf: Row -> Mark, oldestFirst: bool, clicks: nat): seq<Row> {
    match Reached(shown, markOf, oldestFirst, clicks)
    case None => []
    case Some(from) => PageRows(shown(clicks), markOf, oldestFirst, from)
  }

  lemma StillLeads<Row(!new)>(shown: seq<Row>, later: seq<Row>, markOf: Row -> Mark, keys: nat, oldestFirst: bool, from: From)
    requires Leads(Marks(shown, markOf), keys, oldestFirst, from)
    requires forall row | row in shown :: row in later
    ensures Leads(Marks(later, markOf), keys, oldestFirst, from)
  {
    if from.After? {
      var i :| 0 <= i < |shown| && Order(oldestFirst, from.mark, Marks(shown, markOf)[i]) < 0.0;
      assert shown[i] in later;
      var j :| 0 <= j < |later| && later[j] == shown[i];
      assert Order(oldestFirst, from.mark, Marks(later, markOf)[j]) < 0.0;
    }
  }

  /** Every cursor reached has a row behind it when its page is read. */
  lemma {:induction false} ReachedLeads<Row(!new)>(shown: nat -> seq<Row>, markOf: Row -> Mark, keys: nat, oldestFirst: bool, k: nat)
    requires Arriving(shown, markOf, keys, oldestFirst)
    ensures var from := Reached(shown, markOf, oldestFirst, k);
            from.Some? ==> Leads(Marks(shown(k), markOf), keys, oldestFirst, from.value) && (k > 0 ==> from.value.After?)
  {
    if k > 0 && Reached(shown, markOf, oldestFirst, k).Some? {
      var before := Reached(shown, markOf, oldestFirst, k - 1).value;
      ReachedLeads(shown, markOf, keys, oldestFirst, k - 1);
      OnePage(shown(k - 1), Marks(shown(k - 1), markOf), markOf, keys, oldestFirst, before,
              PageRows(shown(k - 1), markOf, oldestFirst, before), NextFrom(shown(k - 1), markOf, oldestFirst, before));
      StillLeads(shown(k - 1), shown(k), markOf, keys, oldestFirst, Reached(shown, markOf, oldestFirst, k).value);
    }
  }

  lemma PageFacts<Row(!new)>(shown: nat -> seq<Row>, markOf: Row -> Mark, keys: nat, oldestFirst: bool, k: nat, from: From)
    requires Arriving(shown, markOf, keys, oldestFirst) && Reached(shown, markOf, oldestFirst, k) == Some(from)
    ensures PageOf(shown(k), markOf, keys, oldestFirst, from,
                   PageAt(shown, markOf, oldestFirst, k), Reached(shown, markOf, oldestFirst, k + 1))
    ensures k > 0 ==> from.After? && |from.mark.key| == keys
  {
    ReachedLeads(shown, markOf, keys, oldestFirst, k);
    OnePage(shown(k), Marks(shown(k), markOf), markOf, keys, oldestFirst, from,
            PageAt(shown, markOf, oldestFirst, k), Reached(shown, markOf, oldestFirst, k + 1));
  }

  // ---- A whole walk, its pages and cursors taken by number ----

  ghost predicate StepOf<Row(!new)>(shown: nat -> seq<Row>, froms: nat -> Option<From>, pages: nat -> seq<Row>,
                                    markOf: Row -> Mark, keys: nat, oldestFirst: bool, k: nat)
  {
    match froms(k)
    case None => froms(k + 1).None? && pages(k) == []
    case Some(from) =>
      && PageOf(shown(k), markOf, keys, oldestFirst, from, pages(k), froms(k + 1))
      && (k > 0 ==> from.After? && |from.mark.key| == keys)
  }

  ghost predicate WalkOf<Row(!new)>(shown: nat -> seq<Row>, froms: nat -> Option<From>, pages: nat -> seq<Row>,
                                    markOf: Row -> Mark, keys: nat, oldestFirst: bool)
  {
    && froms(0) == Some(FirstPage)
    && (forall k: nat :: StepOf(shown, froms, pages, markOf, keys, oldestFirst, k))
    && (forall k: nat, row | row in shown(k) :: row in shown(k + 1))
  }

  lemma ArrivingIsAWalk<Row(!new)>(shown: nat -> seq<Row>, froms: nat -> Option<From>, pages: nat -> seq<Row>,
                                   markOf: Row -> Mark, keys: nat, oldestFirst: bool)
    requires Arriving(shown, markOf, keys, oldestFirst)
    requires forall k: nat :: froms(k) == Reached(shown, markOf, oldestFirst, k)
    requires forall k: nat :: pages(k) == PageAt(shown, markOf, oldestFirst, k)
    ensures WalkOf(shown, froms, pages, markOf, keys, oldestFirst)
  {
    forall k: nat ensures StepOf(shown, froms, pages, markOf, keys, oldestFirst, k) {
      var from := froms(k);
      assert from == Reached(shown, markOf, oldestFirst, k) && froms(k + 1) == Reached(shown, markOf, oldestFirst, k + 1);
      if from.Some? { PageFacts(shown, markOf, keys, oldestFirst, k, from.value); }
    }
  }

  /** Whatever an earlier page drew stands at the cursor reached or before it. */
  lemma {:induction false} DrawnIsBehind<Row(!new)>(shown: nat -> seq<Row>, froms: nat -> Option<From>, pages: nat -> seq<Row>,
                                                    markOf: Row -> Mark, keys: nat, oldestFirst: bool, i: nat, j: nat, row: Row)
    requires WalkOf(shown, froms, pages, markOf, keys, oldestFirst)
    requires i < j && row in pages(i) && froms(j).Some?
    ensures froms(j).value.After? && |froms(j).value.mark.key| == keys && row in shown(i) && |markOf(row).key| == keys
    ensures Order(oldestFirst, markOf(row), froms(j).value.mark) <= 0.0
    decreases j
  {
    assert StepOf(shown, froms, pages, markOf, keys, oldestFirst, j - 1);
    assert StepOf(shown, froms, pages, markOf, keys, oldestFirst, j);
    if i < j - 1 {
      DrawnIsBehind(shown, froms, pages, markOf, keys, oldestFirst, i, j - 1, row);
      OrderIsTotal(oldestFirst, markOf(row), froms(j - 1).value.mark, froms(j).value.mark);
    }
  }

  /** A later page draws only what stands after everything an earlier one drew. */
  lemma PagesRise<Row(!new)>(shown: nat -> seq<Row>, froms: nat -> Option<From>, pages: nat -> seq<Row>,
                             markOf: Row -> Mark, keys: nat, oldestFirst: bool, i: nat, j: nat, one: Row, other: Row)
    requires WalkOf(shown, froms, pages, markOf, keys, oldestFirst)
    requires i < j && one in pages(i) && other in pages(j)
    ensures Order(oldestFirst, markOf(one), markOf(other)) < 0.0
  {
    assert StepOf(shown, froms, pages, markOf, keys, oldestFirst, j);
    DrawnIsBehind(shown, froms, pages, markOf, keys, oldestFirst, i, j, one);
    OrderIsTotal(oldestFirst, markOf(one), froms(j).value.mark, markOf(other));
  }

  lemma {:induction false} StaysShown<Row(!new)>(shown: nat -> seq<Row>, j: nat, k: nat, row: Row)
    requires forall k: nat, row | row in shown(k) :: row in shown(k + 1)
    requires j <= k && row in shown(j)
    ensures row in shown(k)
    decreases k
  {
    if j < k { StaysShown(shown, j, k - 1, row); }
  }

  /** A row that is there and lies ahead is drawn on the way, or lies ahead still. */
  lemma {:induction false} NoneIsSkipped<Row(!new)>(shown: nat -> seq<Row>, froms: nat -> Option<From>, pages: nat -> seq<Row>,
                                                    markOf: Row -> Mark, keys: nat, oldestFirst: bool, j: nat, k: nat, row: Row)
    requires WalkOf(shown, froms, pages, markOf, keys, oldestFirst)
    requires j <= k && row in shown(j) && froms(j).Some? && froms(k).Some?
    requires Ahead(oldestFirst, froms(j).value, markOf(row))
    ensures (exists i: nat | j <= i < k :: row in pages(i)) || Ahead(oldestFirst, froms(k).value, markOf(row))
    decreases k
  {
    if j < k {
      assert StepOf(shown, froms, pages, markOf, keys, oldestFirst, k - 1);
      NoneIsSkipped(shown, froms, pages, markOf, keys, oldestFirst, j, k - 1, row);
      StaysShown(shown, j, k - 1, row);
      assert Ahead(oldestFirst, froms(k - 1).value, markOf(row)) && !Ahead(oldestFirst, froms(k).value, markOf(row)) ==> row in pages(k - 1);
    }
  }

  /** Where the way on ends, whatever lay ahead has been drawn. */
  lemma TheEndHasAll<Row(!new)>(shown: nat -> seq<Row>, froms: nat -> Option<From>, pages: nat -> seq<Row>,
                                markOf: Row -> Mark, keys: nat, oldestFirst: bool, j: nat, k: nat, row: Row)
    requires WalkOf(shown, froms, pages, markOf, keys, oldestFirst)
    requires j <= k && row in shown(j) && froms(j).Some? && froms(k).Some? && froms(k + 1).None?
    requires Ahead(oldestFirst, froms(j).value, markOf(row))
    ensures exists i: nat | j <= i <= k :: row in pages(i)
  {
    NoneIsSkipped(shown, froms, pages, markOf, keys, oldestFirst, j, k, row);
    StaysShown(shown, j, k, row);
    assert StepOf(shown, froms, pages, markOf, keys, oldestFirst, k);
    if Ahead(oldestFirst, froms(k).value, markOf(row)) { assert row in pages(k); }
  }

  lemma AheadOfThePage<Row(!new)>(shown: nat -> seq<Row>, froms: nat -> Option<From>, pages: nat -> seq<Row>,
                                  markOf: Row -> Mark, keys: nat, oldestFirst: bool, j: nat, row: Row)
    requires WalkOf(shown, froms, pages, markOf, keys, oldestFirst) && froms(j).Some?
    requires j > 0 ==> forall one | one in pages(j - 1) :: Order(oldestFirst, markOf(one), markOf(row)) < 0.0
    ensures Ahead(oldestFirst, froms(j).value, markOf(row))
  {
    if j > 0 {
      assert StepOf(shown, froms, pages, markOf, keys, oldestFirst, j - 1);
      var one :| one in pages(j - 1) && markOf(one) == froms(j).value.mark;
    }
  }

  // ---- The same of the pages an admin visits ----

  /** The pages of a walk by number, each row of the list there again at every later read. */
  ghost predicate Walking<Row(!new)>(lists: nat -> List<Row>, asked: Asked, pages: nat -> Option<Drawn<Row>>) {
    && Reads(lists, asked)
    && (forall k: nat :: pages(k) == Visited(lists, asked, k))
    && (forall k: nat, row | row in lists(k).rows :: row in lists(k + 1).rows)
  }

  lemma VisitedRows<Row(!new)>(lists: nat -> List<Row>, asked: Asked, shown: nat -> seq<Row>, k: nat)
    requires Reads(lists, asked)
    requires forall k: nat :: shown(k) == Shown(lists(k), asked)
    ensures Visited(lists, asked, k).Some? <==> Reached(shown, lists(0).markOf, lists(0).oldestFirst, k).Some?
    ensures RowsOf(Visited(lists, asked, k)) == PageAt(shown, lists(0).markOf, lists(0).oldestFirst, k)
  {
    var from := Reached(shown, lists(0).markOf, lists(0).oldestFirst, k);
    VisitedIsReached(lists, asked, shown, k, from);
    if from.Some? { AtDraws(lists(k), asked, from.value, shown(k)); }
  }

  function RowsOf<Row>(page: Option<Drawn<Row>>): seq<Row> {
    match page
    case None => []
    case Some(drawn) => drawn.rows
  }

  lemma ArrivedAreShown<Row(!new)>(list: List<Row>, other: List<Row>, asked: Asked, row: Row, shown: seq<Row>, later: seq<Row>)
    requires OneList(list, other) && shown == Shown(list, asked) && later == Shown(other, asked)
    requires row in shown && (row in list.rows ==> row in other.rows)
    ensures row in later
  {
    ShownAreHeld(list, asked, row);
    ShownAreHeld(other, asked, row);
  }

  lemma ReadInOrder<Row(!new)>(lists: nat -> List<Row>, asked: Asked, k: nat, shown: seq<Row>)
    requires Reads(lists, asked) && shown == Shown(lists(k), asked)
    ensures InOrder(Marks(shown, lists(0).markOf), lists(0).keys, lists(0).oldestFirst)
  {
    assert OneList(lists(0), lists(k));
    ShownInOrder(lists(k), asked);
  }

  lemma ReadsGrow<Row(!new)>(lists: nat -> List<Row>, asked: Asked, k: nat, shown: seq<Row>, later: seq<Row>)
    requires Reads(lists, asked) && shown == Shown(lists(k), asked) && later == Shown(lists(k + 1), asked)
    requires forall row | row in lists(k).rows :: row in lists(k + 1).rows
    ensures forall row | row in shown :: row in later
  {
    assert OneList(lists(0), lists(k)) && OneList(lists(0), lists(k + 1));
    forall row | row in shown ensures row in later {
      ArrivedAreShown(lists(k), lists(k + 1), asked, row, shown, later);
    }
  }

  lemma ShownArrive<Row(!new)>(lists: nat -> List<Row>, asked: Asked, shown: nat -> seq<Row>, markOf: Row -> Mark, keys: nat, oldestFirst: bool)
    requires Reads(lists, asked)
    requires forall k: nat :: shown(k) == Shown(lists(k), asked)
    requires forall k: nat, row | row in lists(k).rows :: row in lists(k + 1).rows
    requires markOf == lists(0).markOf && keys == lists(0).keys && oldestFirst == lists(0).oldestFirst
    ensures Arriving(shown, markOf, keys, oldestFirst)
  {
    forall k: nat ensures InOrder(Marks(shown(k), markOf), keys, oldestFirst) {
      ReadInOrder(lists, asked, k, shown(k));
    }
    forall k: nat ensures forall row | row in shown(k) :: row in shown(k + 1) {
      ReadsGrow(lists, asked, k, shown(k), shown(k + 1));
    }
  }

  /** The rows shown at each read, the cursors and the pages of a walk, as one walk over rows in order. */
  lemma WalkingIsAWalk<Row(!new)>(lists: nat -> List<Row>, asked: Asked, pages: nat -> Option<Drawn<Row>>, shown: nat -> seq<Row>,
                                  froms: nat -> Option<From>, rows: nat -> seq<Row>)
    requires Walking(lists, asked, pages)
    requires forall k: nat :: shown(k) == Shown(lists(k), asked)
    requires forall k: nat :: froms(k) == Reached(shown, lists(0).markOf, lists(0).oldestFirst, k)
    requires forall k: nat :: rows(k) == RowsOf(pages(k))
    ensures WalkOf(shown, froms, rows, lists(0).markOf, lists(0).keys, lists(0).oldestFirst)
    ensures forall k: nat :: froms(k).Some? <==> pages(k).Some?
  {
    var markOf, keys, oldestFirst := lists(0).markOf, lists(0).keys, lists(0).oldestFirst;
    ShownArrive(lists, asked, shown, markOf, keys, oldestFirst);
    forall k: nat ensures rows(k) == PageAt(shown, markOf, oldestFirst, k) && (froms(k).Some? <==> pages(k).Some?) {
      VisitedRows(lists, asked, shown, k);
    }
    ArrivingIsAWalk(shown, froms, rows, markOf, keys, oldestFirst);
  }

  /** No row is drawn twice: whatever arrives meanwhile, a later page draws only what stands after every earlier one. */
  lemma NoRowIsDrawnTwice<Row(!new)>(lists: nat -> List<Row>, asked: Asked, pages: nat -> Option<Drawn<Row>>, i: nat, j: nat, one: Row, other: Row)
    requires Walking(lists, asked, pages)
    requires i < j && one in RowsOf(pages(i)) && other in RowsOf(pages(j))
    ensures Order(lists(0).oldestFirst, lists(0).markOf(one), lists(0).markOf(other)) < 0.0
  {
    var shown := (k: nat) => Shown(lists(k), asked);
    var froms := (k: nat) => Reached(shown, lists(0).markOf, lists(0).oldestFirst, k);
    var rows := (k: nat) => RowsOf(pages(k));
    WalkingIsAWalk(lists, asked, pages, shown, froms, rows);
    PagesRise(shown, froms, rows, lists(0).markOf, lists(0).keys, lists(0).oldestFirst, i, j, one, other);
  }

  /**
   * No row is skipped: one the list holds at a click, behind everything the page before drew, has been
   * drawn by the page that has no way on. At the first page this is every row there is.
   */
  lemma NoRowIsSkipped<Row(!new)>(lists: nat -> List<Row>, asked: Asked, pages: nat -> Option<Drawn<Row>>, j: nat, k: nat, row: Row)
    requires Walking(lists, asked, pages)
    requires j <= k && pages(j).Some? && pages(k).Some? && pages(k + 1).None?
    requires row in lists(j).rows && Holds(lists(j), asked, row)
    requires j > 0 ==> forall one | one in RowsOf(pages(j - 1)) ::
      Order(lists(0).oldestFirst, lists(0).markOf(one), lists(0).markOf(row)) < 0.0
    ensures exists i: nat | j <= i <= k :: row in RowsOf(pages(i))
  {
    var shown := (k: nat) => Shown(lists(k), asked);
    var froms := (k: nat) => Reached(shown, lists(0).markOf, lists(0).oldestFirst, k);
    var rows := (k: nat) => RowsOf(pages(k));
    WalkingIsAWalk(lists, asked, pages, shown, froms, rows);
    HeldIsShown(lists(j), asked, row, shown(j));
    SkipsNone(shown, froms, rows, lists(0).markOf, lists(0).keys, lists(0).oldestFirst, j, k, row);
    var i: nat :| j <= i <= k && row in rows(i);
    assert row in RowsOf(pages(i));
  }

  lemma HeldIsShown<Row(!new)>(list: List<Row>, asked: Asked, row: Row, shown: seq<Row>)
    requires shown == Shown(list, asked)
    ensures row in shown <==> row in list.rows && Holds(list, asked, row)
  {
    ShownAreHeld(list, asked, row);
  }

  lemma SkipsNone<Row(!new)>(shown: nat -> seq<Row>, froms: nat -> Option<From>, pages: nat -> seq<Row>,
                             markOf: Row -> Mark, keys: nat, oldestFirst: bool, j: nat, k: nat, row: Row)
    requires WalkOf(shown, froms, pages, markOf, keys, oldestFirst)
    requires j <= k && row in shown(j) && froms(j).Some? && froms(k).Some? && froms(k + 1).None?
    requires j > 0 ==> forall one | one in pages(j - 1) :: Order(oldestFirst, markOf(one), markOf(row)) < 0.0
    ensures exists i: nat | j <= i <= k :: row in pages(i)
  {
    AheadOfThePage(shown, froms, pages, markOf, keys, oldestFirst, j, row);
    TheEndHasAll(shown, froms, pages, markOf, keys, oldestFirst, j, k, row);
  }

  lemma PageInOrder<Row(!new)>(shown: seq<Row>, markOf: Row -> Mark, keys: nat, oldestFirst: bool, from: From, page: seq<Row>)
    requires InOrder(Marks(shown, markOf), keys, oldestFirst) && page == PageRows(shown, markOf, oldestFirst, from)
    ensures InOrder(Marks(page, markOf), keys, oldestFirst) && |page| <= 50
  {
    var cut := CutFrom(shown, markOf, oldestFirst, from);
    EveryCutIsAPage(Marks(shown, markOf), from, oldestFirst);
    assert Marks(page, markOf) == Marks(shown, markOf)[cut.start..cut.end];
  }

  /** Each page of such a walk draws fifty rows at most, each once, in the list's order. */
  lemma EachPageIsInOrder<Row(!new)>(lists: nat -> List<Row>, asked: Asked, pages: nat -> Option<Drawn<Row>>, k: nat)
    requires Walking(lists, asked, pages)
    ensures InOrder(Marks(RowsOf(pages(k)), lists(0).markOf), lists(0).keys, lists(0).oldestFirst) && |RowsOf(pages(k))| <= 50
  {
    var shown := (k: nat) => Shown(lists(k), asked);
    VisitedRows(lists, asked, shown, k);
    var from := Reached(shown, lists(0).markOf, lists(0).oldestFirst, k);
    if from.Some? {
      ReadInOrder(lists, asked, k, shown(k));
      PageInOrder(shown(k), lists(0).markOf, lists(0).keys, lists(0).oldestFirst, from.value, RowsOf(pages(k)));
    }
  }

  // ---- A list that stands still ----

  /** Where the n-th page of a still list begins. */
  function SliceStart(clicks: nat): nat {
    if clicks == 0 then 0 else SliceStart(clicks - 1) + 50
  }

  lemma {:induction false} SliceStarts(clicks: nat)
    ensures SliceStart(clicks) == 50 * clicks
  {
    if clicks > 0 { SliceStarts(clicks - 1); }
  }

  /** The cursor a page stands at that begins at a row: the plain address, or right behind the row before. */
  function FromRow<Row>(rows: seq<Row>, markOf: Row -> Mark, start: nat): From
    requires start <= |rows|
  {
    if start == 0 then FirstPage else After(markOf(rows[start - 1]))
  }

  lemma CutFromRow<Row(!new)>(rows: seq<Row>, markOf: Row -> Mark, keys: nat, oldestFirst: bool, start: nat, end: nat)
    requires InOrder(Marks(rows, markOf), keys, oldestFirst)
    requires (start == 0 || start < |rows|) && end == Min(start + 50, |rows|)
    ensures PageRows(rows, markOf, oldestFirst, FromRow(rows, markOf, start)) == rows[start..end]
    ensures NextFrom(rows, markOf, oldestFirst, FromRow(rows, markOf, start))
         == if end == |rows| then None else Some(FromRow(rows, markOf, end))
  {
    if start > 0 { CutAtARow(Marks(rows, markOf), keys, oldestFirst, start - 1); }
    var cut := CutFrom(rows, markOf, oldestFirst, FromRow(rows, markOf, start));
    assert cut.start == start && cut.end == end;
  }

  /** A walk that goes on from the row where each page ends. */
  predicate GoesByFifty<Row>(rows: seq<Row>, markOf: Row -> Mark, goes: (nat, From) -> Option<From>, k: nat, start: nat) {
    start == 0 || start < |rows| ==>
      var end := Min(start + 50, |rows|);
      goes(k, FromRow(rows, markOf, start)) == if end == |rows| then None else Some(FromRow(rows, markOf, end))
  }

  lemma {:induction false} TrailByFifty<Row(!new)>(rows: seq<Row>, markOf: Row -> Mark, goes: (nat, From) -> Option<From>, k: nat)
    requires forall k: nat, start: nat :: GoesByFifty(rows, markOf, goes, k, start)
    ensures Trail(FirstPage, goes, k) == if k == 0 || SliceStart(k) < |rows| then Some(FromRow(rows, markOf, SliceStart(k))) else None
  {
    if k > 0 {
      TrailByFifty(rows, markOf, goes, k - 1);
      assert GoesByFifty(rows, markOf, goes, k - 1, SliceStart(k - 1));
    }
  }

  lemma StillReached<Row(!new)>(shown: nat -> seq<Row>, rows: seq<Row>, markOf: Row -> Mark, keys: nat, oldestFirst: bool,
                                goes: (nat, From) -> Option<From>, k: nat)
    requires forall k: nat :: shown(k) == rows
    requires forall k: nat, from :: goes(k, from) == NextFrom(shown(k), markOf, oldestFirst, from)
    requires InOrder(Marks(rows, markOf), keys, oldestFirst)
    ensures Reached(shown, markOf, oldestFirst, k)
         == if k == 0 || SliceStart(k) < |rows| then Some(FromRow(rows, markOf, SliceStart(k))) else None
  {
    forall k: nat, start: nat ensures GoesByFifty(rows, markOf, goes, k, start) {
      if start == 0 || start < |rows| { CutFromRow(rows, markOf, keys, oldestFirst, start, Min(start + 50, |rows|)); }
    }
    TrailByFifty(rows, markOf, goes, k);
    ReachedIsATrail(shown, markOf, oldestFirst, goes, k);
  }

  /** The n-th fifty of the rows, or no page where no row is left; the first page is there in any case. */
  predicate IsSlice<Row(==)>(page: Option<Drawn<Row>>, rows: seq<Row>, k: nat) {
    if k == 0 || 50 * k < |rows|
    then page.Some? && page.value.rows == rows[50 * k..Min(50 * k + 50, |rows|)]
    else page.None?
  }

  lemma SliceAt<Row(!new)>(shown: nat -> seq<Row>, rows: seq<Row>, markOf: Row -> Mark, keys: nat, oldestFirst: bool, k: nat)
    requires forall k: nat :: shown(k) == rows
    requires InOrder(Marks(rows, markOf), keys, oldestFirst)
    ensures Reached(shown, markOf, oldestFirst, k).Some? <==> k == 0 || 50 * k < |rows|
    ensures (k == 0 || 50 * k < |rows|) ==>
              PageAt(shown, markOf, oldestFirst, k) == rows[50 * k..Min(50 * k + 50, |rows|)]
  {
    SliceStarts(k);
    SliceFrom(shown, rows, markOf, keys, oldestFirst, k, SliceStart(k));
    if k == 0 || 50 * k < |rows| { PageAtRow(shown, rows, markOf, keys, oldestFirst, k, 50 * k); }
  }

  lemma SliceFrom<Row(!new)>(shown: nat -> seq<Row>, rows: seq<Row>, markOf: Row -> Mark, keys: nat, oldestFirst: bool, k: nat, start: nat)
    requires forall k: nat :: shown(k) == rows
    requires InOrder(Marks(rows, markOf), keys, oldestFirst) && start == SliceStart(k)
    ensures Reached(shown, markOf, oldestFirst, k) == if k == 0 || start < |rows| then Some(FromRow(rows, markOf, start)) else None
  {
    var goes := (k: nat, from) => NextFrom(shown(k), markOf, oldestFirst, from);
    StillReached(shown, rows, markOf, keys, oldestFirst, goes, k);
  }

  lemma PageAtRow<Row(!new)>(shown: nat -> seq<Row>, rows: seq<Row>, markOf: Row -> Mark, keys: nat, oldestFirst: bool, k: nat, start: nat)
    requires shown(k) == rows && InOrder(Marks(rows, markOf), keys, oldestFirst) && (start == 0 || start < |rows|)
    requires Reached(shown, markOf, oldestFirst, k) == Some(FromRow(rows, markOf, start))
    ensures PageAt(shown, markOf, oldestFirst, k) == rows[start..Min(start + 50, |rows|)]
  {
    CutFromRow(rows, markOf, keys, oldestFirst, start, Min(start + 50, |rows|));
  }

  /**
   * After n clicks over a list that stands still the n-th fifty of the rows the search and the segment
   * hold are drawn, in the list's order; there is an n-th page exactly while rows are left.
   */
  lemma WalkDrawsTheSlices<Row(!new)>(lists: nat -> List<Row>, asked: Asked, pages: nat -> Option<Drawn<Row>>, shown: nat -> seq<Row>,
                                      rows: seq<Row>, k: nat)
    requires Walking(lists, asked, pages)
    requires forall k: nat :: shown(k) == Shown(lists(k), asked)
    requires forall k: nat :: shown(k) == rows
    ensures IsSlice(pages(k), rows, k)
  {
    ReadInOrder(lists, asked, 0, shown(0));
    VisitedRows(lists, asked, shown, k);
    SliceAt(shown, rows, lists(0).markOf, lists(0).keys, lists(0).oldestFirst, k);
  }

  /** The rows of the first pages of a walk, one after another. */
  function Walked<Row>(pages: nat -> Option<Drawn<Row>>, count: nat): seq<Row> {
    if count == 0 then [] else Walked(pages, count - 1) + RowsOf(pages(count - 1))
  }

  lemma {:induction false} WalkedIsAPrefix<Row(!new)>(pages: nat -> Option<Drawn<Row>>, rows: seq<Row>, count: nat)
    requires forall k: nat :: IsSlice(pages(k), rows, k)
    ensures Walked(pages, count) == rows[..Min(50 * count, |rows|)]
  {
    if count > 0 {
      WalkedIsAPrefix(pages, rows, count - 1);
      assert IsSlice(pages(count - 1), rows, count - 1);
    }
  }

  /** A walk of one page for every fifty rows, the last perhaps short, draws every row once, in order, and ends there. */
  lemma AWalkDrawsTheList<Row(!new)>(lists: nat -> List<Row>, asked: Asked, pages: nat -> Option<Drawn<Row>>, shown: nat -> seq<Row>,
                                     rows: seq<Row>, count: nat)
    requires Walking(lists, asked, pages)
    requires forall k: nat :: shown(k) == Shown(lists(k), asked)
    requires forall k: nat :: shown(k) == rows
    requires count == (|rows| + 50 - 1) / 50
    ensures Walked(pages, count) == rows
    ensures forall k: nat :: pages(k).Some? <==> k == 0 || k < count
  {
    forall k: nat ensures IsSlice(pages(k), rows, k) { WalkDrawsTheSlices(lists, asked, pages, shown, rows, k); }
    WalkedSlices(pages, rows, count);
  }

  lemma WalkedSlices<Row(!new)>(pages: nat -> Option<Drawn<Row>>, rows: seq<Row>, count: nat)
    requires forall k: nat :: IsSlice(pages(k), rows, k)
    requires count == (|rows| + 50 - 1) / 50
    ensures Walked(pages, count) == rows
    ensures forall k: nat :: pages(k).Some? <==> k == 0 || k < count
  {
    WalkedIsAPrefix(pages, rows, count);
    Ceilings(count, |rows|, count);
    forall k: nat ensures pages(k).Some? <==> k == 0 || k < count {
      assert IsSlice(pages(k), rows, k);
      Ceilings(k, |rows|, count);
    }
  }

  lemma Ceilings(k: nat, n: nat, count: nat)
    requires count == (n + 50 - 1) / 50
    ensures 50 * k < n <==> k < count
  {
    assert 50 * count >= n && (count > 0 ==> 50 * (count - 1) < n);
  }
}
