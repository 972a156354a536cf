/** What a walk along the ways on of a list draws, while the list stands still and while rows arrive. */
module ListingWalks {
  import opened Options
  import opened Cursor
  import opened Listing
  import opened ListingAddresses
  import opened ListingPages

  // ---- A walk: where it starts, and where each click leads from there ----

  function Trail<P>(first: P, on: (nat, P) -> Option<P>, clicks: nat): Option<P> {
    if clicks == 0 then Some(first)
    else
      match Trail(first, on, clicks - 1)
      case None => None
      case Some(place) => on(clicks - 1, place)
  }

  /** One click of a walk is the picture of one step of another. */
  predicate Pictures<P(==), S>(on: (nat, P) -> Option<P>, goes: (nat, S) -> Option<S>, at: (nat, S) -> P, k: nat, place: S) {
    match goes(k, place)
    case None => on(k, at(k, place)).None?
    case Some(next) => on(k, at(k, place)).Some? && on(k, at(k, place)).value == at(k + 1, next)
  }

  /** A walk that is the picture of another at its start and at every click is its picture throughout. */
  lemma {:induction false} TrailsMatch<P(!new), S(!new)>(first: P, on: (nat, P) -> Option<P>, start: S, goes: (nat, S) -> Option<S>,
                                       at: (nat, S) -> P, clicks: nat)
    requires first == at(0, start)
    requires forall k: nat, place: S :: Pictures(on, goes, at, k, place)
    ensures Trail(first, on, clicks) == var place := Trail(start, goes, clicks);
                                        if place.None? then None else Some(at(clicks, place.value))
  {
    if clicks > 0 {
      TrailsMatch(first, on, start, goes, at, clicks - 1);
      var place := Trail(start, goes, clicks - 1);
      if place.Some? {
        assert Pictures(on, goes, at, clicks - 1, place.value);
      }
    }
  }

  /** The list's page at a cursor. */
  function At<Row>(list: List<Row>, asked: Asked, from: From): Drawn<Row> {
    ListingOf(list, asked.(cut := false, from := from))
  }

  /** Where a page's way on leads; none where it has none. */
  function WayOn<Row>(page: Drawn<Row>): Option<Address> {
    match page.cut
    case None => None
    case Some(cut) => cut.next
  }

  function ClickedOn<Row>(list: List<Row>, page: Drawn<Row>): Option<Drawn<Row>> {
    match WayOn(page)
    case None => None
    case Some(address) => Some(Followed(list, address))
  }

  /** The plain address of a search and a segment. */
  function Plain<Row>(list: List<Row>, asked: Asked): Address {
    AddressOf(list.path, asked.(from := FirstPage), FirstOf(KeysOf(list.segments)))
  }

  /**
   * The page after so many clicks on the way on from the plain address, the list read anew at every
   * click; none once a page had no way on.
   */
  function Visited<Row>(lists: nat -> List<Row>, asked: Asked, clicks: nat): Option<Drawn<Row>> {
    Trail(Followed(lists(0), Plain(lists(0), asked)), ClicksOn(lists), clicks)
  }

  function ClicksOn<Row>(lists: nat -> List<Row>): (nat, Drawn<Row>) -> Option<Drawn<Row>> {
    OnEach(lists, ClickedOn)
  }

  /** What a click does, each time to the list as it then is. */
  function OnEach<L, P, R>(lists: nat -> L, click: (L, P) -> R): (nat, P) -> R {
    (k: nat, page) => click(lists(k + 1), page)
  }

  // ---- The same walk over rows in order, cursor by cursor ----

  function CutFrom<Row>(shown: seq<Row>, markOf: Row -> Mark, oldestFirst: bool, from: From): (cut: Cut)
    ensures 0 <= cut.start <= cut.end <= |shown|
  {
    CutIn(Marks(shown, markOf), from, oldestFirst)
  }

  function PageRows<Row>(shown: seq<Row>, markOf: Row -> Mark, oldestFirst: bool, from: From): seq<Row> {
    var cut := CutFrom(shown, markOf, oldestFirst, from);
    shown[cut.start..cut.end]
  }

  function NextFrom<Row>(shown: seq<Row>, markOf: Row -> Mark, oldestFirst: bool, from: From): Option<From> {
    var cut := CutFrom(shown, markOf, oldestFirst, from);
    if cut.end == |shown| || cut.end == 0 then None else Some(After(markOf(shown[cut.end - 1])))
  }

  /** The cursor each page of a walk stands at. */
  function Reached<Row>(shown: nat -> seq<Row>, markOf: Row -> Mark, oldestFirst: bool, clicks: nat): Option<From> {
    if clicks == 0 then Some(FirstPage)
    else
      match Reached(shown, markOf, oldestFirst, clicks - 1)
      case None => None
      case Some(from) => NextFrom(shown(clicks - 1), markOf, oldestFirst, from)
  }

  lemma {:induction false} ReachedIsATrail<Row(!new)>(shown: nat -> seq<Row>, markOf: Row -> Mark, oldestFirst: bool,
                                                     goes: (nat, From) -> Option<From>, clicks: nat)
    requires forall k: nat, from :: goes(k, from) == NextFrom(shown(k), markOf, oldestFirst, from)
    ensures Reached(shown, markOf, oldestFirst, clicks) == Trail(FirstPage, goes, clicks)
  {
    if clicks > 0 { ReachedIsATrail(shown, markOf, oldestFirst, goes, clicks - 1); }
  }

  // ---- One click of the list is one step over its rows ----

  lemma LinkDraws<Row(!new)>(list: List<Row>, asked: Asked, from: From)
    requires Readable(asked, KeysOf(list.segments), list.keys)
    requires from.FirstPage? || (|from.mark.key| == list.keys && IsId(from.mark.id) && MarkText(from.mark).Some?)
    ensures var first := FirstOf(KeysOf(list.segments));
            Followed(list, AddressOf(list.path, asked.(from := from), first)) == At(list, asked, from)
  {
    WrittenReadsBack(asked.(from := from), KeysOf(list.segments), list.keys);
  }

  lemma ShownIgnoresPlace<Row(!new)>(list: List<Row>, asked: Asked, from: From)
    ensures Shown(list, asked.(cut := false, from := from)) == Shown(list, asked)
  {
  }

  /** A page is the range its cursor cuts, and its way on asks for what stands behind its last row. */
  lemma AtDraws<Row(!new)>(list: List<Row>, asked: Asked, from: From, shown: seq<Row>)
    requires shown == Shown(list, asked)
    ensures At(list, asked, from).rows == PageRows(shown, list.markOf, list.oldestFirst, from)
    ensures WayOn(At(list, asked, from)) ==
            var next := NextFrom(shown, list.markOf, list.oldestFirst, from);
            if next.None? then None
            else Some(AddressOf(list.path, asked.(from := next.value), FirstOf(KeysOf(list.segments))))
  {
    ShownIgnoresPlace(list, asked, from);
  }

  lemma ShownArePlaced<Row(!new)>(list: List<Row>, asked: Asked, row: Row)
    requires Placed(list) && row in Shown(list, asked)
    ensures var mark := list.markOf(row);
            |mark.key| == list.keys && IsId(mark.id) && MarkText(mark).Some?
  {
    ShownAreHeld(list, asked, row);
  }

  /** One list as two reads hold it: the rows may differ, nothing else does. */
  ghost predicate OneList<Row>(list: List<Row>, other: List<Row>) {
    && list.path == other.path && list.segments == other.segments && list.markOf == other.markOf
    && list.keys == other.keys && list.oldestFirst == other.oldestFirst
    && list.matches == other.matches && list.lowered == other.lowered
  }

  lemma WayOnLeads<Row(!new)>(list: List<Row>, other: List<Row>, asked: Asked, from: From, shown: seq<Row>)
    requires Placed(list) && OneList(list, other) && Readable(asked, KeysOf(list.segments), list.keys)
    requires shown == Shown(list, asked)
    ensures ClickedOn(other, At(list, asked, from)) ==
            var next := NextFrom(shown, list.markOf, list.oldestFirst, from);
            if next.None? then None else Some(At(other, asked, next.value))
  {
    AtDraws(list, asked, from, shown);
    var next := NextFrom(shown, list.markOf, list.oldestFirst, from);
    if next.Some? {
      ShownArePlaced(list, asked, shown[CutFrom(shown, list.markOf, list.oldestFirst, from).end - 1]);
      LinkDraws(other, asked, next.value);
    }
  }

  /** The list at every read of a walk: every row placed, nothing but the rows ever different. */
  ghost predicate Reads<Row(!new)>(lists: nat -> List<Row>, asked: Asked) {
    && Readable(asked, KeysOf(lists(0).segments), lists(0).keys)
    && forall k: nat :: Placed(lists(k)) && OneList(lists(0), lists(k))
  }

  lemma OneClick<Row(!new)>(lists: nat -> List<Row>, asked: Asked, k: nat, from: From)
    requires Reads(lists, asked)
    ensures ClickedOn(lists(k + 1), At(lists(k), asked, from)) ==
            var next := NextFrom(Shown(lists(k), asked), lists(0).markOf, lists(0).oldestFirst, from);
            if next.None? then None else Some(At(lists(k + 1), asked, next.value))
  {
    assert OneList(lists(k), lists(k + 1));
    WayOnLeads(lists(k), lists(k + 1), asked, from, Shown(lists(k), asked));
  }

  function GoesOver<Row>(lists: nat -> List<Row>, asked: Asked): (nat, From) -> Option<From> {
    (k: nat, from) => NextFrom(Shown(lists(k), asked), lists(0).markOf, lists(0).oldestFirst, from)
  }

  function PagesOf<Row>(lists: nat -> List<Row>, asked: Asked): (nat, From) -> Drawn<Row> {
    (k: nat, from) => At(lists(k), asked, from)
  }

  lemma ClicksMatch<Row(!new)>(lists: nat -> List<Row>, asked: Asked, on: (nat, Drawn<Row>) -> Option<Drawn<Row>>,
                               goes: (nat, From) -> Option<From>, at: (nat, From) -> Drawn<Row>)
    requires Reads(lists, asked)
    requires on == ClicksOn(lists) && goes == GoesOver(lists, asked) && at == PagesOf(lists, asked)
    ensures forall k: nat, from: From :: Pictures(on, goes, at, k, from)
  {
    forall k: nat, from: From ensures Pictures(on, goes, at, k, from) {
      ClickMatches(lists, asked, on, goes, at, k, from, ClickedOn(lists(k + 1), At(lists(k), asked, from)));
    }
  }

  lemma ClickMatches<Row(!new)>(lists: nat -> List<Row>, asked: Asked, on: (nat, Drawn<Row>) -> Option<Drawn<Row>>,
                                goes: (nat, From) -> Option<From>, at: (nat, From) -> Drawn<Row>, k: nat, from: From,
                                clicked: Option<Drawn<Row>>)
    requires Reads(lists, asked)
    requires on == ClicksOn(lists) && goes == GoesOver(lists, asked) && at == PagesOf(lists, asked)
    requires clicked == ClickedOn(lists(k + 1), At(lists(k), asked, from))
    ensures Pictures(on, goes, at, k, from)
  {
    OneClick(lists, asked, k, from);
    EachClick(lists, ClickedOn, k, at(k, from));
    PageOf(lists, asked, at, k, from);
  }

  lemma EachClick<L, P, R(!new)>(lists: nat -> L, click: (L, P) -> R, k: nat, page: P)
    ensures OnEach(lists, click)(k, page) == click(lists(k + 1), page)
  {
  }

  lemma PageOf<Row(!new)>(lists: nat -> List<Row>, asked: Asked, at: (nat, From) -> Drawn<Row>, k: nat, from: From)
    requires at == PagesOf(lists, asked)
    ensures at(k, from) == At(lists(k), asked, from)
  {
  }

  lemma GoesAreNext<Row(!new)>(lists: nat -> List<Row>, asked: Asked, shown: nat -> seq<Row>, goes: (nat, From) -> Option<From>)
    requires forall k: nat :: shown(k) == Shown(lists(k), asked)
    requires goes == GoesOver(lists, asked)
    ensures forall k: nat, from :: goes(k, from) == NextFrom(shown(k), lists(0).markOf, lists(0).oldestFirst, from)
  {
  }

  /** The pages visited are the pages at the cursors reached. */
  lemma VisitedIsReached<Row(!new)>(lists: nat -> List<Row>, asked: Asked, shown: nat -> seq<Row>, clicks: nat, from: Option<From>)
    requires Reads(lists, asked)
    requires forall k: nat :: shown(k) == Shown(lists(k), asked)
    requires from == Reached(shown, lists(0).markOf, lists(0).oldestFirst, clicks)
    ensures Visited(lists, asked, clicks) == if from.None? then None else Some(At(lists(clicks), asked, from.value))
  {
    var on, goes, at := ClicksOn(lists), GoesOver(lists, asked), PagesOf(lists, asked);
    ClicksMatch(lists, asked, on, goes, at);
    GoesAreNext(lists, asked, shown, goes);
    StartsMatch(lists, asked, at);
    TrailMeets(Followed(lists(0), Plain(lists(0), asked)), on, goes, at, shown, lists(0).markOf, lists(0).oldestFirst, clicks);
  }

  lemma StartsMatch<Row(!new)>(lists: nat -> List<Row>, asked: Asked, at: (nat, From) -> Drawn<Row>)
    requires Reads(lists, asked) && at == PagesOf(lists, asked)
    ensures Followed(lists(0), Plain(lists(0), asked)) == at(0, FirstPage)
  {
    LinkDraws(lists(0), asked, FirstPage);
  }

  lemma TrailMeets<Row(!new)>(first: Drawn<Row>, on: (nat, Drawn<Row>) -> Option<Drawn<Row>>, goes: (nat, From) -> Option<From>,
                              at: (nat, From) -> Drawn<Row>, shown: nat -> seq<Row>, markOf: Row -> Mark, oldestFirst: bool, clicks: nat)
    requires first == at(0, FirstPage)
    requires forall k: nat, from: From :: Pictures(on, goes, at, k, from)
    requires forall k: nat, from :: goes(k, from) == NextFrom(shown(k), markOf, oldestFirst, from)
    ensures Trail(first, on, clicks) == var from := Reached(shown, markOf, oldestFirst, clicks);
                                        if from.None? then None else Some(at(clicks, from.value))
  {
    TrailsMatch(first, on, FirstPage, goes, at, clicks);
    ReachedIsATrail(shown, markOf, oldestFirst, goes, clicks);
  }

  // ---- Back and on again ----

  /** Where a page's way back leads; none where it has none. */
  function WayBack<Row>(page: Drawn<Row>): Option<Address> {
    match page.cut
    case None => None
    case Some(cut) => cut.previous
  }

  lemma AtLeadsBack<Row(!new)>(list: List<Row>, asked: Asked, from: From, shown: seq<Row>, cut: Cut)
    requires shown == Shown(list, asked) && cut == CutFrom(shown, list.markOf, list.oldestFirst, from)
    ensures WayBack(At(list, asked, from)) ==
            if cut.start == 0 || cut.start >= |shown| then None
            else Some(AddressOf(list.path, asked.(from := Before(list.markOf(shown[cut.start]))), FirstOf(KeysOf(list.segments))))
  {
    ShownIgnoresPlace(list, asked, from);
  }

  /** Where the way back of a page leads: the page cut before its first row. */
  lemma BackLeads<Row(!new)>(list: List<Row>, asked: Asked, from: From, shown: seq<Row>, cut: Cut, page: Drawn<Row>)
    requires Placed(list) && Readable(asked, KeysOf(list.segments), list.keys)
    requires shown == Shown(list, asked) && cut == CutFrom(shown, list.markOf, list.oldestFirst, from)
    requires page == At(list, asked, from)
    ensures WayBack(page).Some? <==> 0 < cut.start < |shown|
    ensures WayBack(page).Some? ==>
              Followed(list, WayBack(page).value) == At(list, asked, Before(list.markOf(shown[cut.start])))
  {
    AtLeadsBack(list, asked, from, shown, cut);
    if 0 < cut.start < |shown| {
      ShownArePlaced(list, asked, shown[cut.start]);
      LinkDraws(list, asked, Before(list.markOf(shown[cut.start])));
    }
  }

  lemma OnLeads<Row(!new)>(list: List<Row>, asked: Asked, from: From, shown: seq<Row>, cut: Cut, page: Drawn<Row>)
    requires Placed(list) && Readable(asked, KeysOf(list.segments), list.keys)
    requires shown == Shown(list, asked) && cut == CutFrom(shown, list.markOf, list.oldestFirst, from)
    requires page == At(list, asked, from)
    ensures WayOn(page).Some? <==> 0 < cut.end < |shown|
    ensures WayOn(page).Some? ==>
              Followed(list, WayOn(page).value) == At(list, asked, After(list.markOf(shown[cut.end - 1])))
  {
    WayOnLeads(list, list, asked, from, shown);
  }

  lemma OrderedShown<Row(!new)>(list: List<Row>, asked: Asked, shown: seq<Row>)
    requires Placed(list) && shown == Shown(list, asked)
    ensures InOrder(Marks(shown, list.markOf), list.keys, list.oldestFirst)
  {
    ShownInOrder(list, asked);
  }

  lemma RowsAt<Row(!new)>(list: List<Row>, asked: Asked, from: From, shown: seq<Row>, cut: Cut)
    requires shown == Shown(list, asked) && cut == CutFrom(shown, list.markOf, list.oldestFirst, from)
    ensures At(list, asked, from).rows == shown[cut.start..cut.end]
  {
    AtDraws(list, asked, from, shown);
  }

  /** On from any page and back again draws that page's rows. */
  lemma OnAndBack<Row(!new)>(list: List<Row>, asked: Asked, from: From, page: Drawn<Row>, next: Drawn<Row>, shown: seq<Row>)
    requires Placed(list) && Readable(asked, KeysOf(list.segments), list.keys) && shown == Shown(list, asked)
    requires page == At(list, asked, from) && WayOn(page).Some? && next == Followed(list, WayOn(page).value)
    ensures WayBack(next).Some? && Followed(list, WayBack(next).value).rows == page.rows
  {
    var marks, cut := Marks(shown, list.markOf), CutFrom(shown, list.markOf, list.oldestFirst, from);
    OrderedShown(list, asked, shown);
    OnLeads(list, asked, from, shown, cut, page);
    NextLeadsBack(marks, list.keys, list.oldestFirst, from);
    var onto := After(marks[cut.end - 1]);
    BackLeads(list, asked, onto, shown, CutIn(marks, onto, list.oldestFirst), next);
    RowsAt(list, asked, from, shown, cut);
    RowsAt(list, asked, Before(marks[cut.end]), shown, CutIn(marks, Before(marks[cut.end]), list.oldestFirst));
  }

  /** Back from any page and on again draws that page's rows. */
  lemma BackAndOn<Row(!new)>(list: List<Row>, asked: Asked, from: From, page: Drawn<Row>, previous: Drawn<Row>, shown: seq<Row>)
    requires Placed(list) && Readable(asked, KeysOf(list.segments), list.keys) && shown == Shown(list, asked)
    requires page == At(list, asked, from) && WayBack(page).Some? && previous == Followed(list, WayBack(page).value)
    ensures WayOn(previous).Some? && Followed(list, WayOn(previous).value).rows == page.rows
  {
    var cut := CutFrom(shown, list.markOf, list.oldestFirst, from);
    BackLeadsTo(list, asked, from, page, previous, shown, cut);
    OrderedShown(list, asked, shown);
    PreviousEndsHere(shown, list.markOf, list.keys, list.oldestFirst, from, cut);
    OnFromBack(list, asked, shown, cut.start, cut.end, previous);
  }

  lemma BackLeadsTo<Row(!new)>(list: List<Row>, asked: Asked, from: From, page: Drawn<Row>, previous: Drawn<Row>, shown: seq<Row>, cut: Cut)
    requires Placed(list) && Readable(asked, KeysOf(list.segments), list.keys) && shown == Shown(list, asked)
    requires page == At(list, asked, from) && WayBack(page).Some? && previous == Followed(list, WayBack(page).value)
    requires cut == CutFrom(shown, list.markOf, list.oldestFirst, from)
    ensures 0 < cut.start < |shown| && previous == At(list, asked, Before(list.markOf(shown[cut.start])))
    ensures page.rows == shown[cut.start..cut.end]
  {
    BackLeads(list, asked, from, shown, cut, page);
    RowsAt(list, asked, from, shown, cut);
  }

  lemma PreviousEndsHere<Row(!new)>(shown: seq<Row>, markOf: Row -> Mark, keys: nat, oldestFirst: bool, from: From, cut: Cut)
    requires InOrder(Marks(shown, markOf), keys, oldestFirst)
    requires cut == CutFrom(shown, markOf, oldestFirst, from) && 0 < cut.start < |shown|
    ensures CutFrom(shown, markOf, oldestFirst, Before(markOf(shown[cut.start]))).end == cut.start
    ensures SameRows(CutFrom(shown, markOf, oldestFirst, After(markOf(shown[cut.start - 1]))), cut)
  {
    PreviousLeadsOn(Marks(shown, markOf), keys, oldestFirst, from);
  }

  lemma OnFromBack<Row(!new)>(list: List<Row>, asked: Asked, shown: seq<Row>, start: nat, end: nat, previous: Drawn<Row>)
    requires Placed(list) && Readable(asked, KeysOf(list.segments), list.keys) && shown == Shown(list, asked)
    requires 0 < start < |shown| && start <= end <= |shown| && previous == At(list, asked, Before(list.markOf(shown[start])))
    requires CutFrom(shown, list.markOf, list.oldestFirst, Before(list.markOf(shown[start]))).end == start
    requires SameRows(CutFrom(shown, list.markOf, list.oldestFirst, After(list.markOf(shown[start - 1]))), Cut(start, end, FirstPage))
    ensures WayOn(previous).Some? && Followed(list, WayOn(previous).value).rows == shown[start..end]
  {
    var back, onto := Before(list.markOf(shown[start])), After(list.markOf(shown[start - 1]));
    OnLeads(list, asked, back, shown, CutFrom(shown, list.markOf, list.oldestFirst, back), previous);
    RowsAt(list, asked, onto, shown, CutFrom(shown, list.markOf, list.oldestFirst, onto));
  }
}
