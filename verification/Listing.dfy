/** Long lists: searched, cut to a segment, sorted, and drawn a page at a time. */
module Listing {
  import opened Options
  import opened Cursor
  import opened Whitespace

  const PAGE_ROWS := 50
  const Q_AT_MOST := 200

  datatype Asked = Asked(q: string, cut: bool, show: string, from: From)

  datatype Segment<!Row> = Segment(key: string, holds: Row -> bool)

  datatype Address = Address(path: string, fields: Fields)

  /** What one list is made of; the screen supplies it anew at every read. */
  datatype List<!Row> = List(
    rows: seq<Row>,
    path: string,
    segments: seq<Segment<Row>>,
    markOf: Row -> Mark,
    keys: nat,
    oldestFirst: bool,
    matches: (Row, string) -> bool,
    lowered: string -> string)

  datatype CutView = CutView(from: int, to: int, of: int, previous: Option<Address>, next: Option<Address>)

  datatype Drawn<+Row> = Drawn(rows: seq<Row>, cut: Option<CutView>, place: Fields)

  // ---- What the address asks ----

  /** Every no-break space an ordinary one. */
  function AsTyped(text: string): string {
    seq(|text|, i requires 0 <= i < |text| => if text[i] as int == 0xA0 then ' ' else text[i])
  }

  function OrEmpty(text: Option<string>): string {
    match text
    case Some(value) => value
    case None => ""
  }

  function FirstOf(segments: seq<string>): string {
    if segments == [] then "" else segments[0]
  }

  function AskedIn(query: Fields, segments: seq<string>, keys: nat): Asked {
    var show := Once(query, "show");
    var typed := Trim(AsTyped(OrEmpty(Once(query, "q"))));
    Asked(
      Trim(if |typed| > Q_AT_MOST then typed[..Q_AT_MOST] else typed),
      |typed| > Q_AT_MOST,
      if show.Some? && show.value in segments then show.value else FirstOf(segments),
      FromIn(query, keys))
  }

  function FieldsOf(asked: Asked, first: string): Fields {
    (if asked.q != "" then [("q", asked.q)] else [])
    + (if asked.show != first then [("show", asked.show)] else [])
    + FromFields(asked.from)
  }

  function AddressOf(path: string, asked: Asked, first: string): Address {
    Address(path, FieldsOf(asked, first))
  }

  function PlaceOf(path: string, fields: Fields, segments: seq<string>, keys: nat): Address {
    AddressOf(path, AskedIn(fields, segments, keys), FirstOf(segments))
  }

  // ---- The page ----

  function Order(oldestFirst: bool, one: Mark, other: Mark): real {
    if oldestFirst then Rising(one, other) else Rising(other, one)
  }

  /** The index of the first mark standing after the place, or at it where `at` asks so; none where no mark does. */
  function FindIndex(marks: seq<Mark>, oldestFirst: bool, place: Mark, at: bool): (i: Option<nat>)
    ensures i.Some? ==> i.value < |marks| && Stands(marks[i.value], oldestFirst, place, at)
    ensures forall j | 0 <= j < |marks| :: Stands(marks[j], oldestFirst, place, at) ==> i.Some? && i.value <= j
  {
    if marks == [] then None
    else if Stands(marks[0], oldestFirst, place, at) then Some(0)
    else
      match FindIndex(marks[1..], oldestFirst, place, at)
      case None =>
        assert forall j | 1 <= j < |marks| :: marks[j] == marks[1..][j - 1];
        None
      case Some(i) =>
        assert forall j | 1 <= j < |marks| :: marks[j] == marks[1..][j - 1];
        Some(i + 1)
  }

  predicate Stands(mark: Mark, oldestFirst: bool, place: Mark, at: bool) {
    if at then Order(oldestFirst, mark, place) >= 0.0 else Order(oldestFirst, mark, place) > 0.0
  }

  function Min(a: int, b: int): int { if a <= b then a else b }
  function Max(a: int, b: int): int { if a <= b then b else a }

  datatype Cut = Cut(start: int, end: int, from: From)

  function CutIn(marks: seq<Mark>, from: From, oldestFirst: bool): (cut: Cut)
    ensures 0 <= cut.start <= cut.end <= |marks|
  {
    var first := Cut(0, Min(PAGE_ROWS, |marks|), FirstPage);
    match from
    case FirstPage => first
    case After(place) =>
      (match FindIndex(marks, oldestFirst, place, false)
       case None =>
         var last := Max(0, |marks| - PAGE_ROWS);
         Cut(last, |marks|, if last == 0 then FirstPage else After(marks[last - 1]))
       case Some(start) => Cut(start, Min(start + PAGE_ROWS, |marks|), from))
    case Before(place) =>
      var found := FindIndex(marks, oldestFirst, place, true);
      var end := if found.None? then |marks| else found.value;
      if end == 0 then first else Cut(Max(0, end - PAGE_ROWS), end, from)
  }

  // ---- The list drawn ----

  function Filter<Row>(rows: seq<Row>, keep: Row -> bool): seq<Row> {
    if rows == [] then []
    else (if keep(rows[0]) then [rows[0]] else []) + Filter(rows[1..], keep)
  }

  function KeysOf<Row>(segments: seq<Segment<Row>>): seq<string> {
    seq(|segments|, i requires 0 <= i < |segments| => segments[i].key)
  }

  /** The segment shown: the first of that key, or the first of all. */
  function SegmentOf<Row>(segments: seq<Segment<Row>>, show: string): Option<Segment<Row>> {
    if segments == [] then None
    else if segments[0].key == show then Some(segments[0])
    else match SegmentOf(segments[1..], show)
         case Some(one) => if one.key == show then Some(one) else Some(segments[0])
         case None => Some(segments[0])
  }

  /** A row put where it belongs among rows in order, after any that stand level with it. */
  function Insert<Row>(rows: seq<Row>, row: Row, markOf: Row -> Mark, oldestFirst: bool): seq<Row> {
    if rows != [] && Order(oldestFirst, markOf(row), markOf(rows[|rows| - 1])) < 0.0
    then Insert(rows[..|rows| - 1], row, markOf, oldestFirst) + [rows[|rows| - 1]]
    else rows + [row]
  }

  function Sorted<Row>(rows: seq<Row>, markOf: Row -> Mark, oldestFirst: bool): seq<Row> {
    if rows == [] then []
    else Insert(Sorted(rows[..|rows| - 1], markOf, oldestFirst), rows[|rows| - 1], markOf, oldestFirst)
  }

  /** The rows the search and the segment hold, in the list's order. */
  function Shown<Row>(list: List<Row>, asked: Asked): seq<Row> {
    var words := list.lowered(asked.q);
    var found := if words == "" then list.rows else Filter(list.rows, row => list.matches(row, words));
    var segment := SegmentOf(list.segments, asked.show);
    var held := if segment.None? then found else Filter(found, segment.value.holds);
    Sorted(held, list.markOf, list.oldestFirst)
  }

  function Marks<Row>(rows: seq<Row>, markOf: Row -> Mark): (marks: seq<Mark>)
    ensures |marks| == |rows| && forall i | 0 <= i < |rows| :: marks[i] == markOf(rows[i])
  {
    seq(|rows|, i requires 0 <= i < |rows| => markOf(rows[i]))
  }

  function CutOf<Row>(list: List<Row>, asked: Asked): (cut: Cut)
    ensures 0 <= cut.start <= cut.end <= |Shown(list, asked)|
  {
    CutIn(Marks(Shown(list, asked), list.markOf), asked.from, list.oldestFirst)
  }

  function ListingOf<Row>(list: List<Row>, asked: Asked): Drawn<Row> {
    var first := FirstOf(KeysOf(list.segments));
    var shown := Shown(list, asked);
    var marks := Marks(shown, list.markOf);
    var cut := CutOf(list, asked);
    var here := asked.(from := cut.from);
    Drawn(
      shown[cut.start..cut.end],
      if cut.start == 0 && cut.end == |shown| then None
      else Some(CutView(
        cut.start + 1, cut.end, |shown|,
        if cut.start == 0 || cut.start >= |shown| then None
        else Some(AddressOf(list.path, here.(from := Before(marks[cut.start])), first)),
        if cut.end == |shown| || cut.end == 0 then None
        else Some(AddressOf(list.path, here.(from := After(marks[cut.end - 1])), first)))),
      FieldsOf(here, first))
  }

  /** What a link of a list leads to. */
  function Followed<Row>(list: List<Row>, address: Address): Drawn<Row> {
    ListingOf(list, AskedIn(address.fields, KeysOf(list.segments), list.keys))
  }
}
