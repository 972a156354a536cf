/** The addresses a list writes are read back as the very page they were written for. */
module ListingAddresses {
  import opened Options
  import opened Cursor
  import opened Listing
  import opened Whitespace

  /** Words as a search keeps them: trimmed, within the bound, no no-break space among them. */
  predicate Kept(q: string) {
    && |q| <= 200 && Trimmed(q)
    && forall c | c in q :: c as int != 0xA0
  }

  /** What an address can ask for in so many words. */
  predicate Readable(asked: Asked, segments: seq<string>, keys: nat) {
    && Kept(asked.q)
    && (asked.show in segments || asked.show == FirstOf(segments))
    && (!asked.from.FirstPage? ==> |asked.from.mark.key| == keys && IsId(asked.from.mark.id))
  }

  /** Whatever the address holds, what is read of it is readable. */
  lemma AskedIsReadable(query: Fields, segments: seq<string>, keys: nat)
    ensures Readable(AskedIn(query, segments, keys), segments, keys)
  {
    var raw := AsTyped(OrEmpty(Once(query, "q")));
    var typed := Trim(raw);
    TrimTrims(raw);
    var kept := if |typed| > Q_AT_MOST then typed[..Q_AT_MOST] else typed;
    TrimTrims(kept);
    forall c | c in Trim(kept) ensures c as int != 0xA0 {
      assert c in kept && c in typed && c in raw;
    }
    if !FromIn(query, keys).FirstPage? {
      var text := if FromIn(query, keys).After? then Once(query, "after").value else Once(query, "before").value;
      ReadPrintsAgain(text, keys);
    }
  }

  /**
   * What is asked: the words typed, without white space at their ends, of more than two hundred characters the first
   * two hundred; and the segment named once, if there is one of that key, else the first, if there is any.
   */
  lemma WhatIsAsked(query: Fields, segments: seq<string>, keys: nat, typed: string)
    requires IsTyped(if Once(query, "q").Some? then Once(query, "q").value else "", typed)
    ensures var asked := AskedIn(query, segments, keys);
            && (asked.cut <==> |typed| > 200) && (!asked.cut ==> asked.q == typed)
            && (asked.cut ==> exists spaces :: AllSpace(spaces) && typed[..200] == asked.q + spaces)
            && Trimmed(asked.q)
            && (if Once(query, "show").Some? && Once(query, "show").value in segments then asked.show == Once(query, "show").value
                else if |segments| > 0 then asked.show == segments[0] else asked.show == [])
  {
    var given := if Once(query, "q").Some? then Once(query, "q").value else "";
    TypedIs(given, typed);
    TrimTrims(AsTyped(given));
    if |typed| > 200 {
      var before, after := TrimTakesTheEnds(typed[..200]);
      TrimStartStays(typed[..200]);
      var spaces := TrimEndTakes(typed[..200]);
    } else {
      TrimStartStays(typed);
      TrimEndStays(typed);
    }
  }

  /** A text as it counts: no-break spaces are spaces, and it has none at its ends. */
  ghost predicate IsTyped(given: string, typed: string) {
    && Trimmed(typed)
    && exists before, after ::
         && AllSpace(before) && AllSpace(after) && |before + typed + after| == |given|
         && forall i | 0 <= i < |given| :: (before + typed + after)[i] == if given[i] == '\U{00A0}' then ' ' else given[i]
  }

  lemma TypedIs(given: string, typed: string)
    requires IsTyped(given, typed)
    ensures typed == Trim(AsTyped(given))
  {
    var before, after :| && AllSpace(before) && AllSpace(after) && |before + typed + after| == |given|
                         && forall i | 0 <= i < |given| :: (before + typed + after)[i] == if given[i] == '\U{00A0}' then ' ' else given[i];
    assert AsTyped(given) == before + typed + after by {
      assert '\U{00A0}' as int == 0xA0;
      forall i | 0 <= i < |given| ensures AsTyped(given)[i] == (before + typed + after)[i] {
        assert given[i] as int == 0xA0 <==> given[i] == '\U{00A0}';
      }
    }
    TrimBetween(before, typed, after);
  }

  lemma KeptReadsBack(q: string)
    requires Kept(q)
    ensures Trim(AsTyped(q)) == q
  {
    forall i | 0 <= i < |q| ensures AsTyped(q)[i] == q[i] {
      assert q[i] in q;
    }
    assert AsTyped(q) == q;
  }

  lemma {:induction false} ValuesSplit(one: Fields, other: Fields, name: string)
    ensures Values(one + other, name) == Values(one, name) + Values(other, name)
  {
    if one == [] {
      assert one + other == other;
    } else {
      assert (one + other)[1..] == one[1..] + other;
      ValuesSplit(one[1..], other, name);
    }
  }

  lemma OneField(field: (string, string), name: string)
    ensures Values([field], name) == if field.0 == name then [field.1] else []
  {
    assert [field][1..] == [];
  }

  lemma NamesDiffer()
    ensures "q" != "show" && "q" != "after" && "q" != "before"
    ensures "show" != "after" && "show" != "before" && "after" != "before"
  {
    assert |"q"| == 1 && |"show"| == 4 && |"after"| == 5 && |"before"| == 6;
  }

  /** What each name is given in the fields of an address. */
  lemma FieldsNameOnce(asked: Asked, first: string)
    ensures var fields := FieldsOf(asked, first);
            && Values(fields, "q") == (if asked.q != "" then [asked.q] else [])
            && Values(fields, "show") == (if asked.show != first then [asked.show] else [])
            && Values(fields, "after") == Values(FromFields(asked.from), "after")
            && Values(fields, "before") == Values(FromFields(asked.from), "before")
  {
    NamesDiffer();
    var q := if asked.q != "" then [("q", asked.q)] else [];
    var show := if asked.show != first then [("show", asked.show)] else [];
    var from := FromFields(asked.from);
    forall name | name in {"q", "show", "after", "before"}
      ensures Values(FieldsOf(asked, first), name) == Values(q, name) + Values(show, name) + Values(from, name)
    {
      ValuesSplit(q + show, from, name);
      ValuesSplit(q, show, name);
    }
    forall name ensures Values(q, name) == (if asked.q != "" && name == "q" then [asked.q] else []) {
      OneField(("q", asked.q), name);
    }
    forall name ensures Values(show, name) == (if asked.show != first && name == "show" then [asked.show] else []) {
      OneField(("show", asked.show), name);
    }
    if from != [] {
      OneField(from[0], "q");
      OneField(from[0], "show");
    }
  }

  /** The cursor an address carries: none where its place cannot be printed. */
  function Carries(from: From): From {
    if !from.FirstPage? && MarkText(from.mark).Some? then from else FirstPage
  }

  lemma CursorReadsBack(fields: Fields, from: From, keys: nat)
    requires !from.FirstPage? ==> |from.mark.key| == keys && IsId(from.mark.id)
    requires Values(fields, "after") == Values(FromFields(from), "after")
    requires Values(fields, "before") == Values(FromFields(from), "before")
    ensures FromIn(fields, keys) == Carries(from)
  {
    OnceWritten(from, keys);
  }

  lemma WordsReadBack(fields: Fields, q: string)
    requires Kept(q) && Values(fields, "q") == if q != "" then [q] else []
    ensures Trim(AsTyped(OrEmpty(Once(fields, "q")))) == q && Trim(q) == q
  {
    KeptReadsBack(q);
    KeptReadsBack("");
    forall i | 0 <= i < |q| ensures AsTyped(q)[i] == q[i] { assert q[i] in q; }
    assert AsTyped(q) == q;
  }

  /** What is read of fields that name each thing once at most. */
  lemma FieldsReadBack(fields: Fields, asked: Asked, segments: seq<string>, keys: nat)
    requires Kept(asked.q) && (asked.show in segments || asked.show == FirstOf(segments))
    requires Values(fields, "q") == if asked.q != "" then [asked.q] else []
    requires Values(fields, "show") == if asked.show != FirstOf(segments) then [asked.show] else []
    ensures AskedIn(fields, segments, keys) == asked.(cut := false, from := FromIn(fields, keys))
  {
    WordsReadBack(fields, asked.q);
  }

  /** An address reads back as what it was written for, a place it cannot carry left out. */
  lemma WrittenReadsBack(asked: Asked, segments: seq<string>, keys: nat)
    requires Readable(asked, segments, keys)
    ensures AskedIn(FieldsOf(asked, FirstOf(segments)), segments, keys)
         == asked.(cut := false, from := Carries(asked.from))
  {
    var fields := FieldsOf(asked, FirstOf(segments));
    FieldsNameOnce(asked, FirstOf(segments));
    CursorReadsBack(fields, asked.from, keys);
    FieldsReadBack(fields, asked, segments, keys);
  }

  /** Every row stands at a place of the list's own count of numbers, its identifier one an address can carry. */
  ghost predicate Named<Row>(list: List<Row>) {
    forall row | row in list.rows :: |list.markOf(row).key| == list.keys && IsId(list.markOf(row).id)
  }

  lemma {:induction false} FilterKeeps<Row>(rows: seq<Row>, keep: Row -> bool, row: Row)
    ensures row in Filter(rows, keep) <==> row in rows && keep(row)
  {
    if rows != [] { FilterKeeps(rows[1..], keep, row); assert rows == [rows[0]] + rows[1..]; }
  }

  lemma {:induction false} InsertKeeps<Row>(rows: seq<Row>, row: Row, markOf: Row -> Mark, oldestFirst: bool)
    ensures multiset(Insert(rows, row, markOf, oldestFirst)) == multiset(rows) + multiset{row}
  {
    if rows != [] {
      var last := |rows| - 1;
      assert rows == rows[..last] + [rows[last]];
      InsertKeeps(rows[..last], row, markOf, oldestFirst);
    }
  }

  /** Sorting loses no row and adds none. */
  lemma {:induction false} SortedKeeps<Row>(rows: seq<Row>, markOf: Row -> Mark, oldestFirst: bool)
    ensures multiset(Sorted(rows, markOf, oldestFirst)) == multiset(rows)
  {
    if rows != [] {
      var last := |rows| - 1;
      assert rows == rows[..last] + [rows[last]];
      SortedKeeps(rows[..last], markOf, oldestFirst);
      InsertKeeps(Sorted(rows[..last], markOf, oldestFirst), rows[last], markOf, oldestFirst);
    }
  }

  /** Whether the search and the segment hold a row. */
  predicate Holds<Row>(list: List<Row>, asked: Asked, row: Row) {
    && (list.lowered(asked.q) != "" ==> list.matches(row, list.lowered(asked.q)))
    && var segment := SegmentOf(list.segments, asked.show);
       segment.Some? ==> segment.value.holds(row)
  }

  /** Which segment is asked for: the first of that key, or the first of all where none has it. */
  predicate IsAskedFor<Row>(list: List<Row>, show: string, i: nat)
    requires i < |list.segments|
  {
    if exists j | 0 <= j < |list.segments| :: list.segments[j].key == show
    then list.segments[i].key == show && forall j | 0 <= j < i :: list.segments[j].key != show
    else i == 0
  }

  lemma {:induction false} SegmentIsAskedFor<Row>(segments: seq<Segment<Row>>, show: string)
    ensures (exists j | 0 <= j < |segments| :: segments[j].key == show) ==>
              exists j | 0 <= j < |segments| ::
                segments[j].key == show && SegmentOf(segments, show) == Some(segments[j]) && forall l | 0 <= l < j :: segments[l].key != show
    ensures (forall j | 0 <= j < |segments| :: segments[j].key != show) && segments != [] ==> SegmentOf(segments, show) == Some(segments[0])
    ensures segments == [] ==> SegmentOf(segments, show).None?
  {
    if segments != [] && segments[0].key != show {
      var rest := segments[1..];
      SegmentIsAskedFor(rest, show);
      assert forall j | 0 <= j < |rest| :: rest[j] == segments[j + 1];
      if j :| 0 <= j < |segments| && segments[j].key == show {
        assert rest[j - 1].key == show;
        var at :| 0 <= at < |rest| && rest[at].key == show && SegmentOf(rest, show) == Some(rest[at]) && forall l | 0 <= l < at :: rest[l].key != show;
        assert segments[at + 1] == rest[at];
        forall l | 0 <= l < at + 1 ensures segments[l].key != show {
          if l > 0 { assert rest[l - 1] == segments[l]; }
        }
      } else {
        assert forall j | 0 <= j < |rest| :: rest[j].key != show;
      }
    }
  }

  /** A row is shown exactly where the list has it, the words searched for match it, and the segment asked for holds it. */
  lemma ShownOfTheSegment<Row>(list: List<Row>, asked: Asked, i: nat, row: Row)
    requires i < |list.segments| && IsAskedFor(list, asked.show, i)
    ensures row in Shown(list, asked) <==>
              && row in list.rows && list.segments[i].holds(row)
              && (list.lowered(asked.q) == "" || list.matches(row, list.lowered(asked.q)))
  {
    OneIsAskedFor(list, asked.show, i);
    ShownAreHeld(list, asked, row);
    HeldByIt(list, asked, row, list.segments[i]);
  }

  lemma OneIsAskedFor<Row>(list: List<Row>, show: string, i: nat)
    requires i < |list.segments| && IsAskedFor(list, show, i)
    ensures SegmentOf(list.segments, show) == Some(list.segments[i])
  {
    SegmentIsAskedFor(list.segments, show);
  }

  lemma HeldByIt<Row>(list: List<Row>, asked: Asked, row: Row, segment: Segment<Row>)
    requires SegmentOf(list.segments, asked.show) == Some(segment)
    ensures Holds(list, asked, row) <==>
              segment.holds(row) && (list.lowered(asked.q) == "" || list.matches(row, list.lowered(asked.q)))
  {
  }

  lemma ShownOfNoSegment<Row>(list: List<Row>, asked: Asked, row: Row)
    requires list.segments == []
    ensures row in Shown(list, asked) <==> row in list.rows && (list.lowered(asked.q) == "" || list.matches(row, list.lowered(asked.q)))
  {
    ShownAreHeld(list, asked, row);
  }

  lemma ShownAreHeld<Row>(list: List<Row>, asked: Asked, row: Row)
    ensures row in Shown(list, asked) <==> row in list.rows && Holds(list, asked, row)
  {
    var words := list.lowered(asked.q);
    var matching := r => list.matches(r, words);
    var found := if words == "" then list.rows else Filter(list.rows, matching);
    FilterKeeps(list.rows, matching, row);
    var segment := SegmentOf(list.segments, asked.show);
    var held := if segment.None? then found else Filter(found, segment.value.holds);
    if segment.Some? { FilterKeeps(found, segment.value.holds, row); }
    SortedKeeps(held, list.markOf, list.oldestFirst);
    assert row in Sorted(held, list.markOf, list.oldestFirst) <==> row in multiset(held);
    assert Shown(list, asked) == Sorted(held, list.markOf, list.oldestFirst);
  }

  /** A page stands where its cursor asked, at the start, or right behind the fifty-first row from the end. */
  lemma CutStandsAt(marks: seq<Mark>, from: From, oldestFirst: bool)
    ensures var cut := CutIn(marks, from, oldestFirst);
            || cut.from == from || cut.from.FirstPage?
            || (|marks| > 50 && cut.from == After(marks[|marks| - 50 - 1]))
  {
  }

  /** The page drawn is asked for by an address that can be read. */
  lemma DrawnIsReadable<Row>(list: List<Row>, query: Fields)
    requires Named(list)
    ensures var segments := KeysOf(list.segments);
            var asked := AskedIn(query, segments, list.keys);
            Readable(asked.(from := CutOf(list, asked).from), segments, list.keys)
  {
    var asked := AskedIn(query, KeysOf(list.segments), list.keys);
    AskedIsReadable(query, KeysOf(list.segments), list.keys);
    PageIsReadable(list, asked);
  }

  lemma PageIsReadable<Row>(list: List<Row>, asked: Asked)
    requires Named(list) && Readable(asked, KeysOf(list.segments), list.keys)
    ensures Readable(asked.(from := CutOf(list, asked).from), KeysOf(list.segments), list.keys)
  {
    var shown := Shown(list, asked);
    CutStandsAt(Marks(shown, list.markOf), asked.from, list.oldestFirst);
    if 50 < |shown| { ShownAreHeld(list, asked, shown[|shown| - 50 - 1]); }
  }

  /** A form posted from the list leads back to the address of the page drawn, whatever address drew it. */
  lemma PlaceLeadsBack<Row>(list: List<Row>, query: Fields)
    requires Named(list)
    ensures var segments := KeysOf(list.segments);
            var asked := AskedIn(query, segments, list.keys);
            PlaceOf(list.path, ListingOf(list, asked).place, segments, list.keys)
              == AddressOf(list.path, asked.(from := CutOf(list, asked).from), FirstOf(segments))
  {
    var segments := KeysOf(list.segments);
    var asked := AskedIn(query, segments, list.keys);
    DrawnIsReadable(list, query);
    WrittenReadsBack(asked.(from := CutOf(list, asked).from), segments, list.keys);
  }
}
