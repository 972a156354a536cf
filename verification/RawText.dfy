/** How much text a page holds as written, read event by event. */
module RawText {
  import opened Options
  import opened Whitespace
  import opened PageTree

  const HIDDEN_TEXT: set<string> := {"script", "style", "noscript", "template"}

  /** Whether an element's raw content is text a reader is shown. */
  predicate HoldsText(name: string) {
    name == "textarea" || name == "title"
  }

  /** What a reader keeps of one event: a space for each tag, and the text outside elements that hide it. */
  function Part(hidden: seq<string>, event: Event): string {
    match event
    case TextRead(text) => if hidden == [] then text else ""
    case StartTag(_) => " "
    case EndTag(_) => " "
    case Content(tag, text) => if hidden == [] && HoldsText(tag.name) then text else ""
  }

  function PartsOf(hides: set<string>, hidden: seq<string>, events: seq<Event>): string
    decreases events
  {
    if events == [] then "" else Part(hidden, events[0]) + PartsOf(hides, Stacked(hides, hidden, events[0]), events[1..])
  }

  function Joined(parts: seq<string>): string {
    if parts == [] then "" else Joined(parts[..|parts| - 1]) + parts[|parts| - 1]
  }

  lemma {:induction false} PartsSplit(hides: set<string>, hidden: seq<string>, one: seq<Event>, other: seq<Event>)
    ensures PartsOf(hides, hidden, one + other) == PartsOf(hides, hidden, one) + PartsOf(hides, StackedAll(hides, hidden, one), other)
    decreases one
  {
    if one == [] {
      assert one + other == other;
    } else {
      assert (one + other)[1..] == one[1..] + other;
      PartsSplit(hides, Stacked(hides, hidden, one[0]), one[1..], other);
    }
  }

  lemma FirstPart(hides: set<string>, hidden: seq<string>, event: Event, rest: seq<Event>)
    ensures PartsOf(hides, hidden, [event] + rest) == Part(hidden, event) + PartsOf(hides, Stacked(hides, hidden, event), rest)
  {
    assert ([event] + rest)[1..] == rest;
  }

  lemma OneMorePart(hides: set<string>, read: seq<Event>, event: Event)
    ensures PartsOf(hides, [], read + [event]) == PartsOf(hides, [], read) + Part(StackedAll(hides, [], read), event)
    ensures StackedAll(hides, [], read + [event]) == Stacked(hides, StackedAll(hides, [], read), event)
  {
    PartsSplit(hides, [], read, [event]);
    StackedSplits(hides, [], read, [event]);
    OneEvent(hides, StackedAll(hides, [], read), event);
    assert [event] + [] == [event];
    FirstPart(hides, StackedAll(hides, [], read), event, []);
  }

  /** Each event adds a space for a tag, text where nothing that hides is open, and of raw content a textarea's and a title's. */
  lemma WhatOneEventAdds(hides: set<string>, read: seq<Event>, event: Event)
    ensures PartsOf(hides, [], read + [event]) == PartsOf(hides, [], read) +
              match event
              case StartTag(_) => " "
              case EndTag(_) => " "
              case TextRead(text) => if StackedAll(hides, [], read) == [] then text else ""
              case Content(tag, text) =>
                if StackedAll(hides, [], read) == [] && (tag.name == "title" || tag.name == "textarea") then text else ""
  {
    OneMorePart(hides, read, event);
  }

  lemma JoinedOfMore(parts: seq<string>, part: string)
    ensures Joined(parts + [part]) == Joined(parts) + part
  {
    assert (parts + [part])[..|parts|] == parts;
  }

  class TextReader {
    const hides: set<string>
    var parts: seq<string>
    var hidden: seq<string>
    ghost var read: seq<Event>

    ghost predicate Valid()
      reads this
    {
      hidden == StackedAll(hides, [], read) && Joined(parts) == PartsOf(hides, [], read)
    }

    constructor (hides: set<string>)
      ensures Valid() && read == [] && this.hides == hides
    {
      this.hides := hides;
      parts, hidden, read := [], [], [];
    }

    method Push(part: string)
      modifies this`parts
      ensures Joined(parts) == Joined(old(parts)) + part
    {
      JoinedOfMore(parts, part);
      parts := parts + [part];
    }

    method Read(event: Event)
      requires Valid()
      modifies this
      ensures Valid() && read == old(read) + [event]
    {
      OneMorePart(hides, read, event);
      read := read + [event];
      match event {
        case TextRead(text) =>
          if |hidden| == 0 { Push(text); }
        case StartTag(tag) =>
          Push(" ");
          if tag.name in hides { hidden := hidden + [tag.name]; }
        case EndTag(name) =>
          if |hidden| > 0 && hidden[|hidden| - 1] == name { hidden := hidden[..|hidden| - 1]; }
          Push(" ");
        case Content(tag, text) =>
          if |hidden| == 0 && HoldsText(tag.name) { Push(text); }
      }
    }
  }

  /** The characters of text in a page, as the events of reading it count them. */
  method RawTextCharacterCount(events: seq<Event>) returns (count: nat)
    ensures var hides := {"script", "style", "noscript", "template"};
            && count == TextLength(PartsOf(hides, [], events))
            && forall forest | events == Events(forest) && Strays(hides, [], forest) :: count == TextLength(TextOf(hides, forest))
  {
    var reader := new TextReader(HIDDEN_TEXT);
    for i := 0 to |events|
      invariant reader.Valid() && reader.read == events[..i] && reader.hides == HIDDEN_TEXT
      invariant fresh(reader)
    {
      assert events[..i + 1] == events[..i] + [events[i]];
      reader.Read(events[i]);
    }
    assert events[..|events|] == events;
    count := TextLength(Joined(reader.parts));
    forall forest | events == Events(forest) && Strays(HIDDEN_TEXT, [], forest) ensures count == TextLength(TextOf(HIDDEN_TEXT, forest)) {
      CountIsOfTheTree(forest);
    }
  }

  // ---- The same over the tree ----

  /**
   * A page's text, a space for each tag and none of what an element that hides holds; one that hides and is
   * never closed, wherever it stands, hides all that follows it too.
   */
  function TextOf(hides: set<string>, forest: Forest): string {
    match forest
    case Nothing => ""
    case Text(text, rest) => text + TextOf(hides, rest)
    case Unclosed(tag, rest) => " " + if tag.name in hides then "" else TextOf(hides, rest)
    case Stray(_, rest) => " " + TextOf(hides, rest)
    case Raw(tag, content, rest) => (" " + (if HoldsText(tag.name) then content else "") + " ") + TextOf(hides, rest)
    case Element(tag, children, rest) =>
      " " + ((if tag.name in hides then "" else TextOf(hides, children))
             + (if Closed(hides, children) then " " + TextOf(hides, rest) else ""))
  }

  /** The page with every element that hides gone, a tag that holds nothing in its place. */
  function Shown(hides: set<string>, forest: Forest): Forest {
    match forest
    case Nothing => Nothing
    case Text(text, rest) => Text(text, Shown(hides, rest))
    case Unclosed(tag, rest) => Unclosed(tag, Shown(hides, rest))
    case Stray(name, rest) => Stray(name, Shown(hides, rest))
    case Raw(tag, content, rest) =>
      if tag.name in hides then Unclosed(Tag("br", map[]), Shown(hides, rest)) else Raw(tag, content, Shown(hides, rest))
    case Element(tag, children, rest) =>
      if tag.name in hides then Unclosed(Tag("br", map[]), Shown(hides, rest))
      else Element(tag, Shown(hides, children), Shown(hides, rest))
  }

  // ---- The reader counts what the tree shows ----

  lemma RawParts(hides: set<string>, hidden: seq<string>, tag: Tag, content: string)
    requires HoldsText(tag.name) ==> tag.name !in hides
    ensures PartsOf(hides, hidden, [StartTag(tag), Content(tag, content), EndTag(tag.name)])
         == " " + (if hidden == [] && HoldsText(tag.name) then content else "") + " "
  {
    var within := Stacked(hides, hidden, StartTag(tag));
    FirstPart(hides, hidden, StartTag(tag), [Content(tag, content), EndTag(tag.name)]);
    FirstPart(hides, within, Content(tag, content), [EndTag(tag.name)]);
    FirstPart(hides, within, EndTag(tag.name), []);
    assert [StartTag(tag)] + [Content(tag, content), EndTag(tag.name)] == [StartTag(tag), Content(tag, content), EndTag(tag.name)];
    assert [Content(tag, content)] + [EndTag(tag.name)] == [Content(tag, content), EndTag(tag.name)];
    assert [EndTag(tag.name)] + [] == [EndTag(tag.name)];
  }

  /** An element's parts: a space for each of its tags, around what it holds. */
  lemma ElementParts(hides: set<string>, hidden: seq<string>, tag: Tag, children: Forest, rest: Forest,
                     within: seq<string>, inner: seq<string>, grown: seq<string>)
    requires within == Stacked(hides, hidden, StartTag(tag))
    requires StackedAll(hides, within, Events(children)) == within + inner
    requires Stacked(hides, within + inner, EndTag(tag.name)) == hidden + grown
    ensures PartsOf(hides, hidden, Events(Element(tag, children, rest)))
         == " " + (PartsOf(hides, within, Events(children)) + (" " + PartsOf(hides, hidden + grown, Events(rest))))
  {
    var tail := [EndTag(tag.name)] + Events(rest);
    ElementEvents([StartTag(tag)], Events(children), [EndTag(tag.name)], Events(rest));
    FirstPart(hides, hidden, StartTag(tag), Events(children) + tail);
    PartsSplit(hides, within, Events(children), tail);
    FirstPart(hides, within + inner, EndTag(tag.name), Events(rest));
  }

  lemma ElementEvents(start: seq<Event>, children: seq<Event>, end: seq<Event>, rest: seq<Event>)
    ensures start + children + end + rest == start + (children + (end + rest))
  {
  }

  /** Where the raw contents shown as text do not hide. */
  predicate Apart(hides: set<string>) {
    "textarea" !in hides && "title" !in hides
  }

  /** Inside an element that hides a reader keeps spaces and nothing else. */
  lemma {:induction false} OnlySpacesInside(hides: set<string>, hidden: seq<string>, forest: Forest)
    requires Apart(hides) && Hiding(hides, hidden) && hidden != [] && Strays(hides, hidden, forest)
    ensures Spaces(PartsOf(hides, hidden, Events(forest)))
    decreases forest, 1
  {
    match forest {
      case Nothing =>
      case Text(text, rest) =>
        FirstPart(hides, hidden, TextRead(text), Events(rest));
        OnlySpacesInside(hides, hidden, rest);
      case Unclosed(tag, rest) =>
        FirstPart(hides, hidden, StartTag(tag), Events(rest));
        OnlySpacesInside(hides, Stacked(hides, hidden, StartTag(tag)), rest);
      case Stray(name, rest) =>
        FirstPart(hides, hidden, EndTag(name), Events(rest));
        OnlySpacesInside(hides, hidden, rest);
      case Raw(tag, content, rest) =>
        PartsSplit(hides, hidden, [StartTag(tag), Content(tag, content), EndTag(tag.name)], Events(rest));
        RawParts(hides, hidden, tag, content);
        RawLeavesNothing(hides, hidden, tag, content);
        OnlySpacesInside(hides, hidden, rest);
      case Element(tag, children, rest) =>
        OnlySpacesInsideElement(hides, hidden, tag, children, rest);
    }
  }

  lemma {:induction false} OnlySpacesInsideElement(hides: set<string>, hidden: seq<string>, tag: Tag, children: Forest, rest: Forest)
    requires Apart(hides) && Hiding(hides, hidden) && hidden != [] && Strays(hides, hidden, Element(tag, children, rest))
    ensures Spaces(PartsOf(hides, hidden, Events(Element(tag, children, rest))))
    decreases Element(tag, children, rest), 0
  {
    var within := Stacked(hides, hidden, StartTag(tag));
    var inner := WhatIsLeftOpen(hides, within, children);
    var grown := ElementLeaves(hides, hidden, tag, inner);
    ElementParts(hides, hidden, tag, children, rest, within, inner, grown);
    HidingJoins(hides, hidden, grown);
    OnlySpacesInside(hides, within, children);
    OnlySpacesInside(hides, hidden + grown, rest);
    SpacesJoin(PartsOf(hides, within, Events(children)), " " + PartsOf(hides, hidden + grown, Events(rest)));
  }

  predicate EndsSpaced(text: string) {
    text != "" && IsSpace(text[|text| - 1])
  }

  lemma EndsAsItsEnd(one: string, text: string)
    requires EndsSpaced(text)
    ensures EndsSpaced(one + text)
  {
  }

  /** Where something that hides stays open, the text of the tree ends in a space. */
  lemma {:induction false} EndsInASpace(hides: set<string>, forest: Forest)
    requires !Closed(hides, forest)
    ensures EndsSpaced(TextOf(hides, forest))
  {
    match forest {
      case Text(text, rest) =>
        EndsInASpace(hides, rest);
        EndsAsItsEnd(text, TextOf(hides, rest));
      case Unclosed(tag, rest) =>
        if tag.name !in hides {
          EndsInASpace(hides, rest);
          EndsAsItsEnd(" ", TextOf(hides, rest));
        }
      case Stray(_, rest) =>
        EndsInASpace(hides, rest);
        EndsAsItsEnd(" ", TextOf(hides, rest));
      case Raw(tag, content, rest) =>
        EndsInASpace(hides, rest);
        EndsAsItsEnd(" " + (if HoldsText(tag.name) then content else "") + " ", TextOf(hides, rest));
      case Element(tag, children, rest) =>
        if Closed(hides, children) {
          var kids := if tag.name in hides then "" else TextOf(hides, children);
          EndsInASpace(hides, rest);
          EndsAsItsEnd(" ", TextOf(hides, rest));
          EndsAsItsEnd(kids, " " + TextOf(hides, rest));
          EndsAsItsEnd(" ", kids + (" " + TextOf(hides, rest)));
        } else if tag.name !in hides {
          EndsInASpace(hides, children);
          assert TextOf(hides, children) + "" == TextOf(hides, children);
          EndsAsItsEnd(" ", TextOf(hides, children));
        }
    }
  }

  /** For every page, closed or not: what the reader keeps is the text of the tree, its runs of white space aside. */
  lemma {:induction false} PartsAreOfTheTree(hides: set<string>, forest: Forest)
    requires Apart(hides) && Strays(hides, [], forest)
    ensures Alike(PartsOf(hides, [], Events(forest)), TextOf(hides, forest))
    decreases forest, 1
  {
    match forest {
      case Nothing =>
      case Text(text, rest) =>
        FirstPart(hides, [], TextRead(text), Events(rest));
        PartsAreOfTheTree(hides, rest);
        AlikeBehind(text, PartsOf(hides, [], Events(rest)), TextOf(hides, rest));
      case Unclosed(tag, rest) =>
        UnclosedParts(hides, tag, rest);
      case Stray(name, rest) =>
        FirstPart(hides, [], EndTag(name), Events(rest));
        PartsAreOfTheTree(hides, rest);
        AlikeBehind(" ", PartsOf(hides, [], Events(rest)), TextOf(hides, rest));
      case Raw(tag, content, rest) =>
        PartsSplit(hides, [], [StartTag(tag), Content(tag, content), EndTag(tag.name)], Events(rest));
        RawParts(hides, [], tag, content);
        RawLeavesNothing(hides, [], tag, content);
        PartsAreOfTheTree(hides, rest);
        AlikeBehind(" " + (if HoldsText(tag.name) then content else "") + " ", PartsOf(hides, [], Events(rest)), TextOf(hides, rest));
      case Element(tag, children, rest) =>
        ElementIsAlike(hides, tag, children, rest);
    }
  }

  lemma {:induction false} UnclosedParts(hides: set<string>, tag: Tag, rest: Forest)
    requires Apart(hides) && Strays(hides, [], Unclosed(tag, rest))
    ensures Alike(PartsOf(hides, [], Events(Unclosed(tag, rest))), TextOf(hides, Unclosed(tag, rest)))
    decreases rest, 2
  {
    FirstPart(hides, [], StartTag(tag), Events(rest));
    if tag.name in hides {
      var within := Stacked(hides, [], StartTag(tag));
      OnlySpacesInside(hides, within, rest);
      SpacesAfter(" ", PartsOf(hides, within, Events(rest)));
      assert " " + "" == " ";
    } else {
      PartsAreOfTheTree(hides, rest);
      AlikeBehind(" ", PartsOf(hides, [], Events(rest)), TextOf(hides, rest));
    }
  }

  lemma {:induction false} ElementIsAlike(hides: set<string>, tag: Tag, children: Forest, rest: Forest)
    requires Apart(hides) && Strays(hides, [], Element(tag, children, rest))
    ensures Alike(PartsOf(hides, [], Events(Element(tag, children, rest))), TextOf(hides, Element(tag, children, rest)))
    decreases Element(tag, children, rest), 0
  {
    var within := Stacked(hides, [], StartTag(tag));
    var inner := WhatIsLeftOpen(hides, within, children);
    var grown := ElementLeaves(hides, [], tag, inner);
    assert [] + grown == grown;
    ElementParts(hides, [], tag, children, rest, within, inner, grown);
    var kids, tail := PartsOf(hides, within, Events(children)), PartsOf(hides, grown, Events(rest));
    if tag.name in hides { OnlySpacesInside(hides, within, children); }
    else {
      PartsAreOfTheTree(hides, children);
      if inner != [] { EndsInASpace(hides, children); }
    }
    if inner == [] { PartsAreOfTheTree(hides, rest); } else { OnlySpacesInside(hides, grown, rest); }
    AlikeInParts(tag.name in hides, inner == [], kids, TextOf(hides, children), tail, TextOf(hides, rest));
  }

  lemma AlikeInParts(hides: bool, closed: bool, kids: string, shown: string, tail: string, rest: string)
    requires if hides then Spaces(kids) else Alike(kids, shown)
    requires if closed then Alike(tail, rest) else Spaces(tail)
    requires !hides && !closed ==> EndsSpaced(shown)
    ensures Alike(" " + (kids + (" " + tail)), " " + ((if hides then "" else shown) + if closed then " " + rest else ""))
  {
    if hides && closed {
      HiddenAndClosed(kids, tail, rest);
    } else if hides {
      SpacesJoin(kids, " " + tail);
      SpacesAfter(" ", kids + (" " + tail));
      assert " " + ("" + "") == " ";
    } else if closed {
      AlikeBehind(" ", tail, rest);
      AlikeJoins(kids, shown, " " + tail, " " + rest);
      AlikeBehind(" ", kids + (" " + tail), shown + (" " + rest));
    } else {
      SpacesAfter(shown, " " + tail);
      AlikeJoins(kids, shown, " " + tail, " " + tail);
      AlikeThrough(kids + (" " + tail), shown + (" " + tail), shown);
      AlikeBehind(" ", kids + (" " + tail), shown);
      assert shown + "" == shown;
    }
  }

  lemma HiddenAndClosed(kids: string, tail: string, rest: string)
    requires Spaces(kids) && Alike(tail, rest)
    ensures Alike(" " + (kids + (" " + tail)), " " + ("" + (" " + rest)))
  {
    var one, other := " " + kids + " ", "  ";
    BlankIsOneSpace(one);
    BlankIsOneSpace(other);
    AlikeJoins(one, other, tail, rest);
    AroundKids(kids, tail);
    AroundKids("", rest);
  }

  lemma AroundKids(kids: string, tail: string)
    ensures " " + (kids + (" " + tail)) == " " + kids + " " + tail
    ensures kids == "" ==> " " + kids + " " == "  "
  {
  }

  lemma HiddenTextIsApart()
    ensures Apart(HIDDEN_TEXT) && "br" !in HIDDEN_TEXT
  {
    assert "textarea"[1] == 'e' && "title"[1] == 'i' && "script"[1] == 'c' && "style"[1] == 't' && "noscript"[1] == 'o';
    assert "template"[2] == 'm' && "textarea"[2] == 'x';
    assert |"br"| == 2 && |"script"| == 6 && |"style"| == 5 && |"noscript"| == 8 && |"template"| == 8;
  }

  /** The count of a page is the length of its tree's text. */
  lemma CountIsOfTheTree(forest: Forest)
    requires Strays(HIDDEN_TEXT, [], forest)
    ensures TextLength(PartsOf(HIDDEN_TEXT, [], Events(forest))) == TextLength(TextOf(HIDDEN_TEXT, forest))
  {
    HiddenTextIsApart();
    PartsAreOfTheTree(HIDDEN_TEXT, forest);
  }

  lemma TwoSpacesAreOne(rest: string, end: string)
    requires Alike(rest, end)
    ensures Alike("  " + rest, " " + end)
  {
    BlankIsOneSpace("  ");
    AlikeJoins("  ", " ", rest, end);
  }

  /** Where all that hides is closed, that is the text of the page with every element that hides gone. */
  lemma {:induction false} HiddenAreGone(hides: set<string>, forest: Forest)
    requires Apart(hides) && "br" !in hides && Closed(hides, forest)
    ensures Alike(TextOf(hides, forest), TextOf(hides, Shown(hides, forest))) && Closed(hides, Shown(hides, forest))
    decreases forest, 1
  {
    match forest {
      case Nothing =>
      case Text(text, rest) =>
        HiddenAreGone(hides, rest);
        AlikeBehind(text, TextOf(hides, rest), TextOf(hides, Shown(hides, rest)));
      case Unclosed(tag, rest) =>
        HiddenAreGone(hides, rest);
        AlikeBehind(" ", TextOf(hides, rest), TextOf(hides, Shown(hides, rest)));
      case Stray(_, rest) =>
        HiddenAreGone(hides, rest);
        AlikeBehind(" ", TextOf(hides, rest), TextOf(hides, Shown(hides, rest)));
      case Raw(tag, content, rest) =>
        var text := " " + (if HoldsText(tag.name) then content else "") + " ";
        HiddenAreGone(hides, rest);
        TwoSpacesAreOne(TextOf(hides, rest), TextOf(hides, Shown(hides, rest)));
        AlikeBehind(text, TextOf(hides, rest), TextOf(hides, Shown(hides, rest)));
        assert tag.name in hides ==> text == "  ";
      case Element(tag, children, rest) =>
        HiddenElementIsGone(hides, tag, children, rest);
    }
  }

  lemma {:induction false} HiddenElementIsGone(hides: set<string>, tag: Tag, children: Forest, rest: Forest)
    requires Apart(hides) && "br" !in hides && Closed(hides, Element(tag, children, rest))
    ensures var forest := Element(tag, children, rest);
            Alike(TextOf(hides, forest), TextOf(hides, Shown(hides, forest))) && Closed(hides, Shown(hides, forest))
    decreases Element(tag, children, rest), 0
  {
    var one, other := TextOf(hides, rest), TextOf(hides, Shown(hides, rest));
    HiddenAreGone(hides, children);
    HiddenAreGone(hides, rest);
    if tag.name in hides {
      TwoSpacesAreOne(one, other);
      assert " " + ("" + (" " + one)) == "  " + one;
    } else {
      var kids, shown := TextOf(hides, children), TextOf(hides, Shown(hides, children));
      AlikeBehind(" ", one, other);
      AlikeJoins(kids, shown, " " + one, " " + other);
      AlikeBehind(" ", kids + (" " + one), shown + (" " + other));
    }
  }

  /** That page is one too: nothing in it hides, so no end tag in it could close what does. */
  lemma {:induction false} ShownIsAPage(hides: set<string>, forest: Forest)
    requires "br" !in hides && Closed(hides, forest)
    ensures Strays(hides, [], Shown(hides, forest)) && Closed(hides, Shown(hides, forest))
  {
    match forest
    case Nothing =>
    case Text(_, rest) => ShownIsAPage(hides, rest);
    case Unclosed(_, rest) => ShownIsAPage(hides, rest);
    case Stray(_, rest) => ShownIsAPage(hides, rest);
    case Raw(_, _, rest) => ShownIsAPage(hides, rest);
    case Element(tag, children, rest) =>
      ShownIsAPage(hides, rest);
      ShownIsAPage(hides, children);
      if tag.name !in hides { var left := WhatIsLeftOpen(hides, [], Shown(hides, children)); }
  }

  /** A page, and another behind it. */
  function Then(forest: Forest, more: Forest): Forest {
    match forest
    case Nothing => more
    case Text(text, rest) => Text(text, Then(rest, more))
    case Unclosed(tag, rest) => Unclosed(tag, Then(rest, more))
    case Stray(name, rest) => Stray(name, Then(rest, more))
    case Raw(tag, content, rest) => Raw(tag, content, Then(rest, more))
    case Element(tag, children, rest) => Element(tag, children, Then(rest, more))
  }

  lemma {:induction false} EventsOfBoth(forest: Forest, more: Forest)
    ensures Events(Then(forest, more)) == Events(forest) + Events(more)
  {
    match forest
    case Nothing =>
    case Text(text, rest) => EventsOfBoth(rest, more); Behind([TextRead(text)], Events(rest), Events(more));
    case Unclosed(tag, rest) => EventsOfBoth(rest, more); Behind([StartTag(tag)], Events(rest), Events(more));
    case Stray(name, rest) => EventsOfBoth(rest, more); Behind([EndTag(name)], Events(rest), Events(more));
    case Raw(tag, content, rest) =>
      EventsOfBoth(rest, more);
      Behind([StartTag(tag), Content(tag, content), EndTag(tag.name)], Events(rest), Events(more));
    case Element(tag, children, rest) =>
      EventsOfBoth(rest, more);
      Behind([StartTag(tag)] + Events(children) + [EndTag(tag.name)], Events(rest), Events(more));
  }

  lemma Behind(one: seq<Event>, two: seq<Event>, three: seq<Event>)
    ensures one + (two + three) == one + two + three
  {
  }

  /** What stands behind a page is counted exactly where all that hides in the page is closed; otherwise none of it is. */
  lemma {:induction false} CountedWhereClosed(hides: set<string>, forest: Forest, more: Forest)
    ensures TextOf(hides, Then(forest, more)) == TextOf(hides, forest) + if Closed(hides, forest) then TextOf(hides, more) else ""
    ensures Events(Then(forest, more)) == Events(forest) + Events(more)
  {
    EventsOfBoth(forest, more);
    var behind := if Closed(hides, forest) then TextOf(hides, more) else "";
    match forest
    case Nothing =>
    case Text(text, rest) => CountedWhereClosed(hides, rest, more); Grouped(text, TextOf(hides, rest), behind);
    case Unclosed(tag, rest) => CountedWhereClosed(hides, rest, more); Grouped(" ", TextOf(hides, rest), behind);
    case Stray(_, rest) => CountedWhereClosed(hides, rest, more); Grouped(" ", TextOf(hides, rest), behind);
    case Raw(tag, content, rest) =>
      CountedWhereClosed(hides, rest, more);
      Grouped(" " + (if HoldsText(tag.name) then content else "") + " ", TextOf(hides, rest), behind);
    case Element(tag, children, rest) =>
      CountedWhereClosed(hides, rest, more);
      if Closed(hides, children) {
        var kids := if tag.name in hides then "" else TextOf(hides, children);
        Grouped(" ", TextOf(hides, rest), behind);
        Grouped(kids, " " + TextOf(hides, rest), behind);
        Grouped(" ", kids + (" " + TextOf(hides, rest)), behind);
      }
  }

  lemma Grouped(one: string, two: string, three: string)
    ensures one + (two + three) == one + two + three
  {
  }

  /** A style that closes itself inside an svg is read as a start tag alone, and no text behind the svg is counted. */
  lemma ASelfClosedStyleHidesAll(text: string)
    ensures TextLength(TextOf(HIDDEN_TEXT, Element(Tag("svg", map[]), Unclosed(Tag("style", map[]), Nothing), Text(text, Nothing)))) == 0
  {
    var svg := Unclosed(Tag("style", map[]), Nothing);
    assert !Closed(HIDDEN_TEXT, svg);
    assert TextOf(HIDDEN_TEXT, svg) == " " + "" == " ";
    var all := TextOf(HIDDEN_TEXT, Element(Tag("svg", map[]), svg, Text(text, Nothing)));
    assert "svg" !in HIDDEN_TEXT by { assert |"svg"| == 3 && |"script"| == 6 && |"style"| == 5 && |"noscript"| == 8 && |"template"| == 8; }
    assert all == " " + (" " + "") == "  ";
    BlankCollapses(all, false);
    assert TrimStart(" ") == "" by { assert " "[1..] == ""; }
  }
}
