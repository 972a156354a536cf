/** A page as a tree, as the events a reader of it is given, and what stays open behind it. */
module PageTree {
  import opened Options

  datatype Tag = Tag(name: string, attributes: map<string, string>)

  /** A page's content, one thing and then the rest. */
  datatype Forest =
    | Nothing
    | Text(text: string, rest: Forest)
    /** A start tag that no end tag closes. */
    | Unclosed(tag: Tag, rest: Forest)
    /** An end tag that closes nothing. */
    | Stray(name: string, rest: Forest)
    /** An element whose content is read raw, and given whole. */
    | Raw(tag: Tag, content: string, rest: Forest)
    | Element(tag: Tag, children: Forest, rest: Forest)

  datatype Event = TextRead(text: string) | StartTag(tag: Tag) | EndTag(name: string) | Content(tag: Tag, text: string)

  function Events(forest: Forest): seq<Event> {
    match forest
    case Nothing => []
    case Text(text, rest) => [TextRead(text)] + Events(rest)
    case Unclosed(tag, rest) => [StartTag(tag)] + Events(rest)
    case Stray(name, rest) => [EndTag(name)] + Events(rest)
    case Raw(tag, content, rest) => [StartTag(tag), Content(tag, content), EndTag(tag.name)] + Events(rest)
    case Element(tag, children, rest) => [StartTag(tag)] + Events(children) + [EndTag(tag.name)] + Events(rest)
  }

  // ---- The stack of elements that hide what they hold ----

  /** An element that hides opens; it closes where its end tag comes with nothing open inside it. */
  function Stacked(hides: set<string>, open: seq<string>, event: Event): seq<string> {
    match event
    case StartTag(tag) => if tag.name in hides then open + [tag.name] else open
    case EndTag(name) => if open != [] && open[|open| - 1] == name then open[..|open| - 1] else open
    case _ => open
  }

  function StackedAll(hides: set<string>, open: seq<string>, events: seq<Event>): seq<string>
    decreases events
  {
    if events == [] then open else StackedAll(hides, Stacked(hides, open, events[0]), events[1..])
  }

  lemma {:induction false} StackedSplits(hides: set<string>, open: seq<string>, one: seq<Event>, other: seq<Event>)
    ensures StackedAll(hides, open, one + other) == StackedAll(hides, StackedAll(hides, open, one), other)
    decreases one
  {
    if one == [] {
      assert one + other == other;
    } else {
      assert (one + other)[1..] == one[1..] + other;
      StackedSplits(hides, Stacked(hides, open, one[0]), one[1..], other);
    }
  }

  /** Every element that hides is closed. */
  predicate Closed(hides: set<string>, forest: Forest) {
    match forest
    case Nothing => true
    case Text(_, rest) => Closed(hides, rest)
    case Unclosed(tag, rest) => tag.name !in hides && Closed(hides, rest)
    case Stray(_, rest) => Closed(hides, rest)
    case Raw(_, _, rest) => Closed(hides, rest)
    case Element(_, children, rest) => Closed(hides, children) && Closed(hides, rest)
  }

  /** What a stray end tag names is not the innermost element that hides and is open there: that it would close. */
  predicate Strays(hides: set<string>, open: seq<string>, forest: Forest)
    decreases forest
  {
    match forest
    case Nothing => true
    case Text(_, rest) => Strays(hides, open, rest)
    case Unclosed(tag, rest) => Strays(hides, Stacked(hides, open, StartTag(tag)), rest)
    case Stray(name, rest) => Stacked(hides, open, EndTag(name)) == open && Strays(hides, open, rest)
    case Raw(_, _, rest) => Strays(hides, open, rest)
    case Element(tag, children, rest) =>
      var within := Stacked(hides, open, StartTag(tag));
      && Strays(hides, within, children)
      && Strays(hides, Stacked(hides, StackedAll(hides, within, Events(children)), EndTag(tag.name)), rest)
  }

  predicate Hiding(hides: set<string>, open: seq<string>) {
    forall name | name in open :: name in hides
  }

  lemma HidingJoins(hides: set<string>, one: seq<string>, other: seq<string>)
    requires Hiding(hides, one) && Hiding(hides, other)
    ensures Hiding(hides, one + other)
  {
  }

  lemma OneEvent(hides: set<string>, open: seq<string>, event: Event)
    ensures StackedAll(hides, open, [event]) == Stacked(hides, open, event)
  {
    assert [event][1..] == [];
  }

  lemma FirstStacked(hides: set<string>, open: seq<string>, event: Event, rest: seq<Event>)
    ensures StackedAll(hides, open, [event] + rest) == StackedAll(hides, Stacked(hides, open, event), rest)
  {
    assert ([event] + rest)[1..] == rest;
  }

  lemma RawLeavesNothing(hides: set<string>, open: seq<string>, tag: Tag, content: string)
    requires Hiding(hides, open)
    ensures StackedAll(hides, open, [StartTag(tag), Content(tag, content), EndTag(tag.name)]) == open
  {
    var events := [StartTag(tag), Content(tag, content), EndTag(tag.name)];
    var within := Stacked(hides, open, StartTag(tag));
    assert events[1..] == [Content(tag, content), EndTag(tag.name)] && events[1..][1..] == [EndTag(tag.name)];
    OneEvent(hides, within, EndTag(tag.name));
    if tag.name !in hides && open != [] { assert open[|open| - 1] in open; }
  }

  /** What an element's own tags make of what is left open inside it. */
  lemma ElementLeaves(hides: set<string>, open: seq<string>, tag: Tag, left: seq<string>) returns (grown: seq<string>)
    requires Hiding(hides, open) && Hiding(hides, left)
    ensures Stacked(hides, Stacked(hides, open, StartTag(tag)) + left, EndTag(tag.name)) == open + grown
    ensures Hiding(hides, grown) && (grown == [] <==> left == [])
  {
    var added := if tag.name in hides then [tag.name] else [];
    var inside := open + (added + left);
    assert Stacked(hides, open, StartTag(tag)) + left == inside;
    if left == [] {
      grown := [];
      if tag.name in hides {
        assert inside[..|inside| - 1] == open;
      } else if open != [] {
        assert open[|open| - 1] in open;
      }
    } else if left[|left| - 1] == tag.name {
      assert left[|left| - 1] in left;
      grown := added + left[..|left| - 1];
      assert inside[..|inside| - 1] == open + grown;
    } else {
      grown := added + left;
    }
  }

  /**
   * Reading a page leaves the stack as it found it exactly where every element that hides is closed; what
   * is left on top otherwise is never taken off again by what follows in the same element.
   */
  lemma {:induction false} WhatIsLeftOpen(hides: set<string>, open: seq<string>, forest: Forest) returns (left: seq<string>)
    requires Hiding(hides, open) && Strays(hides, open, forest)
    ensures StackedAll(hides, open, Events(forest)) == open + left && Hiding(hides, left)
    ensures left == [] <==> Closed(hides, forest)
    decreases forest, 1
  {
    match forest {
      case Nothing => left := [];
      case Text(text, rest) =>
        FirstStacked(hides, open, TextRead(text), Events(rest));
        left := WhatIsLeftOpen(hides, open, rest);
      case Unclosed(tag, rest) =>
        FirstStacked(hides, open, StartTag(tag), Events(rest));
        var after := WhatIsLeftOpen(hides, Stacked(hides, open, StartTag(tag)), rest);
        left := (if tag.name in hides then [tag.name] else []) + after;
        assert Stacked(hides, open, StartTag(tag)) + after == open + left;
      case Stray(name, rest) =>
        FirstStacked(hides, open, EndTag(name), Events(rest));
        left := WhatIsLeftOpen(hides, open, rest);
      case Raw(tag, content, rest) =>
        StackedSplits(hides, open, [StartTag(tag), Content(tag, content), EndTag(tag.name)], Events(rest));
        RawLeavesNothing(hides, open, tag, content);
        left := WhatIsLeftOpen(hides, open, rest);
      case Element(tag, children, rest) =>
        left := ElementIsLeftOpen(hides, open, tag, children, rest);
    }
  }

  lemma {:induction false} ElementIsLeftOpen(hides: set<string>, open: seq<string>, tag: Tag, children: Forest, rest: Forest) returns (left: seq<string>)
    requires Hiding(hides, open) && Strays(hides, open, Element(tag, children, rest))
    ensures StackedAll(hides, open, Events(Element(tag, children, rest))) == open + left && Hiding(hides, left)
    ensures left == [] <==> Closed(hides, children) && Closed(hides, rest)
    decreases Element(tag, children, rest), 0
  {
    var within := Stacked(hides, open, StartTag(tag));
    var inner := WhatIsLeftOpen(hides, within, children);
    var grown := ElementLeaves(hides, open, tag, inner);
    ElementStack(hides, open, tag, children, rest, within, inner, grown);
    HidingJoins(hides, open, grown);
    var after := WhatIsLeftOpen(hides, open + grown, rest);
    HidingJoins(hides, grown, after);
    left := grown + after;
    Regrouped(open, grown, after);
  }

  lemma Regrouped(one: seq<string>, two: seq<string>, three: seq<string>)
    ensures one + two + three == one + (two + three)
  {
  }

  /** An element's events, part by part, on the stack. */
  lemma ElementStack(hides: set<string>, open: seq<string>, tag: Tag, children: Forest, rest: Forest,
                     within: seq<string>, inner: seq<string>, grown: seq<string>)
    requires within == Stacked(hides, open, StartTag(tag))
    requires StackedAll(hides, within, Events(children)) == within + inner
    requires Stacked(hides, within + inner, EndTag(tag.name)) == open + grown
    ensures StackedAll(hides, open, Events(Element(tag, children, rest))) == StackedAll(hides, open + grown, Events(rest))
  {
    var start, end := [StartTag(tag)], [EndTag(tag.name)];
    StackedSplits(hides, open, start + Events(children) + end, Events(rest));
    StackedSplits(hides, open, start + Events(children), end);
    StackedSplits(hides, open, start, Events(children));
    OneEvent(hides, open, StartTag(tag));
    OneEvent(hides, within + inner, EndTag(tag.name));
  }

  // ---- What is met with nothing hiding open ----

  function Live(hides: set<string>, open: seq<string>, events: seq<Event>): seq<Event>
    decreases events
  {
    if events == [] then []
    else (if open == [] then [events[0]] else []) + Live(hides, Stacked(hides, open, events[0]), events[1..])
  }

  lemma {:induction false} LiveSplits(hides: set<string>, open: seq<string>, one: seq<Event>, other: seq<Event>)
    ensures Live(hides, open, one + other) == Live(hides, open, one) + Live(hides, StackedAll(hides, open, one), other)
    decreases one
  {
    if one == [] {
      assert one + other == other;
    } else {
      assert (one + other)[1..] == one[1..] + other;
      LiveSplits(hides, Stacked(hides, open, one[0]), one[1..], other);
    }
  }

  lemma OneLive(hides: set<string>, open: seq<string>, event: Event)
    ensures Live(hides, open, [event]) == if open == [] then [event] else []
  {
    assert [event][1..] == [];
  }

  /** The events of a page, those inside an element that hides left out, up to one that is never closed. */
  function LiveOf(hides: set<string>, forest: Forest): seq<Event> {
    match forest
    case Nothing => []
    case Text(text, rest) => [TextRead(text)] + LiveOf(hides, rest)
    case Unclosed(tag, rest) => [StartTag(tag)] + if tag.name in hides then [] else LiveOf(hides, rest)
    case Stray(name, rest) => [EndTag(name)] + LiveOf(hides, rest)
    case Raw(tag, content, rest) =>
      [StartTag(tag)] + (if tag.name in hides then [] else [Content(tag, content), EndTag(tag.name)]) + LiveOf(hides, rest)
    case Element(tag, children, rest) =>
      [StartTag(tag)] + (if tag.name in hides then [] else LiveOf(hides, children))
      + (if !Closed(hides, children) then []
         else (if tag.name in hides then [] else [EndTag(tag.name)]) + LiveOf(hides, rest))
  }

  lemma FirstIsLive(hides: set<string>, open: seq<string>, event: Event, rest: seq<Event>)
    ensures Live(hides, open, [event] + rest) == (if open == [] then [event] else []) + Live(hides, Stacked(hides, open, event), rest)
  {
    assert ([event] + rest)[1..] == rest;
  }

  /** Nothing is met inside an element that hides. */
  lemma {:induction false} NothingIsLiveInside(hides: set<string>, open: seq<string>, forest: Forest)
    requires Hiding(hides, open) && open != [] && Strays(hides, open, forest)
    ensures Live(hides, open, Events(forest)) == []
    decreases forest, 1
  {
    match forest {
      case Nothing =>
      case Text(text, rest) =>
        FirstIsLive(hides, open, TextRead(text), Events(rest));
        NothingIsLiveInside(hides, open, rest);
      case Unclosed(tag, rest) =>
        FirstIsLive(hides, open, StartTag(tag), Events(rest));
        NothingIsLiveInside(hides, Stacked(hides, open, StartTag(tag)), rest);
      case Stray(name, rest) =>
        FirstIsLive(hides, open, EndTag(name), Events(rest));
        NothingIsLiveInside(hides, open, rest);
      case Raw(tag, content, rest) =>
        LiveSplits(hides, open, [StartTag(tag), Content(tag, content), EndTag(tag.name)], Events(rest));
        RawIsLive(hides, open, tag, content);
        RawLeavesNothing(hides, open, tag, content);
        NothingIsLiveInside(hides, open, rest);
      case Element(tag, children, rest) =>
        NothingIsLiveInsideElement(hides, open, tag, children, rest);
    }
  }

  lemma {:induction false} NothingIsLiveInsideElement(hides: set<string>, open: seq<string>, tag: Tag, children: Forest, rest: Forest)
    requires Hiding(hides, open) && open != [] && Strays(hides, open, Element(tag, children, rest))
    ensures Live(hides, open, Events(Element(tag, children, rest))) == []
    decreases Element(tag, children, rest), 0
  {
    var within := Stacked(hides, open, StartTag(tag));
    var inner := WhatIsLeftOpen(hides, within, children);
    var grown := ElementLeaves(hides, open, tag, inner);
    NothingIsLiveInside(hides, within, children);
    NothingIsLiveInside(hides, open + grown, rest);
    ElementIsLive(hides, open, tag, children, rest, inner, grown);
  }

  lemma RawIsLive(hides: set<string>, open: seq<string>, tag: Tag, content: string)
    ensures Live(hides, open, [StartTag(tag), Content(tag, content), EndTag(tag.name)]) ==
              if open != [] then []
              else [StartTag(tag)] + if tag.name in hides then [] else [Content(tag, content), EndTag(tag.name)]
  {
    var within := Stacked(hides, open, StartTag(tag));
    LiveSplits(hides, open, [StartTag(tag)], [Content(tag, content), EndTag(tag.name)]);
    LiveSplits(hides, within, [Content(tag, content)], [EndTag(tag.name)]);
    OneLive(hides, open, StartTag(tag));
    OneEvent(hides, open, StartTag(tag));
    OneLive(hides, within, Content(tag, content));
    OneEvent(hides, within, Content(tag, content));
    OneLive(hides, within, EndTag(tag.name));
    assert [StartTag(tag)] + [Content(tag, content), EndTag(tag.name)] == [StartTag(tag), Content(tag, content), EndTag(tag.name)];
    assert [Content(tag, content)] + [EndTag(tag.name)] == [Content(tag, content), EndTag(tag.name)];
  }

  /** An element's events, part by part. */
  lemma ElementIsLive(hides: set<string>, open: seq<string>, tag: Tag, children: Forest, rest: Forest, inner: seq<string>, grown: seq<string>)
    requires var within := Stacked(hides, open, StartTag(tag));
             && StackedAll(hides, within, Events(children)) == within + inner
             && Stacked(hides, within + inner, EndTag(tag.name)) == open + grown
    ensures var within := Stacked(hides, open, StartTag(tag));
            Live(hides, open, Events(Element(tag, children, rest)))
              == (if open == [] then [StartTag(tag)] else []) + Live(hides, within, Events(children))
               + (if within + inner == [] then [EndTag(tag.name)] else []) + Live(hides, open + grown, Events(rest))
  {
    var within := Stacked(hides, open, StartTag(tag));
    var start, end := [StartTag(tag)], [EndTag(tag.name)];
    LiveSplits(hides, open, start + Events(children) + end, Events(rest));
    LiveSplits(hides, open, start + Events(children), end);
    LiveSplits(hides, open, start, Events(children));
    StackedSplits(hides, open, start + Events(children), end);
    StackedSplits(hides, open, start, Events(children));
    OneLive(hides, open, StartTag(tag));
    OneEvent(hides, open, StartTag(tag));
    OneLive(hides, within + inner, EndTag(tag.name));
    OneEvent(hides, within + inner, EndTag(tag.name));
  }

  /** What a reader with a stack meets of a page is what a walk of its tree meets. */
  lemma {:induction false} LiveIsOfTheTree(hides: set<string>, forest: Forest)
    requires Strays(hides, [], forest)
    ensures Live(hides, [], Events(forest)) == LiveOf(hides, forest)
    decreases forest, 1
  {
    match forest {
      case Nothing =>
      case Text(text, rest) =>
        FirstIsLive(hides, [], TextRead(text), Events(rest));
        LiveIsOfTheTree(hides, rest);
      case Unclosed(tag, rest) =>
        FirstIsLive(hides, [], StartTag(tag), Events(rest));
        UnclosedIsLive(hides, tag, rest);
      case Stray(name, rest) =>
        FirstIsLive(hides, [], EndTag(name), Events(rest));
        LiveIsOfTheTree(hides, rest);
      case Raw(tag, content, rest) =>
        LiveSplits(hides, [], [StartTag(tag), Content(tag, content), EndTag(tag.name)], Events(rest));
        RawIsLive(hides, [], tag, content);
        RawLeavesNothing(hides, [], tag, content);
        LiveIsOfTheTree(hides, rest);
      case Element(tag, children, rest) =>
        ElementIsOfTheTree(hides, tag, children, rest);
    }
  }

  lemma {:induction false} UnclosedIsLive(hides: set<string>, tag: Tag, rest: Forest)
    requires Strays(hides, Stacked(hides, [], StartTag(tag)), rest)
    ensures Live(hides, Stacked(hides, [], StartTag(tag)), Events(rest)) == if tag.name in hides then [] else LiveOf(hides, rest)
    decreases rest, 2
  {
    if tag.name in hides {
      assert Stacked(hides, [], StartTag(tag)) == [tag.name];
      NothingIsLiveInside(hides, [tag.name], rest);
    } else {
      LiveIsOfTheTree(hides, rest);
    }
  }

  lemma {:induction false} ElementIsOfTheTree(hides: set<string>, tag: Tag, children: Forest, rest: Forest)
    requires Strays(hides, [], Element(tag, children, rest))
    ensures Live(hides, [], Events(Element(tag, children, rest))) == LiveOf(hides, Element(tag, children, rest))
    decreases Element(tag, children, rest), 0
  {
    var within := Stacked(hides, [], StartTag(tag));
    var inner := WhatIsLeftOpen(hides, within, children);
    var grown := ElementLeaves(hides, [], tag, inner);
    assert [] + grown == grown;
    ElementIsLive(hides, [], tag, children, rest, inner, grown);
    UnclosedIsLive(hides, tag, children);
    if grown == [] { LiveIsOfTheTree(hides, rest); } else { NothingIsLiveInside(hides, grown, rest); }
    LiveInParts(hides, tag, children, rest, if tag.name in hides then [] else LiveOf(hides, children),
                if within + inner == [] then [EndTag(tag.name)] else [], if grown == [] then LiveOf(hides, rest) else []);
  }

  lemma LiveInParts(hides: set<string>, tag: Tag, children: Forest, rest: Forest, kids: seq<Event>, end: seq<Event>, tail: seq<Event>)
    requires kids == if tag.name in hides then [] else LiveOf(hides, children)
    requires end == if tag.name !in hides && Closed(hides, children) then [EndTag(tag.name)] else []
    requires tail == if Closed(hides, children) then LiveOf(hides, rest) else []
    ensures [StartTag(tag)] + kids + end + tail == LiveOf(hides, Element(tag, children, rest))
  {
    assert [StartTag(tag)] + kids + end + tail == [StartTag(tag)] + kids + (end + tail);
    assert [StartTag(tag)] + kids + [] == [StartTag(tag)] + kids;
  }

  // ---- Every page a reader can be given is such a tree ----

  /** What a tokenizer gives: content comes between the start tag and the end tag of its own element, and nowhere else. */
  predicate Tokens(events: seq<Event>)
    decreases events
  {
    events == [] ||
    match events[0]
    case TextRead(_) => Tokens(events[1..])
    case EndTag(_) => Tokens(events[1..])
    case Content(_, _) => false
    case StartTag(tag) =>
      if BeginsRaw(events) then events[1].tag == tag && |events| >= 3 && events[2] == EndTag(tag.name) && Tokens(events[3..])
      else Tokens(events[1..])
  }

  predicate BeginsRaw(events: seq<Event>) {
    |events| >= 2 && events[0].StartTag? && events[1].Content?
  }

  /** Whether content, where an event is one, stands between the tags of its own element. */
  predicate StandsWell(events: seq<Event>, i: nat)
    requires i < |events|
  {
    events[i].Content? ==> && 0 < i < |events| - 1 && events[i - 1] == StartTag(events[i].tag)
                           && events[i + 1] == EndTag(events[i].tag.name)
  }

  /** Events are what a tokenizer gives exactly where each content stands between the tags of its own element. */
  lemma {:induction false} TokensByPlace(events: seq<Event>)
    ensures Tokens(events) <==> forall i: nat | i < |events| :: StandsWell(events, i)
    decreases |events|
  {
    if events != [] {
      if events[0].Content? {
        assert !StandsWell(events, 0);
      } else if BeginsRaw(events) {
        var tag := events[0].tag;
        if events[1].tag == tag && |events| >= 3 && events[2] == EndTag(tag.name) {
          TokensByPlace(events[3..]);
          PlacesBehind(events, 3);
        } else {
          assert !StandsWell(events, 1);
        }
      } else {
        TokensByPlace(events[1..]);
        PlacesBehind(events, 1);
      }
    }
  }

  /** What stands well behind the first events stands well among the rest, unless it comes right behind them. */
  lemma PlacesBehind(events: seq<Event>, n: nat)
    requires 0 < n <= |events| && (n < |events| && events[n].Content? ==> !events[n - 1].StartTag?)
    requires forall i: nat | i < n :: events[i].Content? ==> StandsWell(events, i)
    ensures (forall i: nat | i < |events| :: StandsWell(events, i)) <==> forall i: nat | i < |events| - n :: StandsWell(events[n..], i)
  {
    if forall i: nat | i < |events| :: StandsWell(events, i) {
      forall i: nat | i < |events| - n ensures StandsWell(events[n..], i) {
        assert StandsWell(events, n + i);
      }
    }
    if forall i: nat | i < |events| - n :: StandsWell(events[n..], i) {
      forall i: nat | n <= i < |events| ensures StandsWell(events, i) {
        assert StandsWell(events[n..], i - n);
      }
    }
  }

  lemma TokensJoin(one: seq<Event>, other: seq<Event>)
    requires Tokens(one) && Tokens(other)
    ensures Tokens(one + other)
  {
    TokensByPlace(one);
    TokensByPlace(other);
    TokensByPlace(one + other);
    forall i: nat | i < |one + other| ensures StandsWell(one + other, i) {
      if i < |one| { assert StandsWell(one, i); } else { assert StandsWell(other, i - |one|); }
    }
  }

  /** The events of any tree are what a tokenizer gives. */
  lemma {:induction false} EveryTreeIsAPage(forest: Forest)
    ensures Tokens(Events(forest))
  {
    match forest {
      case Nothing =>
      case Text(text, rest) => OneToken(TextRead(text)); EveryTreeIsAPage(rest); TokensJoin([TextRead(text)], Events(rest));
      case Unclosed(tag, rest) => OneToken(StartTag(tag)); EveryTreeIsAPage(rest); TokensJoin([StartTag(tag)], Events(rest));
      case Stray(name, rest) => OneToken(EndTag(name)); EveryTreeIsAPage(rest); TokensJoin([EndTag(name)], Events(rest));
      case Raw(tag, content, rest) =>
        var raw := [StartTag(tag), Content(tag, content), EndTag(tag.name)];
        TokensByPlace(raw);
        EveryTreeIsAPage(rest);
        TokensJoin(raw, Events(rest));
      case Element(tag, children, rest) =>
        EveryTreeIsAPage(children);
        EveryTreeIsAPage(rest);
        OneToken(StartTag(tag));
        OneToken(EndTag(tag.name));
        TokensJoin([StartTag(tag)], Events(children));
        TokensJoin([StartTag(tag)] + Events(children), [EndTag(tag.name)]);
        TokensJoin([StartTag(tag)] + Events(children) + [EndTag(tag.name)], Events(rest));
    }
  }

  lemma OneToken(event: Event)
    requires !event.Content?
    ensures Tokens([event])
  {
    TokensByPlace([event]);
  }

  /** Reading the events never closes any of the first `depth` elements that hide and are open. */
  predicate Above(hides: set<string>, open: seq<string>, depth: nat, events: seq<Event>)
    decreases events
  {
    depth <= |open| && (events == [] || Above(hides, Stacked(hides, open, events[0]), depth, events[1..]))
  }

  lemma {:induction false} AboveSplits(hides: set<string>, open: seq<string>, depth: nat, one: seq<Event>, other: seq<Event>)
    requires Above(hides, open, depth, one + other)
    ensures Above(hides, open, depth, one) && Above(hides, StackedAll(hides, open, one), depth, other)
    decreases one
  {
    if one == [] {
      assert one + other == other;
    } else {
      assert (one + other)[1..] == one[1..] + other;
      AboveSplits(hides, Stacked(hides, open, one[0]), depth, one[1..], other);
    }
  }

  /** An element read raw leaves the stack as it was. */
  lemma RawIsPassed(hides: set<string>, open: seq<string>, depth: nat, tag: Tag, content: string, raw: seq<Event>, rest: seq<Event>)
    requires Hiding(hides, open) && depth <= |open| && raw == [StartTag(tag), Content(tag, content), EndTag(tag.name)]
    ensures Above(hides, open, depth, raw + rest) <==> Above(hides, open, depth, rest)
    ensures StackedAll(hides, open, raw) == open
  {
    var within := Stacked(hides, open, StartTag(tag));
    RawLeavesNothing(hides, open, tag, content);
    assert raw + rest == [StartTag(tag)] + ([Content(tag, content)] + ([EndTag(tag.name)] + rest));
    FirstAbove(hides, open, depth, StartTag(tag), [Content(tag, content)] + ([EndTag(tag.name)] + rest));
    FirstAbove(hides, within, depth, Content(tag, content), [EndTag(tag.name)] + rest);
    FirstAbove(hides, within, depth, EndTag(tag.name), rest);
    if tag.name !in hides && open != [] { assert open[|open| - 1] in open; }
    assert Stacked(hides, within, EndTag(tag.name)) == open;
  }

  lemma FirstAbove(hides: set<string>, open: seq<string>, depth: nat, event: Event, rest: seq<Event>)
    ensures Above(hides, open, depth, [event] + rest) <==> depth <= |open| && Above(hides, Stacked(hides, open, event), depth, rest)
  {
    assert ([event] + rest)[1..] == rest;
  }

  lemma RawIsToken(events: seq<Event>) returns (content: string)
    requires Tokens(events) && BeginsRaw(events)
    ensures |events| >= 3 && events[..3] == [StartTag(events[0].tag), Content(events[0].tag, content), EndTag(events[0].tag.name)]
    ensures events == events[..3] + events[3..] && Tokens(events[3..])
  {
    content := events[1].text;
  }

  lemma TokensBehindRaw(events: seq<Event>, rest: seq<Event>)
    requires Tokens(events) && BeginsRaw(events) && |events| >= 3 && Tokens(rest)
    ensures Tokens(events[..3] + rest)
  {
    assert (events[..3] + rest)[3..] == rest;
  }

  /** Of what comes first alone the rest follows, cut off before an end tag. */
  lemma TokensBehindOne(events: seq<Event>, rest: seq<Event>)
    requires Tokens(events) && events != [] && !BeginsRaw(events) && Tokens(rest) && rest <= events[1..]
    ensures Tokens([events[0]] + rest)
  {
    assert ([events[0]] + rest)[1..] == rest;
    if rest != [] { assert rest[0] == events[1]; }
  }

  /** The end tag that closes the innermost of the first `depth` open elements, and what comes before and after it. */
  lemma {:induction false} FirstClosing(hides: set<string>, open: seq<string>, depth: nat, events: seq<Event>)
    returns (inner: seq<Event>, after: seq<Event>)
    requires Hiding(hides, open) && 0 < depth <= |open| && Tokens(events) && !Above(hides, open, depth, events)
    ensures events == inner + [EndTag(open[depth - 1])] + after && Tokens(inner) && Tokens(after)
    ensures Above(hides, open, depth, inner) && StackedAll(hides, open, inner) == open[..depth]
    decreases |events|
  {
    if BeginsRaw(events) {
      inner, after := FirstClosingBehindRaw(hides, open, depth, events);
    } else {
      var next := Stacked(hides, open, events[0]);
      if |next| < depth {
        inner, after := [], events[1..];
        assert open[..depth] == open;
      } else {
        var rest;
        rest, after := FirstClosing(hides, next, depth, events[1..]);
        TokensBehindOne(events, rest);
        inner := [events[0]] + rest;
        assert inner[1..] == rest;
        assert next[..depth] == open[..depth];
      }
    }
  }

  lemma {:induction false} FirstClosingBehindRaw(hides: set<string>, open: seq<string>, depth: nat, events: seq<Event>)
    returns (inner: seq<Event>, after: seq<Event>)
    requires Hiding(hides, open) && 0 < depth <= |open| && Tokens(events) && !Above(hides, open, depth, events) && BeginsRaw(events)
    ensures events == inner + [EndTag(open[depth - 1])] + after && Tokens(inner) && Tokens(after)
    ensures Above(hides, open, depth, inner) && StackedAll(hides, open, inner) == open[..depth]
    decreases |events|, 0
  {
    var content := RawIsToken(events);
    var raw := events[..3];
    RawIsPassed(hides, open, depth, events[0].tag, content, raw, events[3..]);
    var rest;
    rest, after := FirstClosing(hides, open, depth, events[3..]);
    inner := raw + rest;
    TokensBehindRaw(events, rest);
    RawIsPassed(hides, open, depth, events[0].tag, content, raw, rest);
    StackedSplits(hides, open, raw, rest);
  }

  /** Whatever a tokenizer gives is the events of a page whose stray end tags close nothing that hides. */
  lemma {:induction false} TreeOf(hides: set<string>, open: seq<string>, events: seq<Event>) returns (forest: Forest)
    requires Tokens(events) && Hiding(hides, open) && Above(hides, open, |open|, events)
    ensures Events(forest) == events && Strays(hides, open, forest)
    decreases |events|, 1
  {
    if events == [] {
      forest := Nothing;
    } else if BeginsRaw(events) {
      var content := RawIsToken(events);
      RawIsPassed(hides, open, |open|, events[0].tag, content, events[..3], events[3..]);
      var rest := TreeOf(hides, open, events[3..]);
      forest := Raw(events[0].tag, content, rest);
    } else {
      assert events == [events[0]] + events[1..];
      match events[0] {
        case TextRead(text) =>
          var rest := TreeOf(hides, open, events[1..]);
          forest := Text(text, rest);
        case EndTag(name) =>
          assert |open| <= |Stacked(hides, open, events[0])|;
          var rest := TreeOf(hides, open, events[1..]);
          forest := Stray(name, rest);
        case StartTag(tag) =>
          forest := TreeFromStart(hides, open, tag, events);
      }
    }
  }

  lemma {:induction false} TreeFromStart(hides: set<string>, open: seq<string>, tag: Tag, events: seq<Event>) returns (forest: Forest)
    requires Tokens(events) && Hiding(hides, open) && Above(hides, open, |open|, events)
    requires events != [] && !BeginsRaw(events) && events[0] == StartTag(tag)
    ensures Events(forest) == events && Strays(hides, open, forest)
    decreases |events|, 0
  {
    var within, rest := Stacked(hides, open, StartTag(tag)), events[1..];
    assert events == [StartTag(tag)] + rest;
    if Above(hides, within, |within|, rest) {
      var following := TreeOf(hides, within, rest);
      forest := Unclosed(tag, following);
    } else {
      var inner, after := FirstClosing(hides, within, |within|, rest);
      assert within[..|within|] == within;
      AfterTheClosing(hides, open, tag, within, inner, after);
      var children := TreeOf(hides, within, inner);
      var following := TreeOf(hides, open, after);
      forest := ElementOfTokens(hides, open, tag, within, children, following);
    }
  }

  lemma ElementOfTokens(hides: set<string>, open: seq<string>, tag: Tag, within: seq<string>, children: Forest, following: Forest)
    returns (forest: Forest)
    requires within == Stacked(hides, open, StartTag(tag)) && StackedAll(hides, within, Events(children)) == within
    requires Stacked(hides, within, EndTag(tag.name)) == open && Strays(hides, within, children) && Strays(hides, open, following)
    ensures Strays(hides, open, forest)
    ensures Events(forest) == [StartTag(tag)] + (Events(children) + [EndTag(tag.name)] + Events(following))
  {
    forest := Element(tag, children, following);
  }

  lemma AfterTheClosing(hides: set<string>, open: seq<string>, tag: Tag, within: seq<string>, inner: seq<Event>, after: seq<Event>)
    requires within == open + [tag.name] && StackedAll(hides, within, inner) == within
    requires Above(hides, within, |open|, inner + [EndTag(tag.name)] + after)
    ensures Stacked(hides, within, EndTag(tag.name)) == open && Above(hides, open, |open|, after)
  {
    var end := [EndTag(tag.name)];
    AboveSplits(hides, within, |open|, inner + end, after);
    StackedSplits(hides, within, inner, end);
    OneEvent(hides, within, EndTag(tag.name));
    assert within[..|within| - 1] == open;
  }

  /** So every page is a tree, however its tags stand. */
  lemma EveryPageIsATree(hides: set<string>, events: seq<Event>)
    requires Tokens(events)
    ensures exists forest :: Events(forest) == events && Strays(hides, [], forest)
  {
    AboveNothing(hides, [], events);
    var forest := TreeOf(hides, [], events);
  }

  lemma {:induction false} AboveNothing(hides: set<string>, open: seq<string>, events: seq<Event>)
    ensures Above(hides, open, 0, events)
    decreases events
  {
    if events != [] { AboveNothing(hides, Stacked(hides, open, events[0]), events[1..]); }
  }
}
