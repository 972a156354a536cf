/** What a page declares of itself as written: its canonical address, its languages and its structured data. */
module Metadata {
  import opened Options
  import opened PageTree
  import StructuredFacts

  const DORMANT: set<string> := {"template", "noscript"}
  const LINKS_READ := 2_000
  const SCRIPTS_KEPT := 50

  /** How attributes read: the words of a rel, an address against the page's own, and a script's type. */
  datatype Words = Words(rel: string -> set<string>, address: string -> Option<string>, isLdJson: string -> bool)

  function Attribute(tag: Tag, name: string): string {
    if name in tag.attributes then tag.attributes[name] else ""
  }

  predicate NamesLanguage(words: Words, tag: Tag) {
    "alternate" in words.rel(Attribute(tag, "rel")) && Attribute(tag, "hreflang") != ""
  }

  /** The canonical address a link declares, where it declares one that can be read. */
  function CanonicalOf(words: Words, tag: Tag): Option<string> {
    if "canonical" in words.rel(Attribute(tag, "rel")) && Attribute(tag, "href") != ""
    then words.address(Attribute(tag, "href")) else None
  }

  predicate IsLdJson(words: Words, event: Event) {
    event.Content? && event.tag.name == "script" && "type" in event.tag.attributes && words.isLdJson(event.tag.attributes["type"])
  }

  // ---- What a page's events declare, in turn ----

  function LinksIn(events: seq<Event>): seq<Tag> {
    if events == [] then []
    else
      var last := events[|events| - 1];
      LinksIn(events[..|events| - 1]) + if last.StartTag? && last.tag.name == "link" then [last.tag] else []
  }

  function ScriptsIn(words: Words, events: seq<Event>): seq<string> {
    if events == [] then []
    else
      var last := events[|events| - 1];
      ScriptsIn(words, events[..|events| - 1]) + if IsLdJson(words, last) then [last.text] else []
  }

  function Languages(words: Words, links: seq<Tag>): nat {
    if links == [] then 0
    else Languages(words, links[..|links| - 1]) + if NamesLanguage(words, links[|links| - 1]) then 1 else 0
  }

  /** The first canonical address among links that can be read. */
  function FirstCanonical(words: Words, links: seq<Tag>): Option<string> {
    if links == [] then None
    else
      var before := FirstCanonical(words, links[..|links| - 1]);
      if before.Some? then before else CanonicalOf(words, links[|links| - 1])
  }

  function AtMost<T>(items: seq<T>, count: nat): seq<T> {
    if |items| <= count then items else items[..count]
  }

  datatype Declared = Declared(canonical: Option<string>, hreflangCount: nat, jsonLd: seq<string>)

  /** What events declare: the first two thousand links, the first fifty scripts. */
  function DeclaredIn(words: Words, events: seq<Event>): Declared {
    var links := AtMost(LinksIn(events), LINKS_READ);
    Declared(FirstCanonical(words, links), Languages(words, links), AtMost(ScriptsIn(words, events), SCRIPTS_KEPT))
  }

  lemma LiveOfMore(hides: set<string>, read: seq<Event>, event: Event, live: seq<Event>, open: seq<string>)
    requires live == Live(hides, [], read) && open == StackedAll(hides, [], read)
    ensures Live(hides, [], read + [event]) == if open == [] then live + [event] else live
    ensures StackedAll(hides, [], read + [event]) == Stacked(hides, open, event)
  {
    LiveSplits(hides, [], read, [event]);
    StackedSplits(hides, [], read, [event]);
    OneLive(hides, open, event);
    OneEvent(hides, open, event);
    assert live + [] == live;
  }

  /** What a reader holds of the events met outside dormant elements. */
  ghost predicate Holds(words: Words, declared: Declared, linkCount: nat, live: seq<Event>) {
    linkCount == |LinksIn(live)| && declared == DeclaredIn(words, live)
  }

  lemma OtherDeclaresNothing(words: Words, declared: Declared, linkCount: nat, live: seq<Event>, event: Event)
    requires Holds(words, declared, linkCount, live)
    requires !(event.StartTag? && event.tag.name == "link") && !IsLdJson(words, event)
    ensures Holds(words, declared, linkCount, live + [event])
  {
    assert (live + [event])[..|live|] == live;
    assert LinksIn(live) + [] == LinksIn(live) && ScriptsIn(words, live) + [] == ScriptsIn(words, live);
  }

  lemma ScriptDeclares(words: Words, declared: Declared, linkCount: nat, live: seq<Event>, event: Event)
    requires Holds(words, declared, linkCount, live) && IsLdJson(words, event)
    ensures Holds(words, if |declared.jsonLd| < SCRIPTS_KEPT then declared.(jsonLd := declared.jsonLd + [event.text]) else declared,
                  linkCount, live + [event])
  {
    assert (live + [event])[..|live|] == live;
    assert LinksIn(live) + [] == LinksIn(live);
  }

  /** What one more link makes of the first canonical address and the count of languages. */
  function WithLink(words: Words, declared: Declared, link: Tag): Declared {
    declared.(hreflangCount := declared.hreflangCount + (if NamesLanguage(words, link) then 1 else 0),
              canonical := if declared.canonical.Some? then declared.canonical else CanonicalOf(words, link))
  }

  lemma LinkDeclares(words: Words, declared: Declared, linkCount: nat, live: seq<Event>, event: Event)
    requires Holds(words, declared, linkCount, live) && event.StartTag? && event.tag.name == "link"
    ensures Holds(words, if linkCount + 1 > LINKS_READ then declared else WithLink(words, declared, event.tag), linkCount + 1, live + [event])
  {
    assert (live + [event])[..|live|] == live;
    assert ScriptsIn(words, live) + [] == ScriptsIn(words, live);
    LinkAddsToTheFirst(words, LinksIn(live), event.tag);
  }

  lemma LinkAddsToTheFirst(words: Words, links: seq<Tag>, link: Tag)
    ensures var more, first := AtMost(links + [link], LINKS_READ), AtMost(links, LINKS_READ);
            if |links| >= LINKS_READ then more == first
            else && Languages(words, more) == Languages(words, first) + (if NamesLanguage(words, link) then 1 else 0)
                 && FirstCanonical(words, more) ==
                      if FirstCanonical(words, first).Some? then FirstCanonical(words, first) else CanonicalOf(words, link)
  {
    if |links| >= LINKS_READ {
      assert AtMost(links + [link], LINKS_READ) == AtMost(links, LINKS_READ);
    } else {
      assert (links + [link])[..|links|] == links;
    }
  }

  /** What a reader holds: what has been declared so far, and the links met. */
  datatype Sheet = Sheet(declared: Declared, links: nat)

  function ReadOne(words: Words, sheet: Sheet, event: Event): Sheet {
    match event
    case StartTag(tag) =>
      if tag.name != "link" then sheet
      else Sheet(if sheet.links + 1 > LINKS_READ then sheet.declared else WithLink(words, sheet.declared, tag), sheet.links + 1)
    case Content(_, text) =>
      if IsLdJson(words, event) && |sheet.declared.jsonLd| < SCRIPTS_KEPT
      then sheet.(declared := sheet.declared.(jsonLd := sheet.declared.jsonLd + [text])) else sheet
    case _ => sheet
  }

  function SheetOf(words: Words, live: seq<Event>): Sheet {
    if live == [] then Sheet(Declared(None, 0, []), 0)
    else ReadOne(words, SheetOf(words, live[..|live| - 1]), live[|live| - 1])
  }

  /** Event by event, a reader comes to hold what all the events declare. */
  lemma {:induction false} SheetDeclares(words: Words, live: seq<Event>)
    ensures Holds(words, SheetOf(words, live).declared, SheetOf(words, live).links, live)
  {
    if live != [] {
      var before, event := live[..|live| - 1], live[|live| - 1];
      var sheet := SheetOf(words, before);
      SheetDeclares(words, before);
      assert live == before + [event];
      if event.StartTag? && event.tag.name == "link" { LinkDeclares(words, sheet.declared, sheet.links, before, event); }
      else if IsLdJson(words, event) { ScriptDeclares(words, sheet.declared, sheet.links, before, event); }
      else { OtherDeclaresNothing(words, sheet.declared, sheet.links, before, event); }
    }
  }

  lemma OneMoreOnTheSheet(words: Words, live: seq<Event>, event: Event)
    ensures SheetOf(words, live + [event]) == ReadOne(words, SheetOf(words, live), event)
  {
    assert (live + [event])[..|live|] == live;
  }

  class MetadataReader {
    const words: Words
    const hides: set<string>
    var canonical: Option<string>
    var hreflangCount: nat
    var linkCount: nat
    var jsonLdValues: seq<string>
    var dormant: seq<string>
    ghost var read: seq<Event>

    function Held(): Sheet
      reads this
    {
      Sheet(Declared(canonical, hreflangCount, jsonLdValues), linkCount)
    }

    /** The reader holds what it made of the events met outside dormant elements. */
    ghost predicate Valid()
      reads this
    {
      && dormant == StackedAll(hides, [], read) && "link" !in hides
      && Held() == SheetOf(words, Live(hides, [], read))
    }

    constructor (words: Words, hides: set<string>)
      requires "link" !in hides
      ensures Valid() && read == [] && this.words == words && this.hides == hides
    {
      this.words, this.hides := words, hides;
      canonical, hreflangCount, linkCount, jsonLdValues, dormant, read := None, 0, 0, [], [], [];
    }

    method Read(event: Event)
      requires Valid()
      modifies this
      ensures Valid() && read == old(read) + [event]
    {
      LiveOfMore(hides, read, event, Live(hides, [], read), dormant);
      OneMoreOnTheSheet(words, Live(hides, [], read), event);
      read := read + [event];
      match event {
        case StartTag(tag) =>
          if tag.name in hides { dormant := dormant + [tag.name]; }
          else if |dormant| == 0 && tag.name == "link" { ReadLink(tag); }
        case EndTag(name) =>
          if |dormant| > 0 && dormant[|dormant| - 1] == name { dormant := dormant[..|dormant| - 1]; }
        case Content(tag, text) =>
          if |dormant| == 0 && IsLdJson(words, event) && |jsonLdValues| < SCRIPTS_KEPT { jsonLdValues := jsonLdValues + [text]; }
        case TextRead(_) =>
      }
    }

    method ReadLink(tag: Tag)
      requires tag.name == "link"
      modifies this`linkCount, this`hreflangCount, this`canonical
      ensures Held() == ReadOne(words, old(Held()), StartTag(tag))
    {
      linkCount := linkCount + 1;
      if linkCount > LINKS_READ { return; }
      if NamesLanguage(words, tag) { hreflangCount := hreflangCount + 1; }
      if canonical.None? { canonical := CanonicalOf(words, tag); }
    }
  }

  // ---- What is declared, place by place ----

  predicate IsLink(event: Event) {
    event.StartTag? && event.tag.name == "link"
  }

  /** The places of the links before a place. */
  function LinkPlaces(live: seq<Event>, n: nat): set<nat> {
    set i: nat | i < n && i < |live| && IsLink(live[i])
  }

  /** Whether a link's rel has a word; what has no rel reads as an empty one. */
  predicate HasRel(words: Words, tag: Tag, word: string) {
    word in words.rel(if "rel" in tag.attributes then tag.attributes["rel"] else "")
  }

  /** Whether a place is one of the first two thousand links. */
  predicate IsReadLink(live: seq<Event>, i: nat) {
    i < |live| && IsLink(live[i]) && |LinkPlaces(live, i)| < 2_000
  }

  /** Whether a link that is read names another language. */
  predicate LanguageAt(words: Words, live: seq<Event>, i: nat) {
    && IsReadLink(live, i) && HasRel(words, live[i].tag, "alternate")
    && "hreflang" in live[i].tag.attributes && |live[i].tag.attributes["hreflang"]| > 0
  }

  /** Whether a link that is read declares a canonical address that can be read. */
  predicate CanonicalAt(words: Words, live: seq<Event>, i: nat, address: string) {
    && IsReadLink(live, i) && HasRel(words, live[i].tag, "canonical")
    && "href" in live[i].tag.attributes && |live[i].tag.attributes["href"]| > 0
    && words.address(live[i].tag.attributes["href"]) == Some(address)
  }

  /** Whether a place is a script of linked data. */
  predicate ScriptAt(words: Words, live: seq<Event>, i: nat) {
    && i < |live| && live[i].Content? && live[i].tag.name == "script"
    && "type" in live[i].tag.attributes && words.isLdJson(live[i].tag.attributes["type"])
  }

  function ScriptPlaces(words: Words, live: seq<Event>, n: nat): set<nat> {
    set i: nat | i < n && ScriptAt(words, live, i)
  }

  function LanguagePlaces(words: Words, live: seq<Event>): set<nat> {
    set i: nat | i < |live| && LanguageAt(words, live, i)
  }

  /** The first canonical address of those links, where one of them declares one. */
  ghost predicate IsFirstCanonical(words: Words, live: seq<Event>, canonical: Option<string>) {
    match canonical
    case None => forall i: nat, address | i < |live| :: !CanonicalAt(words, live, i, address)
    case Some(first) =>
      exists i: nat | i < |live| :: CanonicalAt(words, live, i, first) && forall j: nat, address | j < i :: !CanonicalAt(words, live, j, address)
  }

  /** A script is held behind as many as stand before it, unless those are fifty. */
  predicate IsHeld(words: Words, live: seq<Event>, scripts: seq<string>, i: nat) {
    ScriptAt(words, live, i) && |ScriptPlaces(words, live, i)| < 50 ==>
      |ScriptPlaces(words, live, i)| < |scripts| && scripts[|ScriptPlaces(words, live, i)|] == live[i].text
  }

  ghost predicate AreFirstScripts(words: Words, live: seq<Event>, scripts: seq<string>) {
    && |scripts| == (if |ScriptPlaces(words, live, |live|)| < 50 then |ScriptPlaces(words, live, |live|)| else 50)
    && forall i: nat | i < |live| :: IsHeld(words, live, scripts, i)
  }

  lemma PlacesOfMore(words: Words, live: seq<Event>, event: Event, n: nat)
    requires n <= |live|
    ensures LinkPlaces(live + [event], n) == LinkPlaces(live, n) && ScriptPlaces(words, live + [event], n) == ScriptPlaces(words, live, n)
    ensures LinkPlaces(live + [event], |live| + 1) == LinkPlaces(live, |live|) + if IsLink(event) then {|live|} else {}
    ensures ScriptPlaces(words, live + [event], |live| + 1)
         == ScriptPlaces(words, live, |live|) + if IsLdJson(words, event) then {|live|} else {}
  {
    assert forall i: nat | i < |live| :: (live + [event])[i] == live[i];
  }

  /** What stood at a place stands there still, behind as many links and scripts. */
  lemma PlaceStays(words: Words, live: seq<Event>, event: Event, i: nat)
    requires i < |live|
    ensures IsReadLink(live + [event], i) == IsReadLink(live, i) && LanguageAt(words, live + [event], i) == LanguageAt(words, live, i)
    ensures forall address :: CanonicalAt(words, live + [event], i, address) == CanonicalAt(words, live, i, address)
    ensures ScriptAt(words, live + [event], i) == ScriptAt(words, live, i)
    ensures LinkPlaces(live + [event], i) == LinkPlaces(live, i) && ScriptPlaces(words, live + [event], i) == ScriptPlaces(words, live, i)
  {
    PlacesOfMore(words, live, event, i);
    assert (live + [event])[i] == live[i];
  }

  lemma LanguagesOfMore(words: Words, live: seq<Event>, event: Event)
    ensures LanguagePlaces(words, live + [event])
         == LanguagePlaces(words, live) + if LanguageAt(words, live + [event], |live|) then {|live|} else {}
  {
    forall i: nat | i < |live| ensures LanguageAt(words, live + [event], i) == LanguageAt(words, live, i) {
      PlaceStays(words, live, event, i);
    }
  }

  lemma {:induction false} LinksArePlaced(live: seq<Event>)
    ensures |LinksIn(live)| == |LinkPlaces(live, |live|)|
  {
    if live != [] {
      var before, event := live[..|live| - 1], live[|live| - 1];
      assert live == before + [event];
      LinksArePlaced(before);
      LinkPlacesOfMore(before, event);
    }
  }

  lemma LinkPlacesOfMore(live: seq<Event>, event: Event)
    ensures |LinkPlaces(live + [event], |live| + 1)| == |LinkPlaces(live, |live|)| + if IsLink(event) then 1 else 0
  {
    assert forall i: nat | i < |live| :: (live + [event])[i] == live[i];
    assert LinkPlaces(live + [event], |live| + 1) == LinkPlaces(live, |live|) + if IsLink(event) then {|live|} else {};
  }

  /** What the sheet holds is what the places declare. */
  lemma {:induction false} SheetIsByPlace(words: Words, live: seq<Event>, declared: Declared)
    requires declared == SheetOf(words, live).declared
    ensures declared.hreflangCount == |LanguagePlaces(words, live)|
    ensures IsFirstCanonical(words, live, declared.canonical) && AreFirstScripts(words, live, declared.jsonLd)
  {
    if live == [] {
      assert LanguagePlaces(words, live) == {} && ScriptPlaces(words, live, 0) == {};
    } else {
      var before, event := live[..|live| - 1], live[|live| - 1];
      var sheet := SheetOf(words, before);
      assert live == before + [event];
      SheetIsByPlace(words, before, sheet.declared);
      SheetDeclares(words, before);
      LinksArePlaced(before);
      LanguageByPlace(words, before, event, sheet);
      CanonicalByPlace(words, before, event, sheet);
      ScriptsByPlace(words, before, event, sheet);
    }
  }

  lemma LastPlace(words: Words, live: seq<Event>, event: Event)
    ensures IsReadLink(live + [event], |live|) <==> IsLink(event) && |LinkPlaces(live, |live|)| < 2_000
    ensures LanguageAt(words, live + [event], |live|) <==> IsReadLink(live + [event], |live|) && NamesLanguage(words, event.tag)
    ensures forall address :: CanonicalAt(words, live + [event], |live|, address) <==>
              IsReadLink(live + [event], |live|) && CanonicalOf(words, event.tag) == Some(address)
    ensures ScriptAt(words, live + [event], |live|) <==> IsLdJson(words, event)
  {
    PlacesOfMore(words, live, event, |live|);
    assert (live + [event])[|live|] == event;
  }

  lemma LanguageByPlace(words: Words, live: seq<Event>, event: Event, sheet: Sheet)
    requires sheet.declared.hreflangCount == |LanguagePlaces(words, live)| && sheet.links == |LinkPlaces(live, |live|)|
    ensures ReadOne(words, sheet, event).declared.hreflangCount == |LanguagePlaces(words, live + [event])|
  {
    LanguagesOfMore(words, live, event);
    LastPlace(words, live, event);
  }

  lemma CanonicalByPlace(words: Words, live: seq<Event>, event: Event, sheet: Sheet)
    requires IsFirstCanonical(words, live, sheet.declared.canonical) && sheet.links == |LinkPlaces(live, |live|)|
    ensures IsFirstCanonical(words, live + [event], ReadOne(words, sheet, event).declared.canonical)
  {
    LastPlace(words, live, event);
    forall i: nat, address | i < |live| ensures CanonicalAt(words, live + [event], i, address) == CanonicalAt(words, live, i, address) {
      PlaceStays(words, live, event, i);
    }
    var canonical := ReadOne(words, sheet, event).declared.canonical;
    if sheet.declared.canonical.Some? {
      var i: nat :| i < |live| && CanonicalAt(words, live, i, canonical.value)
                    && forall j: nat, address | j < i :: !CanonicalAt(words, live, j, address);
      assert CanonicalAt(words, live + [event], i, canonical.value);
    } else if canonical.Some? {
      assert CanonicalAt(words, live + [event], |live|, canonical.value);
    }
  }

  /** The number of scripts held after one more event, and what the last of them is. */
  lemma ScriptsCount(words: Words, live: seq<Event>, event: Event, before: nat)
    requires before == |ScriptPlaces(words, live, |live|)|
    ensures |ScriptPlaces(words, live + [event], |live| + 1)| == before + if IsLdJson(words, event) then 1 else 0
    ensures |ScriptPlaces(words, live + [event], |live|)| == before
  {
    PlacesOfMore(words, live, event, |live|);
  }

  lemma HeldStill(words: Words, live: seq<Event>, event: Event, scripts: seq<string>, more: seq<string>, i: nat)
    requires i < |live| && scripts <= more && IsHeld(words, live, scripts, i)
    ensures IsHeld(words, live + [event], more, i)
  {
    PlaceStays(words, live, event, i);
    assert (live + [event])[i] == live[i];
  }

  lemma HeldLast(words: Words, live: seq<Event>, event: Event, more: seq<string>, before: nat)
    requires before == |ScriptPlaces(words, live, |live|)|
    requires IsLdJson(words, event) && before < 50 ==> before < |more| && more[before] == event.text
    ensures IsHeld(words, live + [event], more, |live|)
  {
    LastPlace(words, live, event);
    ScriptsCount(words, live, event, before);
    assert (live + [event])[|live|] == event;
  }

  lemma ScriptsByPlace(words: Words, live: seq<Event>, event: Event, sheet: Sheet)
    requires AreFirstScripts(words, live, sheet.declared.jsonLd)
    ensures AreFirstScripts(words, live + [event], ReadOne(words, sheet, event).declared.jsonLd)
  {
    var scripts, jsonLd, before := sheet.declared.jsonLd, ReadOne(words, sheet, event).declared.jsonLd, |ScriptPlaces(words, live, |live|)|;
    ScriptsCount(words, live, event, before);
    HeldLast(words, live, event, jsonLd, before);
    forall i: nat | i < |live| ensures IsHeld(words, live + [event], jsonLd, i) {
      HeldStill(words, live, event, scripts, jsonLd, i);
    }
  }

  /**
   * What a page declares is, of its first two thousand links, the first canonical address that can be read and the
   * number of those that name another language, and, in order, its first fifty scripts of linked data.
   */
  lemma WhatIsDeclared(words: Words, live: seq<Event>, declared: Declared)
    requires declared == DeclaredIn(words, live)
    ensures declared.hreflangCount == |LanguagePlaces(words, live)|
    ensures IsFirstCanonical(words, live, declared.canonical) && AreFirstScripts(words, live, declared.jsonLd)
  {
    SheetIsByPlace(words, live, SheetOf(words, live).declared);
    SheetDeclares(words, live);
  }

  lemma LinkIsNotDormant()
    ensures "link" !in DORMANT
  {
    assert |"link"| == 4 && |"template"| == 8 && |"noscript"| == 8;
  }

  /** All that is told of a page as written. */
  datatype Snapshot = Snapshot(canonical: Option<string>, hreflangCount: nat, jsonLdCount: nat, facts: StructuredFacts.Summary)

  /** A snapshot tells what was declared: of the scripts, their number and what they state together. */
  ghost predicate Tells(texts: StructuredFacts.Texts, snapshot: Snapshot, declared: Declared) {
    && snapshot.canonical == declared.canonical && snapshot.hreflangCount == declared.hreflangCount
    && snapshot.jsonLdCount == |declared.jsonLd|
    && StructuredFacts.Summarizes(snapshot.facts, StructuredFacts.OfScripts(texts, declared.jsonLd))
  }

  /** What a page as read tells is what its tree declares, whatever lies in templates and noscripts left out. */
  method ExtractRawMetadata(words: Words, texts: StructuredFacts.Texts, events: seq<Event>) returns (snapshot: Snapshot)
    ensures var hides := {"template", "noscript"};
            && Tells(texts, snapshot, DeclaredIn(words, Live(hides, [], events)))
            && forall forest | events == Events(forest) && Strays(hides, [], forest) ::
                 Tells(texts, snapshot, DeclaredIn(words, LiveOf(hides, forest)))
  {
    var declared := ReadDeclared(words, events);
    assert |declared.jsonLd| <= 50;
    var facts := StructuredFacts.MetadataFromJsonLd(texts, declared.jsonLd);
    snapshot := Snapshot(declared.canonical, declared.hreflangCount, |declared.jsonLd|, facts);
    forall forest | events == Events(forest) && Strays(DORMANT, [], forest) ensures Tells(texts, snapshot, DeclaredIn(words, LiveOf(DORMANT, forest))) {
      LiveIsOfTheTree(DORMANT, forest);
    }
  }

  method ReadDeclared(words: Words, events: seq<Event>) returns (declared: Declared)
    ensures declared == DeclaredIn(words, Live(DORMANT, [], events))
  {
    LinkIsNotDormant();
    var reader := new MetadataReader(words, DORMANT);
    for i := 0 to |events|
      invariant reader.Valid() && reader.read == events[..i] && reader.words == words && reader.hides == DORMANT
      invariant fresh(reader)
    {
      assert events[..i + 1] == events[..i] + [events[i]];
      reader.Read(events[i]);
    }
    assert events[..|events|] == events;
    declared := reader.Held().declared;
    SheetDeclares(words, Live(DORMANT, [], events));
  }
}
