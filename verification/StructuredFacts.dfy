/** The facts a page's structured data states, gathered by one walk into one record. */
module StructuredFacts {
  import opened Options
  import opened TextUnits
  import opened Whitespace

  const DEEPEST := 20
  const ITEMS_READ := 200
  const KEYS_READ := 300
  const SCRIPTS_READ := 50
  const LONGEST := 512 * 1024

  datatype Json =
    | Null
    | Bool(value: bool)
    | Number
    | Text(text: string)
    | Items(items: seq<Json>)
    | Entries(entries: seq<(string, Json)>)

  /** What the language's own text and JSON functions answer. */
  datatype Texts = Texts(lowered: string -> string, raised: string -> string, parse: string -> Option<Json>)

  datatype Facts = Facts(
    currencies: set<string>,
    availability: set<string>,
    priceCount: nat,
    hasContact: bool,
    hasOpeningHours: bool)

  const NOTHING := Facts({}, {}, 0, false, false)

  function Joined(one: Facts, other: Facts): Facts {
    Facts(one.currencies + other.currencies, one.availability + other.availability, one.priceCount + other.priceCount,
          one.hasContact || other.hasContact, one.hasOpeningHours || other.hasOpeningHours)
  }

  predicate IsLetter(c: char) {
    'a' <= c <= 'z' || 'A' <= c <= 'Z'
  }

  /** Three letters. */
  predicate IsCurrency(text: string) {
    |text| == 3 && IsLetter(text[0]) && IsLetter(text[1]) && IsLetter(text[2])
  }

  predicate StartsWith(text: string, start: string) {
    |start| <= |text| && text[..|start|] == start
  }

  function NormalizeFact(texts: Texts, text: string): string {
    var lowered := texts.lowered(Trim(text));
    if StartsWith(lowered, "http://schema.org/") then lowered[18..]
    else if StartsWith(lowered, "https://schema.org/") then lowered[19..]
    else lowered
  }

  /** What one entry states by itself. */
  function Stated(texts: Texts, key: string, value: Json): Facts {
    var name := texts.lowered(key);
    if value.Text? then
      if name == "pricecurrency" && IsCurrency(value.text) then NOTHING.(currencies := {texts.raised(value.text)})
      else if name == "availability" then NOTHING.(availability := {NormalizeFact(texts, value.text)})
      else if name == "price" && Trim(value.text) != "" then NOTHING.(priceCount := 1)
      else if name == "telephone" || name == "email" || name == "contactpoint" then NOTHING.(hasContact := true)
      else if StartsWith(name, "openinghours") then NOTHING.(hasOpeningHours := true)
      else NOTHING
    else if value.Number? && name == "price" then NOTHING.(priceCount := 1)
    else NOTHING
  }

  function Min(a: nat, b: nat): nat { if a <= b then a else b }

  /** How many of a value's own are read. */
  function Width(value: Json): nat {
    match value
    case Items(items) => Min(|items|, ITEMS_READ)
    case Entries(entries) => Min(|entries|, KEYS_READ)
    case _ => 0
  }

  /** One of a value's own, where a walk goes on. */
  function Child(value: Json, i: nat): (child: Json)
    requires i < Width(value)
    ensures child < value
  {
    match value
    case Items(items) => items[i]
    case Entries(entries) => assert entries[i].1 < value; entries[i].1
  }

  function StatedAt(texts: Texts, value: Json, i: nat): Facts
    requires i < Width(value)
  {
    match value
    case Items(_) => NOTHING
    case Entries(entries) => Stated(texts, entries[i].0, entries[i].1)
  }

  /** All that a value states, its parts together, as deep as it is read. */
  function Collected(texts: Texts, value: Json, depth: nat): Facts
    decreases value, Width(value) + 1
  {
    if depth > DEEPEST then NOTHING else CollectedTo(texts, value, depth, Width(value))
  }

  function CollectedTo(texts: Texts, value: Json, depth: nat, n: nat): Facts
    requires n <= Width(value)
    decreases value, n
  {
    if n == 0 then NOTHING
    else Joined(CollectedTo(texts, value, depth, n - 1),
                Joined(StatedAt(texts, value, n - 1), Collected(texts, Child(value, n - 1), depth + 1)))
  }

  lemma JoinedInAnyGrouping(a: Facts, b: Facts, c: Facts)
    ensures Joined(Joined(a, b), c) == Joined(a, Joined(b, c))
    ensures Joined(a, NOTHING) == a && Joined(NOTHING, a) == a
  {
  }

  // ---- The walk, into one record ----

  class Result {
    var currencies: set<string>
    var availability: set<string>
    var priceCount: nat
    var hasContact: bool
    var hasOpeningHours: bool

    function Now(): Facts
      reads this
    {
      Facts(currencies, availability, priceCount, hasContact, hasOpeningHours)
    }

    constructor ()
      ensures Now() == NOTHING
    {
      currencies, availability, priceCount, hasContact, hasOpeningHours := {}, {}, 0, false, false;
    }

    method State(texts: Texts, key: string, item: Json)
      modifies this
      ensures Now() == Joined(old(Now()), Stated(texts, key, item))
    {
      var normalizedKey := texts.lowered(key);
      if item.Text? {
        if normalizedKey == "pricecurrency" && IsCurrency(item.text) {
          currencies := currencies + {texts.raised(item.text)};
        } else if normalizedKey == "availability" {
          availability := availability + {NormalizeFact(texts, item.text)};
        } else if normalizedKey == "price" && Trim(item.text) != "" {
          priceCount := priceCount + 1;
        } else if normalizedKey == "telephone" || normalizedKey == "email" || normalizedKey == "contactpoint" {
          hasContact := true;
        } else if StartsWith(normalizedKey, "openinghours") {
          hasOpeningHours := true;
        }
      } else if item.Number? && normalizedKey == "price" {
        priceCount := priceCount + 1;
      }
    }
  }

  method CollectStructuredFacts(texts: Texts, value: Json, result: Result, depth: nat)
    modifies result
    ensures result.Now() == Joined(old(result.Now()), Collected(texts, value, depth))
    decreases value, 1
  {
    ghost var before := result.Now();
    assert Joined(before, NOTHING) == before;
    if depth > DEEPEST { return; }
    for i := 0 to Width(value)
      invariant result.Now() == Joined(before, CollectedTo(texts, value, depth, i))
    {
      ghost var child := Joined(StatedAt(texts, value, i), Collected(texts, Child(value, i), depth + 1));
      JoinedInAnyGrouping(before, CollectedTo(texts, value, depth, i), child);
      CollectChild(texts, value, i, result, depth);
    }
  }

  /** One of a value's own: what it states by itself, and all below it. */
  method CollectChild(texts: Texts, value: Json, i: nat, result: Result, depth: nat)
    requires i < Width(value)
    modifies result
    ensures result.Now() == Joined(old(result.Now()), Joined(StatedAt(texts, value, i), Collected(texts, Child(value, i), depth + 1)))
    decreases value, 0
  {
    var child := Child(value, i);
    JoinedInAnyGrouping(result.Now(), StatedAt(texts, value, i), Collected(texts, child, depth + 1));
    if value.Entries? { result.State(texts, value.entries[i].0, child); }
    CollectStructuredFacts(texts, child, result, depth + 1);
  }

  // ---- What is gathered, entry by entry ----

  /** The value a path of places leads to, each place among those read. */
  function At(value: Json, path: seq<nat>): Option<Json> {
    if path == [] then Some(value)
    else if path[0] < Width(value) then At(Child(value, path[0]), path[1..])
    else None
  }

  /** Whether a path leads to an entry no deeper than is read, counted from a value met at a depth. */
  predicate IsEntry(value: Json, depth: nat, path: seq<nat>, i: nat) {
    && depth + |path| <= DEEPEST
    && At(value, path).Some? && At(value, path).value.Entries? && i < Width(At(value, path).value)
  }

  function EntryAt(value: Json, path: seq<nat>, i: nat): (string, Json)
    requires At(value, path).Some? && At(value, path).value.Entries? && i < Width(At(value, path).value)
  {
    At(value, path).value.entries[i]
  }

  /** What the entry at a path states by itself. */
  function StatedBy(texts: Texts, value: Json, path: seq<nat>, i: nat): Facts
    requires At(value, path).Some? && At(value, path).value.Entries? && i < Width(At(value, path).value)
  {
    Stated(texts, EntryAt(value, path, i).0, EntryAt(value, path, i).1)
  }

  /** No fact is gathered but from an entry that lies within reach, and from every such entry. */
  predicate Within(one: Facts, other: Facts) {
    && one.currencies <= other.currencies && one.availability <= other.availability && one.priceCount <= other.priceCount
    && (one.hasContact ==> other.hasContact) && (one.hasOpeningHours ==> other.hasOpeningHours)
  }

  lemma {:induction false} ChildIsWithin(texts: Texts, value: Json, depth: nat, i: nat, n: nat)
    requires i < n <= Width(value)
    ensures Within(StatedAt(texts, value, i), CollectedTo(texts, value, depth, n))
    ensures Within(Collected(texts, Child(value, i), depth + 1), CollectedTo(texts, value, depth, n))
  {
    if i < n - 1 { ChildIsWithin(texts, value, depth, i, n - 1); }
  }

  /** Whatever an entry within reach states is gathered. */
  lemma {:induction false} EveryEntryIsGathered(texts: Texts, value: Json, depth: nat, path: seq<nat>, i: nat)
    requires IsEntry(value, depth, path, i)
    ensures Within(StatedBy(texts, value, path, i), Collected(texts, value, depth))
    decreases |path|
  {
    if path == [] {
      ChildIsWithin(texts, value, depth, i, Width(value));
    } else {
      ChildIsWithin(texts, value, depth, path[0], Width(value));
      EveryEntryIsGathered(texts, Child(value, path[0]), depth + 1, path[1..], i);
    }
  }

  /** Something one entry may state: a currency, an availability, a way to reach the shop, or its hours. */
  datatype Fact = Currency(name: string) | Availability(name: string) | Contact | OpeningHours

  predicate Holds(facts: Facts, fact: Fact) {
    match fact
    case Currency(name) => name in facts.currencies
    case Availability(name) => name in facts.availability
    case Contact => facts.hasContact
    case OpeningHours => facts.hasOpeningHours
  }

  lemma HeldByOne(one: Facts, other: Facts, fact: Fact)
    ensures Holds(Joined(one, other), fact) <==> Holds(one, fact) || Holds(other, fact)
  {
  }

  /** Where something gathered was stated. */
  lemma {:induction false} GatheredFromAnEntry(texts: Texts, value: Json, depth: nat, fact: Fact) returns (path: seq<nat>, i: nat)
    requires Holds(Collected(texts, value, depth), fact)
    ensures IsEntry(value, depth, path, i) && Holds(StatedBy(texts, value, path, i), fact)
    decreases value, Width(value) + 1
  {
    path, i := GatheredTo(texts, value, depth, fact, Width(value));
  }

  lemma HeldByAPart(texts: Texts, value: Json, depth: nat, fact: Fact, n: nat)
    requires n <= Width(value) && Holds(CollectedTo(texts, value, depth, n), fact)
    ensures n > 0
    ensures || Holds(CollectedTo(texts, value, depth, n - 1), fact) || Holds(StatedAt(texts, value, n - 1), fact)
            || Holds(Collected(texts, Child(value, n - 1), depth + 1), fact)
  {
    var stated, child := StatedAt(texts, value, n - 1), Child(value, n - 1);
    HeldByOne(CollectedTo(texts, value, depth, n - 1), Joined(stated, Collected(texts, child, depth + 1)), fact);
    HeldByOne(stated, Collected(texts, child, depth + 1), fact);
  }

  lemma {:induction false} GatheredTo(texts: Texts, value: Json, depth: nat, fact: Fact, n: nat) returns (path: seq<nat>, i: nat)
    requires depth <= DEEPEST && n <= Width(value) && Holds(CollectedTo(texts, value, depth, n), fact)
    ensures IsEntry(value, depth, path, i) && Holds(StatedBy(texts, value, path, i), fact)
    decreases value, n
  {
    var stated, child := StatedAt(texts, value, n - 1), Child(value, n - 1);
    HeldByAPart(texts, value, depth, fact, n);
    if Holds(CollectedTo(texts, value, depth, n - 1), fact) {
      path, i := GatheredTo(texts, value, depth, fact, n - 1);
    } else if Holds(stated, fact) {
      path, i := [], n - 1;
    } else {
      var below, j := GatheredFromAnEntry(texts, child, depth + 1, fact);
      OneDeeper(texts, value, depth, n - 1, below, j);
      path, i := [n - 1] + below, j;
    }
  }

  lemma OneDeeper(texts: Texts, value: Json, depth: nat, first: nat, below: seq<nat>, i: nat)
    requires first < Width(value) && IsEntry(Child(value, first), depth + 1, below, i)
    ensures IsEntry(value, depth, [first] + below, i)
    ensures StatedBy(texts, value, [first] + below, i) == StatedBy(texts, Child(value, first), below, i)
  {
    assert ([first] + below)[1..] == below;
  }

  // ---- What an entry states, and which are read ----

  predicate SmallOrCapital(c: char) {
    c in "abcdefghijklmnopqrstuvwxyz" || c in "ABCDEFGHIJKLMNOPQRSTUVWXYZ"
  }

  /** A name less the address of the vocabulary it may stand behind. */
  predicate LessVocabulary(text: string, name: string) {
    if "http://schema.org/" <= text then text == "http://schema.org/" + name
    else if "https://schema.org/" <= text then text == "https://schema.org/" + name
    else text == name
  }

  /** A text of three letters, and the code it is in capitals. */
  ghost predicate IsCode(texts: Texts, text: string, code: string) {
    code == texts.raised(text) && exists a, b, c :: SmallOrCapital(a) && SmallOrCapital(b) && SmallOrCapital(c) && text == [a, b, c]
  }

  /** Whether an entry, by its own key and text, states a fact. */
  ghost predicate States(texts: Texts, key: string, value: Json, fact: Fact) {
    && value.Text?
    && var name := texts.lowered(key);
       match fact
       case Currency(code) => name == "pricecurrency" && IsCode(texts, value.text, code)
       case Availability(state) => name == "availability" && LessVocabulary(texts.lowered(Trim(value.text)), state)
       case Contact => name == "contactpoint" || name == "email" || name == "telephone"
       case OpeningHours => "openinghours" <= name
  }

  /** A price is a number, or a text that is not blank. */
  predicate StatesPrice(texts: Texts, key: string, value: Json) {
    texts.lowered(key) == "price" && (value.Number? || (value.Text? && exists c | c in value.text :: !IsSpace(c)))
  }

  lemma LettersAre(c: char)
    ensures SmallOrCapital(c) <==> IsLetter(c)
  {
    var small, capital := "abcdefghijklmnopqrstuvwxyz", "ABCDEFGHIJKLMNOPQRSTUVWXYZ";
    assert forall i | 0 <= i < 26 :: small[i] as int == 'a' as int + i && capital[i] as int == 'A' as int + i;
    if 'a' <= c <= 'z' { assert small[c as int - 'a' as int] == c; }
    if 'A' <= c <= 'Z' { assert capital[c as int - 'A' as int] == c; }
  }

  lemma CurrencyIs(text: string)
    ensures IsCurrency(text) <==> exists a, b, c :: SmallOrCapital(a) && SmallOrCapital(b) && SmallOrCapital(c) && text == [a, b, c]
  {
    if |text| == 3 {
      LettersAre(text[0]);
      LettersAre(text[1]);
      LettersAre(text[2]);
      assert text == [text[0], text[1], text[2]];
    }
  }

  lemma FactIs(texts: Texts, text: string, name: string)
    ensures name == NormalizeFact(texts, text) <==> LessVocabulary(texts.lowered(Trim(text)), name)
  {
    var lowered := texts.lowered(Trim(text));
    assert |"http://schema.org/"| == 18 && |"https://schema.org/"| == 19;
    if "http://schema.org/" <= lowered { assert lowered == "http://schema.org/" + lowered[18..]; }
    else if "https://schema.org/" <= lowered { assert lowered == "https://schema.org/" + lowered[19..]; }
  }

  lemma WhatATextStates(texts: Texts, key: string, value: Json, fact: Fact)
    requires value.Text?
    ensures Holds(Stated(texts, key, value), fact) <==>
              match fact
              case Currency(code) => texts.lowered(key) == "pricecurrency" && IsCurrency(value.text) && code == texts.raised(value.text)
              case Availability(state) => texts.lowered(key) == "availability" && state == NormalizeFact(texts, value.text)
              case Contact => texts.lowered(key) in ["contactpoint", "email", "telephone"]
              case OpeningHours => StartsWith(texts.lowered(key), "openinghours")
  {
    var name := texts.lowered(key);
    NamesDiffer(name);
  }

  /** No two of the names that count are the same, and only one begins as opening hours do. */
  lemma NamesDiffer(name: string)
    ensures name == "pricecurrency" ==> name != "availability" && name != "price"
    ensures name in ["pricecurrency", "availability", "price", "contactpoint", "email", "telephone"] ==> !StartsWith(name, "openinghours")
    ensures name in ["contactpoint", "email", "telephone"] ==> name != "pricecurrency" && name != "availability" && name != "price"
    ensures name == "availability" ==> name != "price"
  {
    assert |"pricecurrency"| == 13 && |"availability"| == 12 && |"price"| == 5 && |"contactpoint"| == 12 && |"email"| == 5 && |"telephone"| == 9;
    assert "openinghours"[0] == 'o' && "availability"[0] == 'a' && "price"[0] == 'p' && "contactpoint"[0] == 'c' && "email"[0] == 'e';
    assert "telephone"[0] == 't' && "pricecurrency"[0] == 'p';
    if StartsWith(name, "openinghours") { assert name[0] == name[..12][0]; }
  }

  lemma WhatAnEntryStates(texts: Texts, key: string, value: Json, fact: Fact)
    ensures Holds(Stated(texts, key, value), fact) <==> States(texts, key, value, fact)
  {
    if value.Text? {
      WhatATextStates(texts, key, value, fact);
      match fact
      case Currency(_) => CurrencyIs(value.text);
      case Availability(name) => FactIs(texts, value.text, name);
      case Contact =>
      case OpeningHours => BeginsWith(texts.lowered(key), "openinghours");
    }
  }

  lemma BeginsWith(text: string, start: string)
    ensures StartsWith(text, start) <==> start <= text
  {
  }

  lemma WhatAnEntryCounts(texts: Texts, key: string, value: Json)
    ensures Stated(texts, key, value).priceCount == if StatesPrice(texts, key, value) then 1 else 0
  {
    if value.Text? { var before, after := TrimTakesTheEnds(value.text); }
  }

  /** One step of a walk: to one of the first two hundred items of a list, or three hundred entries of a record. */
  predicate Goes(from: Json, i: nat, to: Json) {
    || (from.Items? && i < 200 && i < |from.items| && from.items[i] == to)
    || (from.Entries? && i < 300 && i < |from.entries| && from.entries[i].1 == to)
  }

  ghost predicate Leads(from: Json, path: seq<nat>, to: Json) {
    if path == [] then from == to else exists next :: Goes(from, path[0], next) && Leads(next, path[1..], to)
  }

  /** Whether a path leads, in twenty steps at most, to a record one of whose first three hundred entries is this. */
  ghost predicate IsRead(value: Json, path: seq<nat>, i: nat, key: string, item: Json) {
    && |path| <= 20
    && exists record :: Leads(value, path, record) && record.Entries? && i < 300 && i < |record.entries| && record.entries[i] == (key, item)
  }

  lemma {:induction false} LeadsWhereItIs(value: Json, path: seq<nat>, to: Json)
    ensures Leads(value, path, to) <==> At(value, path) == Some(to)
    decreases |path|
  {
    if path != [] {
      if path[0] < Width(value) {
        LeadsWhereItIs(Child(value, path[0]), path[1..], to);
        assert Goes(value, path[0], Child(value, path[0]));
      }
      forall next | Goes(value, path[0], next) ensures path[0] < Width(value) && next == Child(value, path[0]) {}
    }
  }

  lemma ReadIsEntry(value: Json, path: seq<nat>, i: nat, key: string, item: Json)
    ensures IsRead(value, path, i, key, item) <==> IsEntry(value, 0, path, i) && EntryAt(value, path, i) == (key, item)
  {
    if At(value, path).Some? { LeadsWhereItIs(value, path, At(value, path).value); }
    forall record | Leads(value, path, record) ensures At(value, path) == Some(record) { LeadsWhereItIs(value, path, record); }
  }

  /** A fact is gathered exactly where an entry that is read states it. */
  lemma GatheredExactly(texts: Texts, value: Json, fact: Fact)
    ensures Holds(Collected(texts, value, 0), fact)
       <==> exists path, i, key, item :: IsRead(value, path, i, key, item) && States(texts, key, item, fact)
  {
    if Holds(Collected(texts, value, 0), fact) {
      var path, i := GatheredFromAnEntry(texts, value, 0, fact);
      var entry := EntryAt(value, path, i);
      ReadIsEntry(value, path, i, entry.0, entry.1);
      WhatAnEntryStates(texts, entry.0, entry.1, fact);
    }
    if path, i, key, item :| IsRead(value, path, i, key, item) && States(texts, key, item, fact) {
      ReadIsEntry(value, path, i, key, item);
      WhatAnEntryStates(texts, key, item, fact);
      EveryEntryIsGathered(texts, value, 0, path, i);
    }
  }

  // ---- Prices, each counted once ----

  /** An entry's place: the path to its record, and which of its entries it is. */
  datatype Place = Place(path: seq<nat>, i: nat)

  /** Whether the entry at a place within reach states a price. */
  predicate IsPrice(texts: Texts, value: Json, depth: nat, p: Place) {
    IsEntry(value, depth, p.path, p.i) && StatedBy(texts, value, p.path, p.i).priceCount == 1
  }

  /** Which of a value's own a place lies at or below. */
  function FirstOf(p: Place): nat {
    if p.path == [] then p.i else p.path[0]
  }

  predicate IsBelow(p: Place, first: nat) {
    p.path != [] && p.path[0] == first
  }

  function Rest(p: Place): Place
    requires p.path != []
  {
    Place(p.path[1..], p.i)
  }

  /** The places below one of a value's own, as places of the value. */
  lemma {:induction false} Lifted(first: nat, below: set<Place>) returns (places: set<Place>)
    ensures |places| == |below|
    ensures forall p: Place :: p in places <==> IsBelow(p, first) && Rest(p) in below
    decreases below
  {
    places := {};
    if below != {} {
      var one :| one in below;
      var others := Lifted(first, below - {one});
      var lifted := Place([first] + one.path, one.i);
      assert Rest(lifted) == one;
      places := others + {lifted};
      forall p: Place | IsBelow(p, first) && Rest(p) == one ensures p == lifted {
        assert p.path == [first] + p.path[1..];
      }
    }
  }

  lemma PriceBelow(texts: Texts, value: Json, depth: nat, p: Place)
    requires depth <= DEEPEST && p.path != [] && p.path[0] < Width(value)
    ensures IsPrice(texts, value, depth, p) <==> IsPrice(texts, Child(value, p.path[0]), depth + 1, Rest(p))
  {
    if IsEntry(Child(value, p.path[0]), depth + 1, p.path[1..], p.i) {
      OneDeeper(texts, value, depth, p.path[0], p.path[1..], p.i);
      assert p.path == [p.path[0]] + p.path[1..];
    }
  }

  /** The places of prices at or below the first n of a value's own. */
  ghost predicate PricesTo(texts: Texts, value: Json, depth: nat, n: nat, places: set<Place>) {
    forall p: Place :: p in places <==> IsPrice(texts, value, depth, p) && FirstOf(p) < n
  }

  ghost predicate AllPrices(texts: Texts, value: Json, depth: nat, places: set<Place>) {
    forall p: Place :: p in places <==> IsPrice(texts, value, depth, p)
  }

  /** The prices a value's parts state, counted alone. */
  function PriceCount(texts: Texts, value: Json, depth: nat): nat
    decreases value, Width(value) + 1
  {
    if depth > DEEPEST then 0 else PriceCountTo(texts, value, depth, Width(value))
  }

  function PriceCountTo(texts: Texts, value: Json, depth: nat, n: nat): nat
    requires n <= Width(value)
    decreases value, n
  {
    if n == 0 then 0
    else PriceCountTo(texts, value, depth, n - 1) + PriceCount(texts, Child(value, n - 1), depth + 1) + StatedAt(texts, value, n - 1).priceCount
  }

  lemma {:induction false} PricesAreCollected(texts: Texts, value: Json, depth: nat)
    ensures Collected(texts, value, depth).priceCount == PriceCount(texts, value, depth)
    decreases value, Width(value) + 1
  {
    if depth <= DEEPEST { PricesAreCollectedTo(texts, value, depth, Width(value)); }
  }

  lemma {:induction false} PricesAreCollectedTo(texts: Texts, value: Json, depth: nat, n: nat)
    requires n <= Width(value)
    ensures CollectedTo(texts, value, depth, n).priceCount == PriceCountTo(texts, value, depth, n)
    decreases value, n
  {
    if n > 0 {
      PricesAreCollectedTo(texts, value, depth, n - 1);
      PricesAreCollected(texts, Child(value, n - 1), depth + 1);
      OneMoreCollected(texts, value, depth, n, Collected(texts, Child(value, n - 1), depth + 1));
    }
  }

  lemma OneMoreCollected(texts: Texts, value: Json, depth: nat, n: nat, below: Facts)
    requires 0 < n <= Width(value) && below == Collected(texts, Child(value, n - 1), depth + 1)
    ensures CollectedTo(texts, value, depth, n).priceCount
         == CollectedTo(texts, value, depth, n - 1).priceCount + (StatedAt(texts, value, n - 1).priceCount + below.priceCount)
  {
  }

  lemma {:induction false} PricesOf(texts: Texts, value: Json, depth: nat) returns (places: set<Place>)
    ensures |places| == PriceCount(texts, value, depth) && AllPrices(texts, value, depth, places)
    decreases value, Width(value) + 1
  {
    if depth > DEEPEST { return {}; }
    places := PricesUpTo(texts, value, depth, Width(value));
    forall p: Place | IsPrice(texts, value, depth, p) ensures FirstOf(p) < Width(value) {
      assert At(value, p.path).Some?;
    }
  }

  lemma {:induction false} PricesUpTo(texts: Texts, value: Json, depth: nat, n: nat) returns (places: set<Place>)
    requires depth <= DEEPEST && n <= Width(value)
    ensures |places| == PriceCountTo(texts, value, depth, n) && PricesTo(texts, value, depth, n, places)
    decreases value, n
  {
    if n == 0 {
      NoneYet(texts, value, depth);
      places := {};
    } else {
      var before := PricesUpTo(texts, value, depth, n - 1);
      var below := PricesOf(texts, Child(value, n - 1), depth + 1);
      places := OneMorePlace(texts, value, depth, n, before, below, StatedAt(texts, value, n - 1).priceCount);
    }
  }

  lemma NoneYet(texts: Texts, value: Json, depth: nat)
    ensures PricesTo(texts, value, depth, 0, {})
  {
  }

  lemma OneMorePlace(texts: Texts, value: Json, depth: nat, n: nat, before: set<Place>, below: set<Place>, stated: nat)
    returns (places: set<Place>)
    requires depth <= DEEPEST && 0 < n <= Width(value) && stated == StatedAt(texts, value, n - 1).priceCount
    requires PricesTo(texts, value, depth, n - 1, before) && AllPrices(texts, Child(value, n - 1), depth + 1, below)
    ensures PricesTo(texts, value, depth, n, places)
    ensures |places| == |before| + |below| + stated
  {
    var here := PriceHere(texts, value, depth, n - 1);
    var lifted := LiftedPrices(texts, value, depth, n - 1, below);
    places := before + here + lifted;
    CountedApart(before, here, lifted, n - 1);
    forall p: Place ensures p in places <==> IsPrice(texts, value, depth, p) && FirstOf(p) < n {
      assert FirstOf(p) == n - 1 ==> IsBelow(p, n - 1) || (p.path == [] && p.i == n - 1);
    }
  }

  lemma LiftedPrices(texts: Texts, value: Json, depth: nat, first: nat, below: set<Place>) returns (lifted: set<Place>)
    requires depth <= DEEPEST && first < Width(value) && AllPrices(texts, Child(value, first), depth + 1, below)
    ensures |lifted| == |below|
    ensures forall p: Place :: p in lifted <==> IsPrice(texts, value, depth, p) && IsBelow(p, first)
  {
    lifted := Lifted(first, below);
    forall p: Place ensures p in lifted <==> IsPrice(texts, value, depth, p) && IsBelow(p, first) {
      if IsBelow(p, first) { PriceBelow(texts, value, depth, p); }
    }
  }

  /** Places before one of a value's own, at it and below it are apart. */
  lemma CountedApart(before: set<Place>, here: set<Place>, lifted: set<Place>, first: nat)
    requires forall p | p in before :: FirstOf(p) < first
    requires forall p | p in here :: p.path == [] && p.i == first
    requires forall p | p in lifted :: IsBelow(p, first)
    ensures |before + here + lifted| == |before| + |here| + |lifted|
  {
    assert before !! here && (before + here) !! lifted;
    assert |before + here| == |before| + |here|;
  }

  /** The price one of a value's own entries states by itself. */
  lemma PriceHere(texts: Texts, value: Json, depth: nat, i: nat) returns (here: set<Place>)
    requires depth <= DEEPEST && i < Width(value)
    ensures forall p: Place :: p in here <==> IsPrice(texts, value, depth, p) && p.path == [] && p.i == i
    ensures |here| == StatedAt(texts, value, i).priceCount
  {
    here := if StatedAt(texts, value, i).priceCount == 1 then {Place([], i)} else {};
    assert At(value, []) == Some(value);
    if value.Entries? { assert StatedAt(texts, value, i) == Stated(texts, value.entries[i].0, value.entries[i].1); }
  }

  /** Whether an entry that is read states a price. */
  ghost predicate PriceAt(texts: Texts, value: Json, p: Place) {
    exists key, item :: IsRead(value, p.path, p.i, key, item) && StatesPrice(texts, key, item)
  }

  lemma PriceIsAt(texts: Texts, value: Json, p: Place)
    ensures IsPrice(texts, value, 0, p) <==> PriceAt(texts, value, p)
  {
    if IsEntry(value, 0, p.path, p.i) {
      var entry := EntryAt(value, p.path, p.i);
      ReadIsEntry(value, p.path, p.i, entry.0, entry.1);
      WhatAnEntryCounts(texts, entry.0, entry.1);
    }
    if key, item :| IsRead(value, p.path, p.i, key, item) && StatesPrice(texts, key, item) {
      ReadIsEntry(value, p.path, p.i, key, item);
      WhatAnEntryCounts(texts, key, item);
    }
  }

  /** The count of prices is the number of entries that are read and state one. */
  lemma PricesCountedExactly(texts: Texts, value: Json) returns (places: set<Place>)
    ensures Collected(texts, value, 0).priceCount == |places|
    ensures forall p: Place :: p in places <==> PriceAt(texts, value, p)
  {
    PricesAreCollected(texts, value, 0);
    places := PricesOf(texts, value, 0);
    forall p: Place ensures p in places <==> PriceAt(texts, value, p) {
      PriceIsAt(texts, value, p);
    }
  }

  // ---- A page's scripts ----

  /** What the scripts of a page state together; one too long or that cannot be read states nothing. */
  function OfScripts(texts: Texts, scripts: seq<string>): Facts {
    if scripts == [] then NOTHING
    else Joined(OfScripts(texts, scripts[..|scripts| - 1]), OfScript(texts, scripts[|scripts| - 1]))
  }

  function OfScript(texts: Texts, raw: string): Facts {
    if Length(raw) > LONGEST then NOTHING
    else match texts.parse(raw)
         case None => NOTHING
         case Some(value) => Collected(texts, value, 0)
  }

  method CollectScript(texts: Texts, raw: string, result: Result)
    modifies result
    ensures result.Now() == Joined(old(result.Now()), OfScript(texts, raw))
  {
    ghost var before := result.Now();
    assert Joined(before, NOTHING) == before;
    if Length(raw) > LONGEST { return; }
    var parsed := texts.parse(raw);
    if parsed.Some? { CollectStructuredFacts(texts, parsed.value, result, 0); }
  }

  lemma OneMoreScript(texts: Texts, scripts: seq<string>, i: nat)
    requires i < |scripts|
    ensures OfScripts(texts, scripts[..i + 1]) == Joined(OfScripts(texts, scripts[..i]), OfScript(texts, scripts[i]))
  {
    assert scripts[..i + 1][..i] == scripts[..i];
  }

  /** Whether a script is read, and as what: it is no longer than half a mebibyte of units, and can be. */
  predicate Reads(texts: Texts, raw: string, value: Json) {
    Length(raw) <= 524_288 && texts.parse(raw) == Some(value)
  }

  /** The scripts of a page state what each of them states that is read. */
  lemma {:induction false} ScriptsStateTogether(texts: Texts, scripts: seq<string>, fact: Fact)
    ensures Holds(OfScripts(texts, scripts), fact)
       <==> exists raw, value :: raw in scripts && Reads(texts, raw, value) && Holds(Collected(texts, value, 0), fact)
  {
    if scripts != [] {
      var before, last := scripts[..|scripts| - 1], scripts[|scripts| - 1];
      assert scripts == before + [last];
      ScriptsStateTogether(texts, before, fact);
      HeldByOne(OfScripts(texts, before), OfScript(texts, last), fact);
      if texts.parse(last).Some? { assert Reads(texts, last, texts.parse(last).value) <==> Length(last) <= 524_288; }
    }
  }

  /** Each script counts the prices of what it is read as, and one that is not read counts none. */
  lemma ScriptsCountTogether(texts: Texts, scripts: seq<string>, raw: string)
    ensures OfScripts(texts, []).priceCount == 0
    ensures forall value | Reads(texts, raw, value) ::
              OfScripts(texts, scripts + [raw]).priceCount == OfScripts(texts, scripts).priceCount + Collected(texts, value, 0).priceCount
    ensures (forall value :: !Reads(texts, raw, value)) ==> OfScripts(texts, scripts + [raw]).priceCount == OfScripts(texts, scripts).priceCount
  {
    assert (scripts + [raw])[..|scripts|] == scripts;
    if texts.parse(raw).Some? { assert Reads(texts, raw, texts.parse(raw).value) <==> Length(raw) <= 524_288; }
  }

  // ---- What is kept of them ----

  const NAMES_KEPT := 20

  /** The facts as they are handed on: each kind of name in order, twenty at most. */
  datatype Summary = Summary(currencies: seq<string>, availability: seq<string>, priceCount: nat, hasContact: bool, hasOpeningHours: bool)

  /** The first names of a set, in order, as many as are kept. */
  ghost predicate AreFirst(names: set<string>, kept: seq<string>) {
    && |kept| == (if |names| < 20 then |names| else 20)
    && (forall name | name in kept :: name in names)
    && (forall i, j | 0 <= i < j < |kept| :: Below(kept[i], kept[j]))
    && (forall name, other | name in kept && other in names && other !in kept :: Below(name, other))
  }

  ghost predicate IsLeast(names: set<string>, least: string) {
    least in names && forall other | other in names && other != least :: Below(least, other)
  }

  /** The least name, one after another of those left. */
  method FirstNames(names: set<string>) returns (kept: seq<string>)
    ensures AreFirst(names, kept)
  {
    kept := [];
    var rest := names;
    while |kept| < NAMES_KEPT && rest != {}
      invariant rest <= names && |kept| <= NAMES_KEPT && |kept| + |rest| == |names|
      invariant forall name | name in names :: name in kept <==> name !in rest
      invariant forall name | name in kept :: name in names
      invariant forall i, j | 0 <= i < j < |kept| :: Below(kept[i], kept[j])
      invariant forall name, other | name in kept && other in rest :: Below(name, other)
      decreases rest
    {
      var least := LeastOf(rest);
      kept := kept + [least];
      rest := rest - {least};
    }
  }

  method LeastOf(names: set<string>) returns (least: string)
    requires names != {}
    ensures IsLeast(names, least)
  {
    least :| least in names;
    var rest := names - {least};
    while rest != {}
      invariant rest <= names && least in names && least !in rest
      invariant forall other | other in names && other !in rest && other != least :: Below(least, other)
      decreases rest
    {
      var name :| name in rest;
      rest := rest - {name};
      BelowIsTotal(name, least);
      if Below(name, least) {
        forall other | other in names && other !in rest && other != name ensures Below(name, other) {
          if other != least { BelowGoesOn(name, least, other); }
        }
        least := name;
      }
    }
  }

  /** The scripts of a page that are read. */
  function ScriptsRead(scripts: seq<string>): seq<string> {
    if |scripts| > SCRIPTS_READ then scripts[..SCRIPTS_READ] else scripts
  }

  /** What a summary keeps of facts. */
  ghost predicate Summarizes(summary: Summary, facts: Facts) {
    && AreFirst(facts.currencies, summary.currencies) && AreFirst(facts.availability, summary.availability)
    && summary.priceCount == facts.priceCount
    && summary.hasContact == facts.hasContact && summary.hasOpeningHours == facts.hasOpeningHours
  }

  method MetadataFromJsonLd(texts: Texts, jsonLdValues: seq<string>) returns (summary: Summary)
    ensures Summarizes(summary, OfScripts(texts, if |jsonLdValues| > 50 then jsonLdValues[..50] else jsonLdValues))
  {
    var scripts := ScriptsRead(jsonLdValues);
    var result := new Result();
    for i := 0 to |scripts|
      invariant result.Now() == OfScripts(texts, scripts[..i])
      invariant fresh(result)
    {
      OneMoreScript(texts, scripts, i);
      CollectScript(texts, scripts[i], result);
    }
    assert scripts[..|scripts|] == scripts;
    var currencies := FirstNames(result.currencies);
    var availability := FirstNames(result.availability);
    summary := Summary(currencies, availability, result.priceCount, result.hasContact, result.hasOpeningHours);
  }
}
