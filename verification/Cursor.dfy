/** Cursors: places printed into an address, read back from it, and put in order. */
module Cursor {
  import opened Options
  import opened TextUnits

  /** Where a row stands: its sort keys first, and its name among rows level in all of them. */
  datatype Mark = Mark(key: seq<real>, id: string)

  datatype From = FirstPage | After(mark: Mark) | Before(mark: Mark)

  /** The fields of an address or of a form, in their order, a name perhaps more than once. */
  type Fields = seq<(string, string)>

  const FURTHEST := 8_640_000_000_000_000
  const LARGEST_SAFE := 9_007_199_254_740_991
  const WHOLE_DIGITS := 16
  const ID_AT_MOST := 256

  function Abs(n: int): nat {
    if n < 0 then -n else n
  }

  // ---- Text split at its dots ----

  function Split(text: string): (parts: seq<string>)
    ensures parts != []
  {
    if text == "" then [""]
    else if text[0] == '.' then [""] + Split(text[1..])
    else
      var rest := Split(text[1..]);
      [[text[0]] + rest[0]] + rest[1..]
  }

  function Join(parts: seq<string>): string {
    if parts == [] then ""
    else if |parts| == 1 then parts[0]
    else parts[0] + "." + Join(parts[1..])
  }

  // ---- Whole numbers ----

  predicate IsDigit(c: char) {
    '0' <= c <= '9'
  }

  function Digit(n: nat): char
    requires n < 10
  {
    "0123456789"[n]
  }

  function Digits(n: nat): string {
    if n < 10 then [Digit(n)] else Digits(n / 10) + [Digit(n % 10)]
  }

  function NumberText(n: int): string {
    if n < 0 then "-" + Digits(-n) else Digits(n)
  }

  function Value(digits: string): nat
    requires forall c | c in digits :: IsDigit(c)
  {
    if digits == "" then 0
    else
      assert IsDigit(digits[|digits| - 1]);
      10 * Value(digits[..|digits| - 1]) + (digits[|digits| - 1] as int - '0' as int)
  }

  /** An optional minus and one to sixteen digits. */
  predicate IsWhole(text: string) {
    var digits := if text != "" && text[0] == '-' then text[1..] else text;
    1 <= |digits| <= WHOLE_DIGITS && forall c | c in digits :: IsDigit(c)
  }

  function NumberOf(text: string): int
    requires IsWhole(text)
  {
    if text[0] == '-' then 0 - Value(text[1..]) else Value(text)
  }

  // ---- Marks ----

  /** What may stand as an identifier: no control characters, and no more units than are allowed. */
  predicate IsId(text: string) {
    1 <= Length(text) <= ID_AT_MOST && forall c | c in text :: c as int > 0x1f && c as int != 0x7f
  }

  /** A whole number within reach, which is what an address can carry. */
  predicate Carried(one: real) {
    one == one.Floor as real && Abs(one.Floor) <= LARGEST_SAFE && Abs(one.Floor) <= FURTHEST
  }

  function MarkText(mark: Mark): Option<string> {
    if forall one | one in mark.key :: Carried(one)
    then Some(Join(KeyTexts(mark.key) + [mark.id]))
    else None
  }

  function KeyTexts(key: seq<real>): seq<string> {
    seq(|key|, i requires 0 <= i < |key| => NumberText(key[i].Floor))
  }

  function MarkIn(text: string, keys: nat): Option<Mark> {
    var parts := Split(text);
    if |parts| < keys then None
    else
      var texts, id := parts[..keys], Join(parts[keys..]);
      if IsId(id) && forall part | part in texts :: IsWhole(part) && Abs(NumberOf(part)) <= FURTHEST
      then Some(Mark(seq(keys, i requires 0 <= i < keys && IsWhole(texts[i]) => NumberOf(texts[i]) as real), id))
      else None
  }

  // ---- Fields ----

  function Values(fields: Fields, name: string): seq<string> {
    if fields == [] then []
    else (if fields[0].0 == name then [fields[0].1] else []) + Values(fields[1..], name)
  }

  /** The value of a name that is given exactly once. */
  function Once(fields: Fields, name: string): Option<string> {
    var values := Values(fields, name);
    if |values| == 1 then Some(values[0]) else None
  }

  function FromIn(fields: Fields, keys: nat): From {
    var after, before := Once(fields, "after"), Once(fields, "before");
    if after.Some? && Values(fields, "before") == [] then
      match MarkIn(after.value, keys)
      case None => FirstPage
      case Some(mark) => After(mark)
    else if before.Some? && Values(fields, "after") == [] then
      match MarkIn(before.value, keys)
      case None => FirstPage
      case Some(mark) => Before(mark)
    else FirstPage
  }

  /** What `writeFrom` adds to fields that name no cursor yet. */
  function FromFields(from: From): Fields {
    if from.FirstPage? then []
    else
      match MarkText(from.mark)
      case None => []
      case Some(text) => [(if from.After? then "after" else "before", text)]
  }

  // ---- The order ----

  /** Negative where the one place comes first; a key the other lacks counts as zero. */
  function Rising(one: Mark, other: Mark): real {
    RisingFrom(one, other, 0)
  }

  function RisingFrom(one: Mark, other: Mark, at: nat): real
    decreases |one.key| - at
  {
    if at < |one.key| then
      var difference := one.key[at] - (if at < |other.key| then other.key[at] else 0.0);
      if difference != 0.0 then difference else RisingFrom(one, other, at + 1)
    else if Below(one.id, other.id) then -1.0
    else if Below(other.id, one.id) then 1.0
    else 0.0
  }

  // ---- Printing and reading undo each other ----

  lemma {:induction false} SplitJoins(text: string)
    ensures Join(Split(text)) == text
  {
    if text != "" {
      SplitJoins(text[1..]);
      var rest := Split(text[1..]);
      if text[0] == '.' {
        assert ([""] + rest)[1..] == rest;
        assert "" + "." + Join(rest) == [text[0]] + text[1..];
      } else {
        var first := [text[0]] + rest[0];
        assert ([first] + rest[1..])[1..] == rest[1..];
        if |rest| > 1 { assert first + "." + Join(rest[1..]) == [text[0]] + (rest[0] + "." + Join(rest[1..])); }
      }
    }
  }

  lemma {:induction false} SplitAtFirstDot(part: string, rest: string)
    requires '.' !in part
    ensures Split(part + "." + rest) == [part] + Split(rest)
  {
    var text := part + "." + rest;
    if part == "" {
      assert text[1..] == rest;
    } else {
      assert text[1..] == part[1..] + "." + rest;
      SplitAtFirstDot(part[1..], rest);
      assert [text[0]] + part[1..] == part;
    }
  }

  lemma {:induction false} SplitOfJoin(parts: seq<string>, last: string)
    requires forall part | part in parts :: '.' !in part
    ensures Split(Join(parts + [last])) == parts + Split(last)
  {
    if parts == [] {
      assert parts + [last] == [last];
    } else {
      assert (parts + [last])[1..] == parts[1..] + [last];
      SplitOfJoin(parts[1..], last);
      SplitAtFirstDot(parts[0], Join(parts[1..] + [last]));
      assert parts == [parts[0]] + parts[1..];
    }
  }

  function Power10(n: nat): nat {
    if n == 0 then 1 else 10 * Power10(n - 1)
  }

  /** A number below ten to the n prints as at most n digits, which read back as it. */
  lemma {:induction false} DigitsReadBack(n: nat, width: nat)
    requires n < Power10(width)
    ensures 1 <= |Digits(n)| && (width > 0 ==> |Digits(n)| <= width)
    ensures forall c | c in Digits(n) :: IsDigit(c)
    ensures Value(Digits(n)) == n
  {
    if n >= 10 {
      DigitsReadBack(n / 10, width - 1);
      var d := Digits(n);
      assert d[..|d| - 1] == Digits(n / 10);
    } else {
      assert Digits(n)[..0] == "";
    }
  }

  lemma CarriedReadsBack(n: int)
    requires Abs(n) <= FURTHEST
    ensures IsWhole(NumberText(n)) && NumberOf(NumberText(n)) == n && '.' !in NumberText(n)
  {
    assert Power10(16) == 10_000_000_000_000_000 by {
      assert Power10(4) == 10_000;
      assert Power10(8) == 10_000 * Power10(4);
      assert Power10(12) == 10_000 * Power10(8);
      assert Power10(16) == 10_000 * Power10(12);
    }
    DigitsReadBack(Abs(n), 16);
    if n < 0 {
      assert NumberText(n)[1..] == Digits(-n);
    } else {
      assert IsDigit(Digits(n)[0]);
    }
  }

  lemma KeyTextsReadBack(key: seq<real>)
    requires forall one | one in key :: Carried(one)
    ensures forall part | part in KeyTexts(key) ::
              '.' !in part && IsWhole(part) && Abs(NumberOf(part)) <= FURTHEST
    ensures forall i | 0 <= i < |key| :: IsWhole(KeyTexts(key)[i]) && NumberOf(KeyTexts(key)[i]) as real == key[i]
  {
    forall i | 0 <= i < |key|
      ensures var part := KeyTexts(key)[i];
              '.' !in part && IsWhole(part) && Abs(NumberOf(part)) <= FURTHEST && NumberOf(part) as real == key[i]
    {
      assert key[i] in key;
      CarriedReadsBack(key[i].Floor);
    }
  }

  /**
   * What is printed reads back as the very place it was printed from exactly where the identifier is
   * one an address can carry; any other is read as no place.
   */
  lemma PrintedReadsBack(mark: Mark)
    requires MarkText(mark).Some?
    ensures MarkIn(MarkText(mark).value, |mark.key|) == (if IsId(mark.id) then Some(mark) else None)
  {
    var texts, keys := KeyTexts(mark.key), |mark.key|;
    KeyTextsReadBack(mark.key);
    SplitOfJoin(texts, mark.id);
    var parts := Split(MarkText(mark).value);
    assert parts[..keys] == texts && parts[keys..] == Split(mark.id);
    SplitJoins(mark.id);
    if IsId(mark.id) {
      assert MarkIn(MarkText(mark).value, keys).value.key == mark.key;
    }
  }

  /** Whatever an address's text is read as prints again, and reads back as the same place. */
  lemma ReadPrintsAgain(text: string, keys: nat)
    requires MarkIn(text, keys).Some?
    ensures var mark := MarkIn(text, keys).value;
            && |mark.key| == keys && IsId(mark.id)
            && MarkText(mark).Some? && MarkIn(MarkText(mark).value, keys) == Some(mark)
  {
    var mark := MarkIn(text, keys).value;
    var texts := Split(text)[..keys];
    forall one | one in mark.key ensures Carried(one) {
      var i :| 0 <= i < keys && mark.key[i] == one;
      assert texts[i] in texts;
      assert one == NumberOf(texts[i]) as real;
    }
    PrintedReadsBack(mark);
  }

  lemma OnceWritten(from: From, keys: nat)
    requires !from.FirstPage? ==> |from.mark.key| == keys && IsId(from.mark.id)
    ensures FromIn(FromFields(from), keys) == (if !from.FirstPage? && MarkText(from.mark).Some? then from else FirstPage)
  {
    if !from.FirstPage? && MarkText(from.mark).Some? {
      PrintedReadsBack(from.mark);
      var fields := FromFields(from);
      assert fields[1..] == [];
      assert Values(fields, fields[0].0) == [fields[0].1] + Values(fields[1..], fields[0].0) == [fields[0].1];
      assert Values(fields, if from.After? then "before" else "after") == [] by { assert "after" != "before" by { assert "after"[0] == 'a'; } }
    }
  }

  // ---- The order is total ----

  lemma {:induction false} RisingIsTotal(one: Mark, other: Mark, at: nat)
    requires |one.key| == |other.key| && at <= |one.key|
    requires one.key[..at] == other.key[..at]
    ensures RisingFrom(one, other, at) == -RisingFrom(other, one, at)
    ensures RisingFrom(one, other, at) == 0.0 ==> one == other
    decreases |one.key| - at
  {
    if at == |one.key| {
      BelowIsTotal(one.id, other.id);
      assert one.key[..at] == one.key && other.key[..at] == other.key;
    } else if one.key[at] == other.key[at] {
      assert one.key[..at + 1] == one.key[..at] + [one.key[at]] && other.key[..at + 1] == other.key[..at] + [other.key[at]];
      RisingIsTotal(one, other, at + 1);
    }
  }

  lemma {:induction false} RisingGoesOn(a: Mark, b: Mark, c: Mark, at: nat)
    requires |a.key| == |b.key| == |c.key| && at <= |a.key|
    requires RisingFrom(a, b, at) < 0.0 && RisingFrom(b, c, at) < 0.0
    ensures RisingFrom(a, c, at) < 0.0
    decreases |a.key| - at
  {
    if at == |a.key| {
      BelowGoesOn(a.id, b.id, c.id);
    } else if a.key[at] == b.key[at] == c.key[at] {
      RisingGoesOn(a, b, c, at + 1);
    }
  }

  /** Places sorted by the same count of numbers stand in one strict total order. */
  lemma PlacesAreOrdered(a: Mark, b: Mark, c: Mark)
    requires |a.key| == |b.key| == |c.key|
    ensures Rising(a, b) == -Rising(b, a)
    ensures Rising(a, b) == 0.0 <==> a == b
    ensures Rising(a, b) < 0.0 && Rising(b, c) < 0.0 ==> Rising(a, c) < 0.0
  {
    RisingIsTotal(a, b, 0);
    RisingIsTotal(a, a, 0);
    if Rising(a, b) < 0.0 && Rising(b, c) < 0.0 { RisingGoesOn(a, b, c, 0); }
  }

  /** Which of two places comes first: by the first number they differ in, else by their identifiers. */
  ghost predicate ComesFirst(one: Mark, other: Mark) {
    || (exists p | 0 <= p < |one.key| && p < |other.key| :: one.key[..p] == other.key[..p] && one.key[p] < other.key[p])
    || (one.key == other.key && Below(one.id, other.id))
  }

  /** Two keys part at one place. */
  lemma PartOnce(one: seq<real>, other: seq<real>, p: nat, q: nat)
    requires p < |one| && p < |other| && one[..p] == other[..p] && one[p] != other[p]
    requires q < |one| && q < |other| && one[..q] == other[..q] && one[q] != other[q]
    ensures p == q
  {
    SameSoFar(one, other, p);
    SameSoFar(one, other, q);
  }

  lemma SameSoFar(one: seq<real>, other: seq<real>, p: nat)
    requires p <= |one| && p <= |other| && one[..p] == other[..p]
    ensures forall k: nat | k < p :: one[k] == other[k]
  {
    forall k: nat | k < p ensures one[k] == other[k] { assert one[..p][k] == other[..p][k]; }
  }

  lemma {:induction false} RisingByTheFirstDifference(one: Mark, other: Mark, at: nat)
    requires |one.key| == |other.key| && at <= |one.key| && one.key[..at] == other.key[..at]
    ensures RisingFrom(one, other, at) < 0.0 <==> ComesFirst(one, other)
    decreases |one.key| - at
  {
    if at == |one.key| {
      assert one.key == one.key[..at] == other.key[..at] == other.key;
    } else if one.key[at] == other.key[at] {
      assert one.key[..at + 1] == one.key[..at] + [one.key[at]] && other.key[..at + 1] == other.key[..at] + [other.key[at]];
      RisingByTheFirstDifference(one, other, at + 1);
    } else if p :| 0 <= p < |one.key| && p < |other.key| && one.key[..p] == other.key[..p] && one.key[p] < other.key[p] {
      PartOnce(one.key, other.key, p, at);
    }
  }

  lemma RisesWhereItComesFirst(one: Mark, other: Mark)
    requires |one.key| == |other.key|
    ensures Rising(one, other) < 0.0 <==> ComesFirst(one, other)
  {
    RisingByTheFirstDifference(one, other, 0);
  }
}
