/** Which texts read as a place of a list, and as what a place prints, character by character. */
module CursorTexts {
  import opened Options
  import opened TextUnits
  import opened Cursor

  // ---- Numerals ----

  predicate Stands(c: char, k: nat) {
    k < 10 && c == "0123456789"[k]
  }

  /** What decimal digits denote. */
  predicate Denotes(digits: string, n: nat) {
    if digits == "" then n == 0 else Stands(digits[|digits| - 1], n % 10) && Denotes(digits[..|digits| - 1], n / 10)
  }

  /** One to sixteen digits, perhaps behind a minus, that denote a number within reach of a date. */
  ghost predicate Numeral(text: string, n: int) {
    exists digits: string, size: nat :: NumeralOf(text, n, digits, size)
  }

  ghost predicate NumeralOf(text: string, n: int, digits: string, size: nat) {
    && 1 <= |digits| <= 16 && Denotes(digits, size) && size <= 8_640_000_000_000_000
    && ((text == digits && n == size) || (text == "-" + digits && n == 0 - size))
  }

  lemma DigitIs(c: char)
    ensures IsDigit(c) <==> exists k: nat :: Stands(c, k)
    ensures IsDigit(c) ==> Stands(c, c as int - '0' as int)
  {
    assert forall k: nat | k < 10 :: "0123456789"[k] as int == '0' as int + k;
    if IsDigit(c) { assert Stands(c, c as int - '0' as int); }
  }

  lemma {:induction false} DenotesItsValue(digits: string, n: nat)
    ensures Denotes(digits, n) <==> (forall c | c in digits :: IsDigit(c)) && Value(digits) == n
  {
    if digits != "" {
      var shorter, c := digits[..|digits| - 1], digits[|digits| - 1];
      assert digits == shorter + [c];
      DigitIs(c);
      DenotesItsValue(shorter, n / 10);
      if Denotes(digits, n) { OneDigit(c, n % 10); }
      if IsDigit(c) && forall one | one in shorter :: IsDigit(one) {
        assert Value(digits) == 10 * Value(shorter) + (c as int - '0' as int);
        TensAndOnes(Value(shorter), c as int - '0' as int);
      }
    }
  }

  lemma TensAndOnes(tens: nat, ones: nat)
    requires ones < 10
    ensures (10 * tens + ones) / 10 == tens && (10 * tens + ones) % 10 == ones
  {
  }

  lemma OneDigit(c: char, k: nat)
    requires Stands(c, k)
    ensures c as int - '0' as int == k
  {
    assert forall k: nat | k < 10 :: "0123456789"[k] as int == '0' as int + k;
  }

  /** Numerals are the texts read as whole numbers within reach. */
  lemma NumeralIs(text: string, n: int)
    ensures Numeral(text, n) <==> IsWhole(text) && NumberOf(text) == n && Abs(n) <= FURTHEST
  {
    var digits := if text != "" && text[0] == '-' then text[1..] else text;
    if IsWhole(text) && NumberOf(text) == n && Abs(n) <= FURTHEST {
      DenotesItsValue(digits, Value(digits));
      assert text == digits || text == "-" + digits;
      assert NumeralOf(text, n, digits, Value(digits));
    }
    if other: string, size: nat :| NumeralOf(text, n, other, size) {
      DenotesItsValue(other, size);
      assert other[0] in other && IsDigit(other[0]);
      assert ("-" + other)[1..] == other;
    }
  }

  lemma NumeralHasNoDot(text: string, n: int)
    requires Numeral(text, n)
    ensures '.' !in text
  {
    var digits: string, size: nat :| NumeralOf(text, n, digits, size);
    DenotesItsValue(digits, size);
    assert !IsDigit('.');
  }

  // ---- Places ----

  /** Texts with a dot behind each, then one more. */
  function Dotted(texts: seq<string>, id: string): string {
    if texts == [] then id else texts[0] + "." + Dotted(texts[1..], id)
  }

  lemma {:induction false} DottedJoins(texts: seq<string>, parts: seq<string>)
    requires parts != []
    ensures Join(texts + parts) == Dotted(texts, Join(parts))
  {
    if texts == [] {
      assert texts + parts == parts;
    } else {
      assert (texts + parts)[1..] == texts[1..] + parts;
      DottedJoins(texts[1..], parts);
    }
  }

  /** One to two hundred and fifty-six UTF-16 units, none of them a control character. */
  predicate IsName(id: string) {
    && 0 < Length(id) < 257
    && (forall i | 0 <= i < |id| :: '\U{001F}' < id[i] && id[i] != '\U{007F}')
  }

  lemma NameIs(id: string)
    ensures IsName(id) <==> IsId(id)
  {
    if IsName(id) {
      forall c | c in id ensures c as int > 0x1f && c as int != 0x7f {
        var i :| 0 <= i < |id| && id[i] == c;
      }
    }
    if IsId(id) {
      forall i | 0 <= i < |id| ensures '\U{001F}' < id[i] && id[i] != '\U{007F}' {
        assert id[i] in id;
      }
    }
  }

  /** A text of as many numerals as a list has keys, a dot behind each, and a name: those of a place. */
  ghost predicate WritesIn(text: string, keys: nat, mark: Mark, texts: seq<string>) {
    && |texts| == |mark.key| == keys && text == Dotted(texts, mark.id) && IsName(mark.id)
    && forall i | 0 <= i < keys :: mark.key[i] == mark.key[i].Floor as real && Numeral(texts[i], mark.key[i].Floor)
  }

  ghost predicate Writes(text: string, keys: nat, mark: Mark) {
    exists texts :: WritesIn(text, keys, mark, texts)
  }

  /** A text reads as a place exactly where it writes it. */
  lemma WhatReadsAsAPlace(text: string, keys: nat, mark: Mark)
    ensures MarkIn(text, keys) == Some(mark) <==> Writes(text, keys, mark)
  {
    if MarkIn(text, keys) == Some(mark) { ReadIsWritten(text, keys, mark); }
    if texts :| WritesIn(text, keys, mark, texts) { WrittenIsRead(text, keys, mark, texts); }
  }

  lemma ReadIsWritten(text: string, keys: nat, mark: Mark)
    requires MarkIn(text, keys) == Some(mark)
    ensures Writes(text, keys, mark)
  {
    var parts := Split(text);
    var texts, rest := parts[..keys], parts[keys..];
    SplitJoins(text);
    assert parts == texts + rest;
    assert rest != [];
    DottedJoins(texts, rest);
    NameIs(mark.id);
    forall i | 0 <= i < keys ensures mark.key[i] == mark.key[i].Floor as real && Numeral(texts[i], mark.key[i].Floor) {
      assert texts[i] in texts && mark.key[i] == NumberOf(texts[i]) as real;
      NumeralIs(texts[i], mark.key[i].Floor);
    }
    assert WritesIn(text, keys, mark, texts);
  }

  lemma WrittenIsRead(text: string, keys: nat, mark: Mark, texts: seq<string>)
    requires WritesIn(text, keys, mark, texts)
    ensures MarkIn(text, keys) == Some(mark)
  {
    forall i | 0 <= i < keys
      ensures '.' !in texts[i] && IsWhole(texts[i]) && NumberOf(texts[i]) == mark.key[i].Floor && Abs(NumberOf(texts[i])) <= FURTHEST
    {
      NumeralHasNoDot(texts[i], mark.key[i].Floor);
      NumeralIs(texts[i], mark.key[i].Floor);
    }
    DottedJoins(texts, [mark.id]);
    SplitOfJoin(texts, mark.id);
    SplitJoins(mark.id);
    NameIs(mark.id);
    var parts := Split(text);
    assert parts[..keys] == texts && parts[keys..] == Split(mark.id);
    assert MarkIn(text, keys).Some? && MarkIn(text, keys).value.key == mark.key;
  }

  // ---- What is printed ----

  /** A numeral as short as can be: no zero ahead of others, a minus only where the number is less than nothing. */
  ghost predicate Plain(text: string, n: int) {
    && Numeral(text, n)
    && var digits := if n < 0 then text[1..] else text;
       && (n < 0 ==> text[0] == '-') && digits != "" && digits[0] != '-' && (digits[0] == '0' ==> digits == "0")
  }

  lemma {:induction false} NoZeroAhead(n: nat)
    ensures Digits(n) != "" && IsDigit(Digits(n)[0]) && (Digits(n)[0] == '0' ==> n == 0 && Digits(n) == "0")
  {
    if n >= 10 { NoZeroAhead(n / 10); }
  }

  lemma PrintedIsPlain(n: int)
    requires Abs(n) <= FURTHEST
    ensures Plain(NumberText(n), n)
  {
    CarriedReadsBack(n);
    NumeralIs(NumberText(n), n);
    NoZeroAhead(Abs(n));
    if n < 0 { assert NumberText(n)[1..] == Digits(-n); }
  }

  ghost predicate PrintsIn(mark: Mark, text: string, texts: seq<string>) {
    && |texts| == |mark.key| && text == Dotted(texts, mark.id)
    && forall i | 0 <= i < |texts| :: Plain(texts[i], mark.key[i].Floor)
  }

  /** A place prints exactly where its keys are whole numbers within reach, as those numbers plainly written and its name. */
  lemma WhatAPlacePrints(mark: Mark)
    ensures MarkText(mark).Some? <==>
              forall i | 0 <= i < |mark.key| ::
                mark.key[i] == mark.key[i].Floor as real && -8_640_000_000_000_000 <= mark.key[i].Floor <= 8_640_000_000_000_000
    ensures MarkText(mark).Some? ==> exists texts :: PrintsIn(mark, MarkText(mark).value, texts)
  {
    if MarkText(mark).Some? {
      var texts := KeyTexts(mark.key);
      forall i | 0 <= i < |mark.key| ensures Carried(mark.key[i]) && Plain(texts[i], mark.key[i].Floor) {
        assert mark.key[i] in mark.key;
        PrintedIsPlain(mark.key[i].Floor);
      }
      DottedJoins(texts, [mark.id]);
      assert PrintsIn(mark, MarkText(mark).value, texts);
    }
  }
}
