/** Text as the program's language stores it: units of sixteen bits, by which it is counted and ordered. */
module TextUnits {
  const SUPPLEMENTARY := 0x1_0000
  const HIGH := 0xD800
  const LOW := 0xDC00

  /** One unit for most characters, a pair of surrogates for those beyond. */
  function UnitsOfChar(c: char): seq<nat> {
    var n := c as int;
    if n < SUPPLEMENTARY then [n] else [HIGH + (n - SUPPLEMENTARY) / 0x400, LOW + (n - SUPPLEMENTARY) % 0x400]
  }

  function UnitsOf(text: string): seq<nat> {
    if text == "" then [] else UnitsOfChar(text[0]) + UnitsOf(text[1..])
  }

  /** The length the language gives a text. */
  function Length(text: string): nat {
    |UnitsOf(text)|
  }

  /** Which of two texts the language puts first, unit by unit. */
  predicate Below(one: string, other: string) {
    UnitsBelow(UnitsOf(one), UnitsOf(other))
  }

  predicate UnitsBelow(one: seq<nat>, other: seq<nat>) {
    other != [] && (one == [] || one[0] < other[0] || (one[0] == other[0] && UnitsBelow(one[1..], other[1..])))
  }

  lemma {:induction false} UnitsBelowIsTotal(one: seq<nat>, other: seq<nat>)
    ensures one == other || UnitsBelow(one, other) || UnitsBelow(other, one)
    ensures !(UnitsBelow(one, other) && UnitsBelow(other, one)) && !UnitsBelow(one, one)
  {
    if one != [] && other != [] {
      UnitsBelowIsTotal(one[1..], other[1..]);
      UnitsBelowIsTotal(one[1..], one[1..]);
      if one[0] == other[0] && one[1..] == other[1..] { assert one == [one[0]] + one[1..] && other == [other[0]] + other[1..]; }
    } else if one != [] {
      UnitsBelowIsTotal(one[1..], one[1..]);
    }
  }

  lemma {:induction false} UnitsBelowGoesOn(a: seq<nat>, b: seq<nat>, c: seq<nat>)
    requires UnitsBelow(a, b) && UnitsBelow(b, c)
    ensures UnitsBelow(a, c)
  {
    if a != [] && a[0] == b[0] && b[0] == c[0] { UnitsBelowGoesOn(a[1..], b[1..], c[1..]); }
  }

  /** A surrogate is no character, so the first units tell the first character. */
  lemma FirstCharTold(c: char, rest: seq<nat>, d: char, other: seq<nat>)
    requires UnitsOfChar(c) + rest == UnitsOfChar(d) + other
    ensures c == d && rest == other
  {
    var m, n, units := c as int, d as int, UnitsOfChar(c) + rest;
    assert units[0] == UnitsOfChar(c)[0] == UnitsOfChar(d)[0];
    assert m < SUPPLEMENTARY <==> n < SUPPLEMENTARY;
    if m >= SUPPLEMENTARY {
      assert units[1] == UnitsOfChar(c)[1] == UnitsOfChar(d)[1];
      assert m - SUPPLEMENTARY == (m - SUPPLEMENTARY) / 0x400 * 0x400 + (m - SUPPLEMENTARY) % 0x400;
      assert n - SUPPLEMENTARY == (n - SUPPLEMENTARY) / 0x400 * 0x400 + (n - SUPPLEMENTARY) % 0x400;
      assert units[2..] == rest && units[2..] == other;
    } else {
      assert units[1..] == rest && units[1..] == other;
    }
  }

  /** Texts of the same units are the same. */
  lemma {:induction false} UnitsTellTexts(one: string, other: string)
    requires UnitsOf(one) == UnitsOf(other)
    ensures one == other
  {
    if one != "" && other != "" {
      FirstCharTold(one[0], UnitsOf(one[1..]), other[0], UnitsOf(other[1..]));
      UnitsTellTexts(one[1..], other[1..]);
      assert one == [one[0]] + one[1..] && other == [other[0]] + other[1..];
    }
  }

  /** The language's order of texts is a strict total order. */
  lemma BelowIsTotal(one: string, other: string)
    ensures one == other || Below(one, other) || Below(other, one)
    ensures !(Below(one, other) && Below(other, one)) && !Below(one, one)
  {
    UnitsBelowIsTotal(UnitsOf(one), UnitsOf(other));
    if UnitsOf(one) == UnitsOf(other) { UnitsTellTexts(one, other); }
  }

  lemma BelowGoesOn(a: string, b: string, c: string)
    requires Below(a, b) && Below(b, c)
    ensures Below(a, c)
  {
    UnitsBelowGoesOn(UnitsOf(a), UnitsOf(b), UnitsOf(c));
  }

  /** Below the supplementary planes a character is one unit; one of them is two, a high and a low, that lead back to it. */
  lemma UnitsAreOfUtf16(c: char)
    ensures var units, n := UnitsOfChar(c), c as int;
            if n < 0x10000 then units == [n]
            else |units| == 2 && 0xD800 <= units[0] < 0xDC00 <= units[1] < 0xE000
                 && n == 0x10000 + (units[0] - 0xD800) * 0x400 + (units[1] - 0xDC00)
  {
    if c as int >= 0x10000 {
      var m := c as int - 0x10000;
      assert m == m / 0x400 * 0x400 + m % 0x400;
    }
  }

  /** Where two texts part: what comes first there is below, and a text that has ended is. */
  ghost predicate PartsAt(one: seq<nat>, other: seq<nat>, i: nat) {
    i <= |one| && i < |other| && one[..i] == other[..i] && (i == |one| || one[i] < other[i])
  }

  lemma {:induction false} BelowWhereTheyPart(one: seq<nat>, other: seq<nat>)
    ensures UnitsBelow(one, other) <==> exists i: nat :: PartsAt(one, other, i)
  {
    if one != [] && other != [] {
      BelowWhereTheyPart(one[1..], other[1..]);
      if UnitsBelow(one, other) {
        if one[0] < other[0] {
          assert PartsAt(one, other, 0);
        } else {
          var i: nat :| PartsAt(one[1..], other[1..], i);
          assert one[..i + 1] == [one[0]] + one[1..][..i] && other[..i + 1] == [other[0]] + other[1..][..i];
          assert PartsAt(one, other, i + 1);
        }
      }
      if i: nat :| PartsAt(one, other, i) {
        if i > 0 {
          assert one[..i][0] == other[..i][0];
          assert one[1..][..i - 1] == one[..i][1..] && other[1..][..i - 1] == other[..i][1..];
          assert PartsAt(one[1..], other[1..], i - 1);
        }
      }
    } else if other != [] {
      assert PartsAt(one, other, 0);
    }
  }
}
