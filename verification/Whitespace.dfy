/** White space as the program's language counts it: trimmed at the ends, and each run of it one space. */
module Whitespace {
  import opened TextUnits

  predicate IsSpace(c: char) {
    var n := c as int;
    9 <= n <= 13 || n == 32 || n == 0xA0 || n == 0x1680 || 0x2000 <= n <= 0x200A
    || n == 0x2028 || n == 0x2029 || n == 0x202F || n == 0x205F || n == 0x3000 || n == 0xFEFF
  }

  function TrimStart(text: string): string {
    if text != "" && IsSpace(text[0]) then TrimStart(text[1..]) else text
  }

  function TrimEnd(text: string): string {
    if text != "" && IsSpace(text[|text| - 1]) then TrimEnd(text[..|text| - 1]) else text
  }

  function Trim(text: string): string {
    TrimEnd(TrimStart(text))
  }

  predicate Trimmed(text: string) {
    text != "" ==> !IsSpace(text[0]) && !IsSpace(text[|text| - 1])
  }

  lemma {:induction false} TrimStartTrims(text: string)
    ensures var t := TrimStart(text);
            && |t| <= |text| && (forall c | c in t :: c in text)
            && (t != "" ==> !IsSpace(t[0]))
  {
    if text != "" && IsSpace(text[0]) { TrimStartTrims(text[1..]); }
  }

  lemma {:induction false} TrimEndTrims(text: string)
    ensures var t := TrimEnd(text);
            && |t| <= |text| && (forall c | c in t :: c in text)
            && (t != "" ==> !IsSpace(t[|t| - 1]) && t[0] == text[0])
  {
    if text != "" && IsSpace(text[|text| - 1]) { TrimEndTrims(text[..|text| - 1]); }
  }

  lemma TrimTrims(text: string)
    ensures var t := Trim(text);
            && |t| <= |text| && (forall c | c in t :: c in text) && Trimmed(t)
  {
    TrimStartTrims(text);
    TrimEndTrims(TrimStart(text));
  }

  predicate AllSpace(text: string) {
    forall c | c in text :: IsSpace(c)
  }

  lemma {:induction false} TrimStartTakes(text: string) returns (before: string)
    ensures text == before + TrimStart(text) && AllSpace(before)
  {
    before := "";
    if text != "" && IsSpace(text[0]) {
      var more := TrimStartTakes(text[1..]);
      before := [text[0]] + more;
    }
  }

  lemma {:induction false} TrimEndTakes(text: string) returns (after: string)
    ensures text == TrimEnd(text) + after && AllSpace(after)
  {
    after := "";
    if text != "" && IsSpace(text[|text| - 1]) {
      var more := TrimEndTakes(text[..|text| - 1]);
      after := more + [text[|text| - 1]];
    }
  }

  /** What is trimmed is white space at the ends, all of it and nothing else. */
  lemma TrimTakesTheEnds(text: string) returns (before: string, after: string)
    ensures text == before + Trim(text) + after && AllSpace(before) && AllSpace(after) && Trimmed(Trim(text))
    ensures Trim(text) == "" <==> AllSpace(text)
  {
    before := TrimStartTakes(text);
    after := TrimEndTakes(TrimStart(text));
    assert text == before + (Trim(text) + after);
    TrimTrims(text);
    if Trim(text) == "" {
      assert text == before + after;
    } else {
      assert Trim(text)[0] in Trim(text) && Trim(text)[0] in text;
    }
  }

  lemma TrimStartStays(text: string)
    requires text == "" || !IsSpace(text[0])
    ensures TrimStart(text) == text
  {
  }

  lemma TrimEndStays(text: string)
    requires text == "" || !IsSpace(text[|text| - 1])
    ensures TrimEnd(text) == text
  {
  }

  /** Whatever white space stands around a text that has none at its ends, trimming takes. */
  lemma TrimBetween(before: string, kept: string, after: string)
    requires AllSpace(before) && AllSpace(after) && Trimmed(kept)
    ensures Trim(before + kept + after) == kept
  {
    var text := before + kept + after;
    if kept == "" {
      assert AllSpace(text);
      var b, a := TrimTakesTheEnds(text);
    } else {
      TrimStartBehind(before, kept + after);
      assert text == before + (kept + after);
      TrimEndBefore(kept, after);
    }
  }

  lemma {:induction false} TrimStartBehind(before: string, rest: string)
    requires AllSpace(before) && rest != "" && !IsSpace(rest[0])
    ensures TrimStart(before + rest) == rest
  {
    if before == "" {
      assert before + rest == rest;
    } else {
      assert before[0] in before && (before + rest)[1..] == before[1..] + rest;
      TrimStartBehind(before[1..], rest);
    }
  }

  lemma {:induction false} TrimEndBefore(rest: string, after: string)
    requires AllSpace(after) && rest != "" && !IsSpace(rest[|rest| - 1])
    ensures TrimEnd(rest + after) == rest
  {
    if after == "" {
      assert rest + after == rest;
    } else {
      var text, fewer := rest + after, after[..|after| - 1];
      assert after[|after| - 1] in after && text[..|text| - 1] == rest + fewer;
      TrimEndBefore(rest, fewer);
    }
  }

  /** White space is these twenty-five characters. */
  lemma WhatIsSpace(c: char)
    ensures IsSpace(c) <==>
              || c in ['\t', '\n', '\U{000B}', '\U{000C}', '\r', ' ', '\U{00A0}', '\U{1680}']
              || c in ['\U{2000}', '\U{2001}', '\U{2002}', '\U{2003}', '\U{2004}', '\U{2005}', '\U{2006}', '\U{2007}', '\U{2008}', '\U{2009}', '\U{200A}']
              || c in ['\U{2028}', '\U{2029}', '\U{202F}', '\U{205F}', '\U{3000}', '\U{FEFF}']
  {
    assert c as int as char == c;
  }

  /** Each run of white space a space; a run that goes on from before adds nothing. */
  function Collapse(text: string, inRun: bool): string {
    if text == "" then "" else Kept(text[0], inRun) + Collapse(text[1..], IsSpace(text[0]))
  }

  function Kept(c: char, inRun: bool): string {
    if !IsSpace(c) then [c] else if inRun then "" else " "
  }

  function RunAfter(text: string, inRun: bool): bool {
    if text == "" then inRun else IsSpace(text[|text| - 1])
  }

  lemma {:induction false} CollapseSplits(one: string, other: string, inRun: bool)
    ensures Collapse(one + other, inRun) == Collapse(one, inRun) + Collapse(other, RunAfter(one, inRun))
  {
    if one == "" {
      assert one + other == other;
    } else {
      var space := IsSpace(one[0]);
      assert (one + other)[1..] == one[1..] + other;
      RunAfterFirst(one, inRun);
      CollapseSplits(one[1..], other, space);
    }
  }

  lemma RunAfterFirst(text: string, inRun: bool)
    requires text != ""
    ensures RunAfter(text, inRun) == RunAfter(text[1..], IsSpace(text[0]))
  {
  }

  lemma RunSplits(one: string, other: string, inRun: bool)
    ensures RunAfter(one + other, inRun) == RunAfter(other, RunAfter(one, inRun))
  {
    if other == "" { assert one + other == one; } else { assert (one + other)[|one + other| - 1] == other[|other| - 1]; }
  }

  /** Texts that read alike wherever they stand, their runs of white space each taken for one space. */
  predicate Alike(one: string, other: string) {
    && Collapse(one, false) == Collapse(other, false) && RunAfter(one, false) == RunAfter(other, false)
    && Collapse(one, true) == Collapse(other, true) && RunAfter(one, true) == RunAfter(other, true)
  }

  lemma AlikeJoins(one: string, other: string, rest: string, end: string)
    requires Alike(one, other) && Alike(rest, end)
    ensures Alike(one + rest, other + end)
  {
    CollapseSplits(one, rest, false);
    CollapseSplits(other, end, false);
    CollapseSplits(one, rest, true);
    CollapseSplits(other, end, true);
    RunSplits(one, rest, false);
    RunSplits(other, end, false);
    RunSplits(one, rest, true);
    RunSplits(other, end, true);
  }

  /** White space and nothing else. */
  predicate Blank(text: string) {
    text != "" && forall c | c in text :: IsSpace(c)
  }

  lemma {:induction false} BlankCollapses(text: string, inRun: bool)
    requires forall c | c in text :: IsSpace(c)
    ensures Collapse(text, inRun) == if text == "" || inRun then "" else " "
  {
    if text != "" { BlankCollapses(text[1..], true); }
  }

  lemma BlankIsOneSpace(text: string)
    requires Blank(text)
    ensures Alike(text, " ")
  {
    BlankCollapses(text, false);
    BlankCollapses(" ", false);
    BlankCollapses(text, true);
    BlankCollapses(" ", true);
    assert text[|text| - 1] in text;
  }

  predicate Spaces(text: string) {
    forall c | c in text :: IsSpace(c)
  }

  lemma SpacesAfter(text: string, spaces: string)
    requires text != "" && IsSpace(text[|text| - 1]) && Spaces(spaces)
    ensures Alike(text + spaces, text)
  {
    CollapseSplits(text, spaces, false);
    CollapseSplits(text, spaces, true);
    RunSplits(text, spaces, false);
    RunSplits(text, spaces, true);
    BlankCollapses(spaces, true);
    if spaces != "" { assert spaces[|spaces| - 1] in spaces; }
  }

  lemma AlikeBehind(one: string, rest: string, end: string)
    requires Alike(rest, end)
    ensures Alike(one + rest, one + end)
  {
    AlikeJoins(one, one, rest, end);
  }

  lemma AlikeThrough(a: string, b: string, c: string)
    requires Alike(a, b) && Alike(b, c)
    ensures Alike(a, c)
  {
  }

  lemma SpacesJoin(one: string, other: string)
    requires Spaces(one) && Spaces(other)
    ensures Spaces(one + other)
  {
  }

  /** The length that is left of a text, its runs of white space each one space and none at its ends. */
  function TextLength(text: string): nat {
    Length(Trim(Collapse(text, false)))
  }
}
