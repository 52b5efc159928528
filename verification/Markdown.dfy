/**
  Telegram Markdown escaping of internal/format/markdown.go. A text is its sequence of runes.
*/
module Markdown {

  const MARKDOWN_V2_SPECIAL := "_*[]()~`>#+-=|{}.!\\"

  /** The characters whose escapes the stripper undoes, in its own order. */
  const STRIPPED := "_*`[]()~>#+-=|{}.!\\"

  const LEGACY_SPECIAL := "_*`[]"

  const BACKSLASH := '\\'

  predicate IsReserved(c: char) { c in MARKDOWN_V2_SPECIAL }

  /** The text with a backslash before each character of `special`. */
  function Escaped(s: string, special: string): string {
    if s == [] then []
    else (if s[0] in special then [BACKSLASH, s[0]] else [s[0]]) + Escaped(s[1..], special)
  }

  function EscapeMarkdown(s: string): string { Escaped(s, LEGACY_SPECIAL) }

  method EscapeMarkdownV2(s: string) returns (r: string)
    ensures r == Escaped(s, MARKDOWN_V2_SPECIAL)
  {
    r := [];
    for i := 0 to |s|
      invariant r == Escaped(s[..i], MARKDOWN_V2_SPECIAL)
    {
      assert s[..i + 1] == s[..i] + [s[i]];
      EscapedSnoc(s[..i], s[i], MARKDOWN_V2_SPECIAL);
      if s[i] as int < 128 && s[i] in MARKDOWN_V2_SPECIAL {
        r := r + [BACKSLASH];
      }
      r := r + [s[i]];
    }
    assert s[..|s|] == s;
  }

  lemma {:induction false} EscapedSnoc(s: string, c: char, special: string)
    ensures Escaped(s + [c], special) == Escaped(s, special) + if c in special then [BACKSLASH, c] else [c]
  {
    if s == [] {
      assert [c][1..] == [];
    } else {
      assert (s + [c])[1..] == s[1..] + [c];
      EscapedSnoc(s[1..], c, special);
    }
  }

  /** The library's replacer over two-character patterns: left to right, never overlapping. */
  function StripMarkdownEscapes(s: string): string {
    if s == [] then []
    else if s[0] == BACKSLASH && |s| > 1 && s[1] in STRIPPED then [s[1]] + StripMarkdownEscapes(s[2..])
    else [s[0]] + StripMarkdownEscapes(s[1..])
  }

  /** Read left to right, every reserved character has an escaping backslash of its own. */
  predicate WellEscaped(s: string) {
    s == []
    || (s[0] == BACKSLASH && |s| > 1 && IsReserved(s[1]) && WellEscaped(s[2..]))
    || (!IsReserved(s[0]) && WellEscaped(s[1..]))
  }

  lemma StripperKnowsReserved(c: char)
    ensures c in STRIPPED <==> IsReserved(c)
  {
    assert forall k :: 0 <= k < |STRIPPED| ==> STRIPPED[k] in MARKDOWN_V2_SPECIAL;
    assert forall k :: 0 <= k < |MARKDOWN_V2_SPECIAL| ==> MARKDOWN_V2_SPECIAL[k] in STRIPPED;
  }

  /** Stripping undoes the V2 escape, for every text, and the escaped text is well escaped. */
  lemma {:induction false} EscapeThenStrip(s: string)
    ensures StripMarkdownEscapes(Escaped(s, MARKDOWN_V2_SPECIAL)) == s
    ensures WellEscaped(Escaped(s, MARKDOWN_V2_SPECIAL))
  {
    if s == [] {
    } else {
      EscapeThenStrip(s[1..]);
      StripperKnowsReserved(s[0]);
      var e := Escaped(s, MARKDOWN_V2_SPECIAL);
      if IsReserved(s[0]) {
        assert e[2..] == Escaped(s[1..], MARKDOWN_V2_SPECIAL);
      } else {
        assert e[1..] == Escaped(s[1..], MARKDOWN_V2_SPECIAL);
        assert BACKSLASH == MARKDOWN_V2_SPECIAL[|MARKDOWN_V2_SPECIAL| - 1];
      }
    }
  }

  /** Escaping undoes stripping on well-escaped text: the two are inverse bijections. */
  lemma {:induction false} StripThenEscape(t: string)
    requires WellEscaped(t)
    ensures Escaped(StripMarkdownEscapes(t), MARKDOWN_V2_SPECIAL) == t
  {
    if t == [] {
    } else {
      assert BACKSLASH == MARKDOWN_V2_SPECIAL[|MARKDOWN_V2_SPECIAL| - 1];
      if t[0] == BACKSLASH {
        StripperKnowsReserved(t[1]);
        StripThenEscape(t[2..]);
        assert StripMarkdownEscapes(t)[1..] == StripMarkdownEscapes(t[2..]);
        assert t == [t[0], t[1]] + t[2..];
      } else {
        StripThenEscape(t[1..]);
        assert StripMarkdownEscapes(t)[1..] == StripMarkdownEscapes(t[1..]);
      }
    }
  }

  // ---------------------------------------------------------------- the legacy escape

  /** A backslash before a character that stripping unescapes but the legacy escape leaves alone. */
  predicate HazardAt(s: string, i: nat) {
    i + 1 < |s| && s[i] == BACKSLASH && s[i + 1] in STRIPPED && s[i + 1] !in LEGACY_SPECIAL
  }

  ghost predicate HasHazard(s: string) {
    exists i: nat :: HazardAt(s, i)
  }

  /** Dropping a first part that holds no hazard and ends in no backslash. */
  lemma HazardInTail(s: string, k: nat)
    requires 0 < k <= |s| && s[k - 1] != BACKSLASH
    requires forall i :: 0 <= i < k ==> !HazardAt(s, i)
    ensures HasHazard(s) <==> HasHazard(s[k..])
  {
    if HasHazard(s) {
      var i: nat :| HazardAt(s, i);
      assert HazardAt(s[k..], i - k);
    }
    if HasHazard(s[k..]) {
      var j: nat :| HazardAt(s[k..], j);
      assert HazardAt(s, k + j);
    }
  }

  function LegacyTrip(s: string): string { StripMarkdownEscapes(EscapeMarkdown(s)) }

  lemma StripPair(c: char, rest: string)
    ensures c in STRIPPED ==> StripMarkdownEscapes([BACKSLASH, c] + rest) == [c] + StripMarkdownEscapes(rest)
    ensures c !in STRIPPED ==>
              StripMarkdownEscapes([BACKSLASH, c] + rest) == [BACKSLASH] + StripMarkdownEscapes([c] + rest)
  {
    var t := [BACKSLASH, c] + rest;
    assert t[2..] == rest && t[1..] == [c] + rest;
  }

  lemma StripPlain(c: char, rest: string)
    requires c != BACKSLASH
    ensures StripMarkdownEscapes([c] + rest) == [c] + StripMarkdownEscapes(rest)
  {
    assert ([c] + rest)[1..] == rest;
  }

  lemma EscapeHead(s: string)
    requires s != []
    ensures EscapeMarkdown(s) == (if s[0] in LEGACY_SPECIAL then [BACKSLASH, s[0]] else [s[0]]) + EscapeMarkdown(s[1..])
  {
  }

  lemma BackslashIsStripped()
    ensures BACKSLASH in STRIPPED && BACKSLASH !in LEGACY_SPECIAL
    ensures forall c :: c in LEGACY_SPECIAL ==> c in STRIPPED
  {
    assert BACKSLASH == STRIPPED[|STRIPPED| - 1];
    assert forall k :: 0 <= k < |LEGACY_SPECIAL| ==> LEGACY_SPECIAL[k] in STRIPPED;
  }

  /** Escaping and stripping a text, one character or one backslash pair at a time. */
  lemma PlainStep(s: string)
    requires s != [] && s[0] != BACKSLASH
    ensures LegacyTrip(s) == [s[0]] + LegacyTrip(s[1..])
  {
    BackslashIsStripped();
    EscapeHead(s);
    StripPair(s[0], EscapeMarkdown(s[1..]));
    StripPlain(s[0], EscapeMarkdown(s[1..]));
  }

  lemma BackslashStep(s: string)
    requires |s| > 1 && s[0] == BACKSLASH
    ensures LegacyTrip(s) == (if HazardAt(s, 0) then [s[1]] else [s[0], s[1]]) + LegacyTrip(s[2..])
  {
    BackslashIsStripped();
    var c, rest := s[1], EscapeMarkdown(s[2..]);
    EscapeHead(s);
    EscapeHead(s[1..]);
    assert s[1..][1..] == s[2..];
    if c in LEGACY_SPECIAL {
      assert EscapeMarkdown(s) == [BACKSLASH, BACKSLASH] + ([c] + rest);
      StripTwo(c, rest);
    } else {
      assert EscapeMarkdown(s) == [BACKSLASH, c] + rest;
      StripPair(c, rest);
      if c != BACKSLASH { StripPlain(c, rest); }
    }
  }

  lemma StripTwo(c: char, rest: string)
    requires c in LEGACY_SPECIAL
    ensures StripMarkdownEscapes([BACKSLASH, BACKSLASH] + ([c] + rest)) == [BACKSLASH, c] + StripMarkdownEscapes(rest)
  {
    BackslashIsStripped();
    StripPair(BACKSLASH, [c] + rest);
    StripPlain(c, rest);
  }

  lemma LoneBackslash()
    ensures LegacyTrip([BACKSLASH]) == [BACKSLASH]
  {
    BackslashIsStripped();
    EscapeHead([BACKSLASH]);
    var e := EscapeMarkdown([BACKSLASH]);
    assert [BACKSLASH][1..] == [];
    assert e == [BACKSLASH] && e[1..] == [];
    assert StripMarkdownEscapes(e) == [e[0]] + StripMarkdownEscapes(e[1..]);
  }

  /** The legacy escape is undone by stripping exactly on texts without such a backslash. */
  lemma {:induction false} LegacyRoundTripIff(s: string)
    ensures |LegacyTrip(s)| <= |s|
    ensures LegacyTrip(s) == s <==> !HasHazard(s)
    decreases |s|
  {
    if s == [BACKSLASH] {
      LoneBackslash();
    } else if s != [] {
      var k := if s[0] == BACKSLASH then 2 else 1;
      if s[0] == BACKSLASH { BackslashStep(s); } else { PlainStep(s); }
      LegacyRoundTripIff(s[k..]);
      BackslashIsStripped();
      if HazardAt(s, 0) {
        assert HasHazard(s);
      } else if k == 2 && s[1] == BACKSLASH {
        assert false;
      } else {
        HazardInTail(s, k);
        assert LegacyTrip(s) == s[..k] + LegacyTrip(s[k..]);
        assert LegacyTrip(s)[k..] == LegacyTrip(s[k..]);
        assert s == s[..k] + s[k..];
      }
    }
  }
}
