/**
  The report splitter of internal/telegram/handler_sprint.go: a long text becomes parts of bounded
  size, broken between sections where possible and between lines otherwise. Lengths are in bytes;
  a string is its sequence of bytes-as-characters.
*/
module SplitMessage {
  import opened Strings

  const NL := '\n'
  const PARAGRAPH: string := "\n\n"
  const LINE: string := "\n"

  ghost predicate AllNewlines(s: string) {
    forall i :: 0 <= i < |s| ==> s[i] == NL
  }

  // ---------------------------------------------------------------- splitting on a separator

  function Split(text: string, sep: string): (pieces: seq<string>)
    requires sep != []
    ensures pieces != []
    decreases |text|
  {
    var i := Index(text, sep);
    if i < 0 then [text] else [text[..i]] + Split(text[i + |sep|..], sep)
  }

  function Join(pieces: seq<string>, sep: string): string
    decreases |pieces|
  {
    if pieces == [] then []
    else if |pieces| == 1 then pieces[0]
    else Join(pieces[..|pieces| - 1], sep) + sep + pieces[|pieces| - 1]
  }

  lemma {:induction false} JoinFront(first: string, rest: seq<string>, sep: string)
    requires rest != []
    ensures Join([first] + rest, sep) == first + sep + Join(rest, sep)
    decreases |rest|
  {
    var all := [first] + rest;
    if |rest| == 1 {
      assert all[..1] == [first];
    } else {
      assert all[..|all| - 1] == [first] + rest[..|rest| - 1];
      JoinFront(first, rest[..|rest| - 1], sep);
    }
  }

  lemma {:induction false} JoinSplit(text: string, sep: string)
    requires sep != []
    ensures Join(Split(text, sep), sep) == text
    decreases |text|
  {
    var i := Index(text, sep);
    if i >= 0 {
      var rest := text[i + |sep|..];
      JoinSplit(rest, sep);
      JoinFront(text[..i], Split(rest, sep), sep);
      CutAround(text, sep, i);
    }
  }

  lemma CutAround(text: string, sep: string, i: nat)
    requires OccursAt(text, sep, i)
    ensures text == text[..i] + sep + text[i + |sep|..]
  {
    assert text == text[..i] + text[i..i + |sep|] + text[i + |sep|..];
  }

  /** Every stretch of the text without a newline is at most `limit` long. */
  ghost predicate LinesFit(text: string, limit: int) {
    forall i, j :: 0 <= i <= j <= |text| && NL !in text[i..j] ==> j - i <= limit
  }

  lemma LinesFitAround(a: string, sep: string, b: string, limit: nat)
    requires sep != [] && AllNewlines(sep)
    ensures LinesFit(a + sep + b, limit) <==> LinesFit(a, limit) && LinesFit(b, limit)
  {
    var t, n := a + sep + b, |a| + |sep|;
    if LinesFit(t, limit) {
      forall i, j | 0 <= i <= j <= |a| && NL !in a[i..j] ensures j - i <= limit {
        assert a[i..j] == t[i..j];
      }
      forall i, j | 0 <= i <= j <= |b| && NL !in b[i..j] ensures j - i <= limit {
        assert t[n..] == b && t[n..][i..j] == t[n + i..n + j];
      }
    }
    if LinesFit(a, limit) && LinesFit(b, limit) {
      forall i, j | 0 <= i <= j <= |t| ensures NL in t[i..j] || j - i <= limit {
        if j <= |a| {
          assert t[i..j] == a[i..j];
        } else if n <= i {
          assert t[i..j] == b[i - n..j - n];
        } else if i < j {
          var k := if i < |a| then |a| else i;
          assert t[k] == sep[k - |a|] && t[i..j][k - i] == t[k];
        }
      }
    }
  }

  /** The lines of a text fit exactly when the lines of each of its pieces do. */
  lemma {:induction false} PiecesFit(text: string, sep: string, limit: nat)
    requires sep != [] && AllNewlines(sep)
    ensures LinesFit(text, limit) <==> forall p :: p in Split(text, sep) ==> LinesFit(p, limit)
    decreases |text|
  {
    var i := Index(text, sep);
    if i >= 0 {
      var rest := text[i + |sep|..];
      PiecesFit(rest, sep, limit);
      assert text == text[..i] + sep + rest;
      LinesFitAround(text[..i], sep, rest, limit);
      forall p ensures p in Split(text, sep) <==> p == text[..i] || p in Split(rest, sep) {
      }
    }
  }

  ghost predicate FitUpTo(pieces: seq<string>, k: nat, limit: int) {
    forall p :: p in pieces[..if k <= |pieces| then k else |pieces|] ==> LinesFit(p, limit)
  }

  lemma FitUpToNext(pieces: seq<string>, k: nat, limit: int)
    requires k < |pieces|
    ensures FitUpTo(pieces, k + 1, limit) <==> FitUpTo(pieces, k, limit) && LinesFit(pieces[k], limit)
  {
    assert pieces[..k + 1] == pieces[..k] + [pieces[k]];
  }

  lemma AllPiecesFit(text: string, sep: string, limit: nat)
    requires sep != [] && AllNewlines(sep)
    ensures FitUpTo(Split(text, sep), |Split(text, sep)|, limit) <==> LinesFit(text, limit)
  {
    PiecesFit(text, sep, limit);
    assert Split(text, sep)[..|Split(text, sep)|] == Split(text, sep);
  }

  lemma NewlineOccurs(text: string, j: nat)
    requires j < |text| && text[j] == NL
    ensures 0 <= Index(text, LINE) <= j
  {
    assert text[j..j + 1] == [text[j]];
    IndexIsFirst(text, LINE, j);
  }

  lemma NoNewlineBeforeIndex(text: string)
    ensures Index(text, LINE) < 0 ==> NL !in text
    ensures Index(text, LINE) >= 0 ==> NL !in text[..Index(text, LINE)]
  {
    forall j | 0 <= j < |text| && text[j] == NL ensures 0 <= Index(text, LINE) <= j {
      NewlineOccurs(text, j);
    }
  }

  lemma {:induction false} LinesHaveNoNewline(text: string, p: string)
    requires p in Split(text, LINE)
    ensures NL !in p
    decreases |text|
  {
    var i := Index(text, LINE);
    NoNewlineBeforeIndex(text);
    if i >= 0 && p != text[..i] {
      LinesHaveNoNewline(text[i + 1..], p);
    }
  }

  lemma OneLineFits(line: string, limit: nat)
    requires NL !in line
    ensures LinesFit(line, limit) <==> |line| <= limit
  {
    assert line[0..|line|] == line;
  }

  lemma ShortTextFits(text: string, limit: nat)
    requires |text| <= limit
    ensures LinesFit(text, limit)
  {
  }

  // ---------------------------------------------------------------- what the parts must be

  /** The text is the parts in order, with nothing but newlines before, between and after them. */
  ghost predicate Woven(text: string, parts: seq<string>)
    decreases |parts|
  {
    if parts == [] then AllNewlines(text)
    else
      exists k, m :: 0 <= k <= m <= |text| && Woven(text[..k], parts[..|parts| - 1])
                  && text[k..m] == parts[|parts| - 1] && AllNewlines(text[m..])
  }

  lemma WovenPart(before: string, parts: seq<string>, part: string)
    requires Woven(before, parts)
    ensures Woven(before + part, parts + [part])
  {
    var t := before + part;
    assert t[..|before|] == before && t[|before|..|t|] == part && t[|t|..] == [];
    assert (parts + [part])[..|parts|] == parts;
  }

  lemma WovenNewlines(before: string, parts: seq<string>, gap: string)
    requires Woven(before, parts) && AllNewlines(gap)
    ensures Woven(before + gap, parts)
  {
    if parts != [] {
      var k, m :| 0 <= k <= m <= |before| && Woven(before[..k], parts[..|parts| - 1])
                  && before[k..m] == parts[|parts| - 1] && AllNewlines(before[m..]);
      var t := before + gap;
      assert t[..k] == before[..k] && t[k..m] == before[k..m] && t[m..] == before[m..] + gap;
    }
  }

  function Stripped(text: string): string {
    if text == [] then []
    else (if text[0] == NL then [] else [text[0]]) + Stripped(text[1..])
  }

  function Flatten(parts: seq<string>): string
    decreases |parts|
  {
    if parts == [] then [] else Flatten(parts[..|parts| - 1]) + parts[|parts| - 1]
  }

  lemma {:induction false} StrippedConcat(a: string, b: string)
    ensures Stripped(a + b) == Stripped(a) + Stripped(b)
  {
    if a == [] {
      assert a + b == b;
    } else {
      assert (a + b)[1..] == a[1..] + b;
      StrippedConcat(a[1..], b);
    }
  }

  lemma {:induction false} StrippedNewlines(s: string)
    requires AllNewlines(s)
    ensures Stripped(s) == []
  {
    if s == [] {
    } else {
      StrippedNewlines(s[1..]);
    }
  }

  lemma StrippedCut(text: string, k: nat, m: nat)
    requires k <= m <= |text|
    ensures Stripped(text) == Stripped(text[..k]) + Stripped(text[k..m]) + Stripped(text[m..])
  {
    ThreeSlices(text, k, m);
    StrippedThree(text[..k], text[k..m], text[m..]);
  }

  lemma ThreeSlices(text: string, k: nat, m: nat)
    requires k <= m <= |text|
    ensures text == text[..k] + text[k..m] + text[m..]
  {
  }

  lemma StrippedThree(a: string, b: string, c: string)
    ensures Stripped(a + b + c) == Stripped(a) + Stripped(b) + Stripped(c)
  {
    StrippedConcat(a + b, c);
    StrippedConcat(a, b);
  }

  /** Woven parts carry the whole text but for newlines: nothing lost, added or reordered. */
  lemma {:induction false} WovenKeepsText(text: string, parts: seq<string>)
    requires Woven(text, parts)
    ensures Stripped(Flatten(parts)) == Stripped(text)
    decreases |parts|
  {
    if parts == [] {
      StrippedNewlines(text);
    } else {
      var k, m :| 0 <= k <= m <= |text| && Woven(text[..k], parts[..|parts| - 1])
                  && text[k..m] == parts[|parts| - 1] && AllNewlines(text[m..]);
      WovenKeepsText(text[..k], parts[..|parts| - 1]);
      StrippedNewlines(text[m..]);
      StrippedCut(text, k, m);
      StrippedConcat(Flatten(parts[..|parts| - 1]), parts[|parts| - 1]);
    }
  }

  // ---------------------------------------------------------------- the loop

  /** The parts made so far and the one being built. */
  datatype Building = Building(parts: seq<string>, current: string)

  ghost predicate Small(b: Building, limit: int) {
    (forall p :: p in b.parts ==> |p| <= limit) && |b.current| <= limit
  }

  /** `done` is the finished parts and then the current one, but for newlines; nothing is empty. */
  ghost predicate Covers(done: string, b: Building) {
    && [] !in b.parts
    && exists k :: 0 <= k <= |done| && Woven(done[..k], b.parts) && done[k..] == b.current
  }

  function Flushed(b: Building): Building {
    if b.current == [] then b else Building(b.parts + [b.current], [])
  }

  lemma {:induction false} FlushedCovers(done: string, b: Building)
    requires Covers(done, b)
    ensures Covers(done, Flushed(b))
  {
    if b.current != [] {
      var k :| 0 <= k <= |done| && Woven(done[..k], b.parts) && done[k..] == b.current;
      PrefixAndRest(done, k);
      CurrentBecomesPart(done[..k], b.parts, b.current);
    }
  }

  lemma {:induction false} PrefixAndRest(s: string, k: nat)
    requires k <= |s|
    ensures s == s[..k] + s[k..]
  {
  }

  lemma CurrentBecomesPart(before: string, parts: seq<string>, current: string)
    requires Woven(before, parts) && [] !in parts && current != []
    ensures Covers(before + current, Building(parts + [current], []))
  {
    WovenPart(before, parts, current);
    var done := before + current;
    assert done[..|done|] == done && done[|done|..] == [];
  }

  lemma FlushedSmall(b: Building, limit: nat)
    ensures Small(Flushed(b), limit) == Small(b, limit)
  {
    if b.current != [] {
      assert forall p :: p in b.parts + [b.current] <==> p in b.parts || p == b.current;
    }
  }

  // ---------------------------------------------------------------- where a break comes

  /** At this place the text goes on with the separator and then this piece, a whole one. */
  ghost predicate Follows(text: string, at: int, sep: string, piece: string) {
    && OccursAt(text, sep, at) && OccursAt(text, piece, at + |sep|) && Index(piece, sep) == -1
    && (at + |sep| + |piece| == |text| || OccursAt(text, sep, at + |sep| + |piece|))
  }

  /** The last of these parts ends where the next section or line would make it too long. */
  ghost predicate BreakAt(text: string, parts: seq<string>, limit: int) {
    && parts != []
    && exists at, sep, piece ::
         && Follows(text, at, sep, piece) && (sep == PARAGRAPH || sep == LINE)
         && Woven(text[..at], parts) && |parts[|parts| - 1]| + |sep| + |piece| > limit
  }

  ghost predicate Tight(text: string, parts: seq<string>, limit: int) {
    forall n :: 0 < n <= |parts| ==> BreakAt(text, parts[..n], limit)
  }

  lemma {:induction false} TightNext(text: string, parts: seq<string>, part: string, limit: int)
    requires Tight(text, parts, limit) && BreakAt(text, parts + [part], limit)
    ensures Tight(text, parts + [part], limit)
  {
    forall n | 0 < n <= |parts| + 1 ensures BreakAt(text, (parts + [part])[..n], limit) {
      if n <= |parts| {
        assert (parts + [part])[..n] == parts[..n];
      } else {
        assert (parts + [part])[..n] == parts + [part];
      }
    }
  }

  lemma {:induction false} OccursOn(text: string, more: string, sep: string, at: int)
    requires OccursAt(text, sep, at)
    ensures OccursAt(text + more, sep, at)
  {
    assert (text + more)[at..at + |sep|] == text[at..at + |sep|];
  }

  lemma {:induction false} FollowsOn(text: string, section: string, at: int, sep: string, piece: string)
    requires Follows(text, at, sep, piece) && (sep == PARAGRAPH || sep == LINE)
    ensures Follows(text + PARAGRAPH + section, at, sep, piece)
  {
    ParagraphComes(text, section, sep);
    FollowsMore(text, PARAGRAPH + section, text + PARAGRAPH + section, at, sep, piece);
  }

  lemma {:induction false} FollowsMore(text: string, more: string, all: string, at: int, sep: string, piece: string)
    requires Follows(text, at, sep, piece) && all == text + more && OccursAt(all, sep, |text|)
    ensures Follows(all, at, sep, piece)
  {
    OccursOn(text, more, sep, at);
    OccursOn(text, more, piece, at + |sep|);
    if at + |sep| + |piece| != |text| { OccursOn(text, more, sep, at + |sep| + |piece|); }
  }

  lemma {:induction false} ParagraphComes(text: string, section: string, sep: string)
    requires sep == PARAGRAPH || sep == LINE
    ensures OccursAt(text + PARAGRAPH + section, sep, |text|)
  {
    var all := text + PARAGRAPH + section;
    assert all[|text|] == NL && all[|text| + 1] == NL;
    assert all[|text|..|text| + |sep|] == sep;
  }

  /** The reasons for the breaks so far stand when another section follows. */
  lemma {:induction false} TightOn(text: string, section: string, parts: seq<string>, limit: int)
    requires Tight(text, parts, limit)
    ensures Tight(text + PARAGRAPH + section, parts, limit)
  {
    var all := text + PARAGRAPH + section;
    forall n | 0 < n <= |parts| ensures BreakAt(all, parts[..n], limit) {
      var before := parts[..n];
      var at, sep, piece :| Follows(text, at, sep, piece) && (sep == PARAGRAPH || sep == LINE)
                            && Woven(text[..at], before) && |before[|before| - 1]| + |sep| + |piece| > limit;
      FollowsOn(text, section, at, sep, piece);
      assert all[..at] == text[..at];
    }
  }

  lemma {:induction false} PieceHasNoSeparator(text: string, sep: string, p: string)
    requires sep != [] && p in Split(text, sep)
    ensures Index(p, sep) == -1
    decreases |text|
  {
    var i := Index(text, sep);
    if i >= 0 {
      if p == text[..i] {
        BeforeTheFirst(text, sep, i);
      } else {
        PieceHasNoSeparator(text[i + |sep|..], sep, p);
      }
    }
  }

  lemma {:induction false} BeforeTheFirst(text: string, sep: string, i: nat)
    requires sep != [] && Index(text, sep) == i
    ensures Index(text[..i], sep) == -1
  {
    var j := Index(text[..i], sep);
    if j != -1 {
      assert text[j..j + |sep|] == text[..i][j..j + |sep|];
      IndexIsFirst(text, sep, j);
    }
  }

  /** Joining the first pieces gives a beginning of the whole, and then the separator comes. */
  lemma {:induction false} JoinBegins(pieces: seq<string>, sep: string, m: nat)
    requires 0 < m <= |pieces|
    ensures var begin, all := Join(pieces[..m], sep), Join(pieces, sep);
            && OccursAt(all, begin, 0)
            && if m == |pieces| then begin == all else OccursAt(all, sep, |begin|)
    decreases |pieces|
  {
    var n := |pieces|;
    if m == n {
      assert pieces[..m] == pieces;
    } else {
      var init := pieces[..n - 1];
      JoinBegins(init, sep, m);
      assert init[..m] == pieces[..m];
      OccursOn(Join(init, sep), sep + pieces[n - 1], Join(pieces[..m], sep), 0);
      assert Join(pieces, sep) == Join(init, sep) + (sep + pieces[n - 1]);
      if m < n - 1 {
        OccursOn(Join(init, sep), sep + pieces[n - 1], sep, |Join(pieces[..m], sep)|);
      }
    }
  }

  /** The piece after the first `k` follows them. */
  lemma {:induction false} PieceFollows(text: string, sep: string, k: nat)
    requires sep != [] && 0 < k < |Split(text, sep)|
    ensures var read := Join(Split(text, sep)[..k], sep);
            OccursAt(text, read, 0) && Follows(text, |read|, sep, Split(text, sep)[k])
  {
    var pieces := Split(text, sep);
    JoinSplit(text, sep);
    JoinBegins(pieces, sep, k);
    JoinBegins(pieces, sep, k + 1);
    JoinNext(pieces, sep, k);
    PieceHasNoSeparator(text, sep, pieces[k]);
    ReadThenPiece(text, Join(pieces[..k], sep), sep, pieces[k]);
  }

  lemma {:induction false} ReadThenPiece(text: string, read: string, sep: string, piece: string)
    requires OccursAt(text, read + sep + piece, 0) && Index(piece, sep) == -1
    requires var end := |read| + |sep| + |piece|; end == |text| || OccursAt(text, sep, end)
    ensures OccursAt(text, read, 0) && Follows(text, |read|, sep, piece)
  {
    var next := read + sep + piece;
    assert text[..|next|] == next;
    assert text[..|read|] == next[..|read|] && text[|read|..|read| + |sep|] == next[|read|..|read| + |sep|];
    assert text[|read| + |sep|..|next|] == next[|read| + |sep|..];
  }

  /** And so it does when the text comes after another one. */
  lemma {:induction false} FollowsAfter(done: string, section: string, at: int, sep: string, piece: string)
    requires Follows(section, at, sep, piece)
    ensures Follows(done + section, |done| + at, sep, piece)
  {
    OccursAfter(done, section, sep, at);
    OccursAfter(done, section, piece, at + |sep|);
    if at + |sep| + |piece| != |section| { OccursAfter(done, section, sep, at + |sep| + |piece|); }
  }

  lemma {:induction false} OccursAfter(done: string, text: string, sep: string, at: int)
    requires OccursAt(text, sep, at)
    ensures OccursAt(done + text, sep, |done| + at)
  {
    assert (done + text)[|done| + at..|done| + at + |sep|] == text[at..at + |sep|];
  }

  /** Closing the current part, because what follows does not fit. */
  lemma {:induction false} BreakIsTight(text: string, done: string, b: Building, sep: string, piece: string, limit: int)
    requires Covers(done, b) && Tight(text, b.parts, limit) && b.current != []
    requires OccursAt(text, done, 0) && Follows(text, |done|, sep, piece) && (sep == PARAGRAPH || sep == LINE)
    requires |b.current| + |sep| + |piece| > limit
    ensures Tight(text, b.parts + [b.current], limit)
  {
    FlushedCovers(done, b);
    var parts := b.parts + [b.current];
    var k :| 0 <= k <= |done| && Woven(done[..k], parts) && done[k..] == [];
    assert done[..k] == done == text[..|done|];
    assert BreakAt(text, parts, limit);
    TightNext(text, b.parts, b.current, limit);
  }

  /** Appending a separator and a piece to the current part, or starting a part with the piece. */
  function Appended(b: Building, sep: string, piece: string): Building {
    b.(current := if b.current == [] then piece else b.current + sep + piece)
  }

  lemma AppendedCovers(done: string, b: Building, sep: string, piece: string)
    requires Covers(done, b) && AllNewlines(sep)
    ensures Covers(done + sep + piece, Appended(b, sep, piece))
  {
    var k :| 0 <= k <= |done| && Woven(done[..k], b.parts) && done[k..] == b.current;
    var done' := done + sep + piece;
    if b.current == [] {
      assert done[..k] == done;
      WovenNewlines(done, b.parts, sep);
      var k' := |done + sep|;
      assert done'[..k'] == done + sep && done'[k'..] == piece;
    } else {
      assert done'[..k] == done[..k] && done'[k..] == done[k..] + sep + piece;
    }
  }

  lemma WovenAlone(text: string)
    ensures Woven(text, [text])
  {
    WovenPart([], [], text);
    assert [] + text == text && [] + [text] == [text];
  }

  lemma ReadOn(done: string, read: string, line: string)
    ensures done + read + LINE + line == done + (read + LINE + line)
    ensures read == [] ==> done + read == done
  {
  }

  lemma NextLineFits(section: string, lines: seq<string>, k: nat, limit: nat)
    requires lines == Split(section, LINE) && k < |lines|
    ensures FitUpTo(lines, k + 1, limit) <==> FitUpTo(lines, k, limit) && |lines[k]| <= limit
  {
    LinesHaveNoNewline(section, lines[k]);
    OneLineFits(lines[k], limit);
    FitUpToNext(lines, k, limit);
  }

  /** Adds the lines of a section longer than the limit, one at a time. `done` is what came before
      the section, ending in the separator. */
  method AddLines(section: string, limit: nat, b0: Building, ghost done: string) returns (b: Building)
    requires Covers(done, b0) && b0.current == [] && Tight(done + section, b0.parts, limit)
    ensures Covers(done + section, b) && Tight(done + section, b.parts, limit)
    ensures Small(b, limit) <==> Small(b0, limit) && LinesFit(section, limit)
  {
    b := b0;
    var lines := Split(section, LINE);
    JoinSplit(section, LINE);
    AllPiecesFit(section, LINE, limit);
    ghost var read: string := [];
    assert done + read == done;
    for k := 0 to |lines|
      invariant read == Join(lines[..k], LINE)
      invariant Covers(done + read, b) && Tight(done + section, b.parts, limit)
      invariant Small(b, limit) <==> Small(b0, limit) && FitUpTo(lines, k, limit)
      invariant k == 0 ==> b == b0
    {
      JoinNext(lines, LINE, k);
      ReadOn(done, read, lines[k]);
      NextLineFits(section, lines, k, limit);
      if k > 0 { LineFollows(done, section, k); }
      b := AddPiece(b, LINE, lines[k], limit, done + read, k == 0, done + section);
      read := Join(lines[..k + 1], LINE);
    }
    assert lines[..|lines|] == lines;
  }

  /** Adds one piece: to the current part when there is room, else to a new one. At the very start
      (`first`) the piece has no separator before it. */
  method AddPiece(b0: Building, sep: string, piece: string, limit: nat, ghost done: string, ghost first: bool,
                  ghost text: string)
    returns (b: Building)
    requires Covers(done, b0) && (first ==> b0.current == []) && (sep == PARAGRAPH || sep == LINE)
    requires Tight(text, b0.parts, limit)
    requires !first ==> OccursAt(text, done, 0) && Follows(text, |done|, sep, piece)
    ensures Tight(text, b.parts, limit)
    ensures Covers(if first then done + piece else done + sep + piece, b)
    ensures Small(b, limit) <==> Small(b0, limit) && |piece| <= limit
  {
    b := b0;
    FlushedCovers(done, b);
    FlushedSmall(b, limit);
    if b.current != [] && |b.current| + |piece| + |sep| > limit {
      BreakIsTight(text, done, b, sep, piece, limit);
      b := Building(b.parts + [b.current], []);
    }
    PieceCovers(done, b, sep, piece, first);
    if b.current != [] {
      b := b.(current := b.current + sep + piece);
    } else {
      b := b.(current := piece);
    }
  }

  lemma {:induction false} PieceCovers(done: string, b: Building, sep: string, piece: string, first: bool)
    requires Covers(done, b) && (first ==> b.current == []) && (sep == PARAGRAPH || sep == LINE)
    ensures Covers(if first then done + piece else done + sep + piece, Appended(b, sep, piece))
  {
    if first {
      FirstLineCovers(done, b, piece);
    } else {
      AppendedCovers(done, b, sep, piece);
    }
  }

  lemma {:induction false} LineFollows(done: string, section: string, k: nat)
    requires 0 < k < |Split(section, LINE)|
    ensures var read := Join(Split(section, LINE)[..k], LINE);
            && OccursAt(done + section, done + read, 0)
            && Follows(done + section, |done + read|, LINE, Split(section, LINE)[k])
  {
    var read := Join(Split(section, LINE)[..k], LINE);
    PieceFollows(section, LINE, k);
    FollowsAfter(done, section, |read|, LINE, Split(section, LINE)[k]);
    assert (done + section)[..|done + read|] == done + section[..|read|];
  }

  lemma FirstLineCovers(done: string, b: Building, line: string)
    requires Covers(done, b) && b.current == []
    ensures Covers(done + line, b.(current := line))
  {
    var k :| 0 <= k <= |done| && Woven(done[..k], b.parts) && done[k..] == b.current;
    assert done[..k] == done;
    assert (done + line)[..|done|] == done && (done + line)[|done|..] == line;
  }

  lemma JoinNext(pieces: seq<string>, sep: string, k: nat)
    requires k < |pieces|
    ensures Join(pieces[..k + 1], sep) ==
            if k == 0 then pieces[0] else Join(pieces[..k], sep) + sep + pieces[k]
  {
    assert pieces[..k + 1][..k] == pieces[..k];
  }

  /** Every part fits the limit exactly when every line does; the parts are non-empty, together they are
      the text but for newlines at the breaks, and each break comes where the next section or line
      would have made the part too long. */
  method SplitMessage(text: string, limit: int) returns (parts: seq<string>)
    requires limit >= 0
    ensures |text| <= limit ==> parts == [text]
    ensures Woven(text, parts)
    ensures (forall p :: p in parts ==> |p| <= limit) <==> LinesFit(text, limit)
    ensures |text| > limit ==> [] !in parts
    ensures forall n :: 0 < n < |parts| ==> BreakAt(text, parts[..n], limit)
  {
    if |text| <= limit {
      ShortTextFits(text, limit);
      WovenAlone(text);
      return [text];
    }
    var b := AddSections(text, limit);
    parts := Finish(b, text, limit);
  }

  lemma NothingCovered()
    ensures Covers([], Building([], []))
  {
    assert ""[..0] == [] && ""[0..] == [];
  }

  lemma ReadSection(read: string, sections: seq<string>, k: nat, limit: int)
    requires k < |sections| && read == Join(sections[..k], PARAGRAPH)
    ensures Join(sections[..k + 1], PARAGRAPH)
         == if k == 0 then read + sections[k] else read + PARAGRAPH + sections[k]
    ensures FitUpTo(sections, k + 1, limit) <==> FitUpTo(sections, k, limit) && LinesFit(sections[k], limit)
  {
    JoinNext(sections, PARAGRAPH, k);
    FitUpToNext(sections, k, limit);
    assert k == 0 ==> read == [] && read + sections[k] == sections[k];
  }

  /** The loop over the sections of a text. */
  method AddSections(text: string, limit: nat) returns (b: Building)
    ensures Covers(text, b) && Tight(text, b.parts, limit)
    ensures Small(b, limit) <==> LinesFit(text, limit)
  {
    var sections := Split(text, PARAGRAPH);
    b := Building([], []);
    ghost var read: string := [];
    NothingCovered();
    for k := 0 to |sections|
      invariant read == Join(sections[..k], PARAGRAPH)
      invariant Covers(read, b) && Tight(read, b.parts, limit)
      invariant Small(b, limit) <==> FitUpTo(sections, k, limit)
      invariant k == 0 ==> b == Building([], [])
    {
      ReadSection(read, sections, k, limit);
      PieceHasNoSeparator(text, PARAGRAPH, sections[k]);
      b := AddSection(b, sections[k], limit, read, k == 0);
      read := Join(sections[..k + 1], PARAGRAPH);
    }
    SectionsAreTheText(text, sections, limit);
  }

  lemma SectionsAreTheText(text: string, sections: seq<string>, limit: nat)
    requires sections == Split(text, PARAGRAPH)
    ensures Join(sections[..|sections|], PARAGRAPH) == text
    ensures FitUpTo(sections, |sections|, limit) <==> LinesFit(text, limit)
  {
    JoinSplit(text, PARAGRAPH);
    AllPiecesFit(text, PARAGRAPH, limit);
    assert sections[..|sections|] == sections;
  }

  /** What is left in the current part becomes the last one. */
  method Finish(b: Building, ghost text: string, limit: nat) returns (parts: seq<string>)
    requires Covers(text, b) && Tight(text, b.parts, limit)
    ensures forall n :: 0 < n < |parts| ==> BreakAt(text, parts[..n], limit)
    ensures Woven(text, parts) && [] !in parts
    ensures (forall p :: p in parts ==> |p| <= limit) <==> Small(b, limit)
  {
    FlushedCovers(text, b);
    FlushedSmall(b, limit);
    parts := b.parts;
    if b.current != [] {
      parts := parts + [b.current];
    }
    assert Flushed(b) == Building(parts, []);
    ghost var k :| 0 <= k <= |text| && Woven(text[..k], parts) && text[k..] == [];
    assert text[..k] == text;
    forall n | 0 < n < |parts| ensures BreakAt(text, parts[..n], limit) {
      assert parts[..n] == b.parts[..n];
    }
  }

  /** What has been read once this section has. */
  function Grown(read: string, section: string, first: bool): string {
    if first then read + section else read + PARAGRAPH + section
  }

  lemma {:induction false} SectionFollows(read: string, section: string, first: bool, parts: seq<string>, limit: int)
    requires Tight(read, parts, limit) && Index(section, PARAGRAPH) == -1 && (first ==> parts == [])
    ensures Tight(Grown(read, section, first), parts, limit)
    ensures !first ==> OccursAt(Grown(read, section, first), read, 0)
                       && Follows(Grown(read, section, first), |read|, PARAGRAPH, section)
  {
    if !first {
      TightOn(read, section, parts, limit);
      var text := read + PARAGRAPH + section;
      assert text[..|read|] == read && text[|read|..|read| + 2] == PARAGRAPH && text[|read| + 2..] == section;
    }
  }

  method AddSection(b0: Building, section: string, limit: nat, ghost read: string, ghost first: bool)
    returns (b: Building)
    requires Covers(read, b0) && (first ==> b0 == Building([], []) && read == [])
    requires Tight(read, b0.parts, limit) && Index(section, PARAGRAPH) == -1
    ensures Covers(Grown(read, section, first), b) && Tight(Grown(read, section, first), b.parts, limit)
    ensures Small(b, limit) <==> Small(b0, limit) && LinesFit(section, limit)
  {
    b := b0;
    ghost var text := Grown(read, section, first);
    SectionFollows(read, section, first, b.parts, limit);
    if |section| > limit {
      FlushedCovers(read, b);
      FlushedSmall(b, limit);
      if b.current != [] && |b.current| + |section| + 2 > limit {
        BreakIsTight(text, read, b, PARAGRAPH, section, limit);
        b := Building(b.parts + [b.current], []);
      }
      ghost var done := read;
      if !first {
        AppendedCovers(read, b, PARAGRAPH, []);
        done := read + PARAGRAPH;
        assert done + [] == done;
      }
      assert done + section == text;
      b := AddLines(section, limit, b, done);
    } else {
      ShortTextFits(section, limit);
      b := AddPiece(b, PARAGRAPH, section, limit, read, first, text);
    }
  }
}
