/**
  Merging changelog items into net changes, from internal/poller/poller.go: the field map that
  `addPending` keeps for one notification and the section of the message rendered from it.
*/
module ChangeMerge {
  import opened Wrappers

  datatype ChangeItem = ChangeItem(field: string, fieldId: string,
                                   from: string, fromString: string, to: string, toString: string)

  datatype MergedChange = MergedChange(field: string, from: string, fromString: string, to: string, toString: string)

  type Changes = map<string, MergedChange>

  function ChangeDisplayValue(str: string, raw: string): string {
    if str != "" then str else raw
  }

  function ChangeFieldName(field: string, fieldId: string): string {
    if field != "" then field else fieldId
  }

  function NameOf(c: ChangeItem): string {
    ChangeFieldName(c.field, c.fieldId)
  }

  function MergeItem(changes: Changes, c: ChangeItem): Changes {
    var key := NameOf(c);
    if key == "" then changes
    else if key in changes then changes[key := changes[key].(to := c.to, toString := c.toString)]
    else changes[key := MergedChange(key, c.from, c.fromString, c.to, c.toString)]
  }

  function MergeAll(changes: Changes, items: seq<ChangeItem>): Changes
    decreases |items|
  {
    if items == [] then changes else MergeItem(MergeAll(changes, items[..|items| - 1]), items[|items| - 1])
  }

  /** The merge loop at the end of `addPending`. */
  method MergeChanges(changes: Changes, items: seq<ChangeItem>) returns (merged: Changes)
    ensures merged == MergeAll(changes, items)
  {
    merged := changes;
    for i := 0 to |items|
      invariant merged == MergeAll(changes, items[..i])
    {
      var c := items[i];
      assert items[..i + 1][..i] == items[..i];
      var key := ChangeFieldName(c.field, c.fieldId);
      if key == "" {
        continue;
      }
      if key in merged {
        merged := merged[key := merged[key].(to := c.to, toString := c.toString)];
      } else {
        merged := merged[key := MergedChange(key, c.from, c.fromString, c.to, c.toString)];
      }
    }
    assert items[..|items|] == items;
  }

  // ---------------------------------------------------------------- one record per field

  /** `i` is the first item of this field. */
  ghost predicate FirstOf(items: seq<ChangeItem>, key: string, i: int) {
    0 <= i < |items| && NameOf(items[i]) == key && forall j :: 0 <= j < i ==> NameOf(items[j]) != key
  }

  /** `i` is the last item of this field. */
  ghost predicate LastOf(items: seq<ChangeItem>, key: string, i: int) {
    0 <= i < |items| && NameOf(items[i]) == key && forall j :: i < j < |items| ==> NameOf(items[j]) != key
  }

  ghost predicate Mentions(items: seq<ChangeItem>, key: string) {
    exists i :: 0 <= i < |items| && NameOf(items[i]) == key
  }

  function SpanRecord(key: string, first: ChangeItem, last: ChangeItem): MergedChange {
    MergedChange(key, first.from, first.fromString, last.to, last.toString)
  }

  lemma {:induction false} UntouchedField(changes: Changes, items: seq<ChangeItem>, key: string)
    requires key == "" || !Mentions(items, key)
    ensures key in MergeAll(changes, items) <==> key in changes
    ensures key in changes ==> MergeAll(changes, items)[key] == changes[key]
    decreases |items|
  {
    if items == [] {
    } else {
      var n := |items| - 1;
      assert key != "" ==> NameOf(items[n]) != key;
      assert forall i :: 0 <= i < n ==> items[..n][i] == items[i];
      UntouchedField(changes, items[..n], key);
    }
  }

  /** A field already present keeps its old side and takes its new side from its last item. */
  lemma {:induction false} TouchedField(changes: Changes, items: seq<ChangeItem>, key: string, last: nat)
    requires key != "" && LastOf(items, key, last) && key in changes
    ensures key in MergeAll(changes, items)
    ensures MergeAll(changes, items)[key] == changes[key].(to := items[last].to, toString := items[last].toString)
    decreases |items|
  {
    var n := |items| - 1;
    var init := items[..n];
    if last < n {
      TouchedField(changes, init, key, last);
    } else {
      KeyStays(changes, init, key);
    }
  }

  lemma {:induction false} KeyStays(changes: Changes, items: seq<ChangeItem>, key: string)
    requires key in changes
    ensures key in MergeAll(changes, items)
    ensures var r := MergeAll(changes, items)[key];
            r == changes[key].(to := r.to, toString := r.toString)
    decreases |items|
  {
    if items == [] {
    } else {
      KeyStays(changes, items[..|items| - 1], key);
    }
  }

  lemma InitOfSum(a: seq<ChangeItem>, b: seq<ChangeItem>)
    requires b != []
    ensures var n := |b| - 1; (a + b)[..|a + b| - 1] == a + b[..n] && (a + b)[|a + b| - 1] == b[n] && a + b != []
  {
  }

  /** Splitting a stream over several calls makes no difference. */
  lemma {:induction false} MergeSplits(changes: Changes, a: seq<ChangeItem>, b: seq<ChangeItem>)
    ensures MergeAll(MergeAll(changes, a), b) == MergeAll(changes, a + b)
    decreases |b|
  {
    if b == [] {
      assert a + b == a;
    } else {
      var n := |b| - 1;
      MergeSplits(changes, a, b[..n]);
      InitOfSum(a, b);
    }
  }

  /** Every named field of a stream has one record, from its first item's old side to its last
      item's new side; nothing else has a record. */
  lemma {:induction false} MergedSpansFirstToLast(items: seq<ChangeItem>, key: string)
    ensures key in MergeAll(map[], items) <==> key != "" && Mentions(items, key)
    ensures forall i, j :: key != "" && FirstOf(items, key, i) && LastOf(items, key, j) ==>
              key in MergeAll(map[], items) && MergeAll(map[], items)[key] == SpanRecord(key, items[i], items[j])
  {
    if key == "" || !Mentions(items, key) {
      UntouchedField(map[], items, key);
    } else {
      var i := FirstIndex(items, key);
      var j := LastIndex(items, key);
      RecordSpans(items, key, i, j);
      forall i', j' | FirstOf(items, key, i') && LastOf(items, key, j') ensures i' == i && j' == j {
      }
    }
  }

  lemma RecordStarts(items: seq<ChangeItem>, key: string, i: nat)
    requires key != "" && FirstOf(items, key, i)
    ensures var m := MergeAll(map[], items[..i + 1]);
            key in m && m[key] == SpanRecord(key, items[i], items[i])
  {
    assert items[..i + 1][..i] == items[..i];
    UntouchedField(map[], items[..i], key);
  }

  lemma RecordSpans(items: seq<ChangeItem>, key: string, i: nat, j: nat)
    requires key != "" && FirstOf(items, key, i) && LastOf(items, key, j)
    ensures key in MergeAll(map[], items) && MergeAll(map[], items)[key] == SpanRecord(key, items[i], items[j])
  {
    var upto, rest := items[..i + 1], items[i + 1..];
    assert items == upto + rest;
    RecordStarts(items, key, i);
    SuffixLast(items, i + 1, key, j);
    MergeSplits(map[], upto, rest);
    var m := MergeAll(map[], upto);
    if i < j {
      TouchedField(m, rest, key, j - i - 1);
    } else {
      UntouchedField(m, rest, key);
    }
  }

  lemma {:induction false} FirstIndex(items: seq<ChangeItem>, key: string) returns (i: nat)
    requires Mentions(items, key)
    ensures FirstOf(items, key, i)
  {
    i := 0;
    while NameOf(items[i]) != key
      invariant i < |items| && forall j :: 0 <= j < i ==> NameOf(items[j]) != key
      decreases |items| - i
    {
      assert exists j :: i < j < |items| && NameOf(items[j]) == key;
      i := i + 1;
    }
  }

  lemma {:induction false} LastIndex(items: seq<ChangeItem>, key: string) returns (i: nat)
    requires Mentions(items, key)
    ensures LastOf(items, key, i)
  {
    var k := |items| - 1;
    while NameOf(items[k]) != key
      invariant 0 <= k < |items| && forall j :: k < j < |items| ==> NameOf(items[j]) != key
      decreases k
    {
      assert exists j :: 0 <= j < k && NameOf(items[j]) == key;
      k := k - 1;
    }
    i := k;
  }

  // ---------------------------------------------------------------- overlapping windows

  lemma SuffixLast(items: seq<ChangeItem>, k: nat, key: string, last: nat)
    requires k <= |items| && LastOf(items, key, last)
    ensures last < k ==> !Mentions(items[k..], key)
    ensures k <= last ==> LastOf(items[k..], key, last - k)
  {
    assert forall i :: 0 <= i < |items| - k ==> items[k..][i] == items[k + i];
  }

  lemma RedeliveredField(changes: Changes, items: seq<ChangeItem>, k: nat, key: string)
    requires k <= |items|
    ensures var once := MergeAll(changes, items);
            var twice := MergeAll(once, items[k..]);
            (key in twice <==> key in once) && (key in once ==> twice[key] == once[key])
  {
    var once := MergeAll(changes, items);
    if key == "" || !Mentions(items[k..], key) {
      UntouchedField(once, items[k..], key);
    } else {
      var l := LastIndex(items[k..], key);
      var last := k + l;
      assert forall i :: k <= i < |items| ==> items[k..][i - k] == items[i];
      assert LastOf(items, key, last);
      SetByLast(changes, items, key, last);
      TouchedField(once, items[k..], key, l);
    }
  }

  /** Whatever was there before, the new side of a field is its last item's. */
  lemma {:induction false} SetByLast(changes: Changes, items: seq<ChangeItem>, key: string, last: nat)
    requires key != "" && LastOf(items, key, last)
    ensures key in MergeAll(changes, items)
    ensures MergeAll(changes, items)[key].to == items[last].to
            && MergeAll(changes, items)[key].toString == items[last].toString
    decreases |items|
  {
    var n := |items| - 1;
    if last < n { SetByLast(changes, items[..n], key, last); }
  }

  /** Delivering any tail of the stream again changes nothing. */
  lemma RedeliveryChangesNothing(changes: Changes, items: seq<ChangeItem>, k: nat)
    requires k <= |items|
    ensures MergeAll(MergeAll(changes, items), items[k..]) == MergeAll(changes, items)
  {
    var once := MergeAll(changes, items);
    var twice := MergeAll(once, items[k..]);
    forall key ensures (key in twice <==> key in once) && (key in once ==> twice[key] == once[key]) {
      RedeliveredField(changes, items, k, key);
    }
  }

  /** Two overlapping windows of one stream merge like their union. */
  lemma OverlapMergesOnce(changes: Changes, a: seq<ChangeItem>, k: nat, b: seq<ChangeItem>)
    requires k <= |a|
    ensures MergeAll(MergeAll(changes, a), a[k..] + b) == MergeAll(changes, a + b)
  {
    RedeliveryChangesNothing(changes, a, k);
    MergeSplits(MergeAll(changes, a), a[k..], b);
    MergeSplits(changes, a, b);
  }

  // ---------------------------------------------------------------- the rendered section

  datatype Line =
    | Moved(field: string, from: string, to: string)
    | SetTo(field: string, to: string)
    | Cleared(field: string, from: string)

  function RenderChange(c: MergedChange): Option<Line> {
    var from := ChangeDisplayValue(c.fromString, c.from);
    var to := ChangeDisplayValue(c.toString, c.to);
    if from == to then None
    else if from != "" && to != "" then Some(Moved(c.field, from, to))
    else if to != "" then Some(SetTo(c.field, to))
    else Some(Cleared(c.field, from))
  }

  function Before(c: ChangeItem): string { ChangeDisplayValue(c.fromString, c.from) }

  function After(c: ChangeItem): string { ChangeDisplayValue(c.toString, c.to) }

  /** The lines of the changes section, one per field with a net change, in some order. */
  ghost predicate SectionOf(changes: Changes, lines: seq<Line>) {
    && (forall l :: l in lines <==> exists key :: key in changes && RenderChange(changes[key]) == Some(l))
    && (forall i, j :: 0 <= i < j < |lines| ==> lines[i] != lines[j])
  }

  /** Every record is stored under its own field name. */
  ghost predicate Keyed(changes: Changes) {
    forall key :: key in changes ==> changes[key].field == key
  }

  lemma {:induction false} MergeKeepsKeyed(changes: Changes, items: seq<ChangeItem>)
    requires Keyed(changes)
    ensures Keyed(MergeAll(changes, items))
    decreases |items|
  {
    if items == [] {
    } else {
      MergeKeepsKeyed(changes, items[..|items| - 1]);
    }
  }

  /** The lines are those of these keys. */
  ghost predicate LinesOf(changes: Changes, keys: set<string>, lines: seq<Line>)
    requires keys <= changes.Keys
  {
    forall l :: l in lines <==> exists key :: key in keys && RenderChange(changes[key]) == Some(l)
  }

  lemma OneMoreLine(changes: Changes, rest: set<string>, key: string, lines: seq<Line>)
    requires Keyed(changes) && rest <= changes.Keys && key in rest && LinesOf(changes, changes.Keys - rest, lines)
    ensures var line, keys := RenderChange(changes[key]), changes.Keys - (rest - {key});
            && LinesOf(changes, keys, if line.Some? then lines + [line.value] else lines)
            && (line.Some? ==> line.value !in lines)
  {
    var line, keys := RenderChange(changes[key]), changes.Keys - (rest - {key});
    var more := if line.Some? then lines + [line.value] else lines;
    forall l ensures l in more <==> exists k :: k in keys && RenderChange(changes[k]) == Some(l) {
      if l in lines {
        var k :| k in changes.Keys - rest && RenderChange(changes[k]) == Some(l);
        assert k in keys;
      }
      if Some(l) == line { assert key in keys; }
    }
    forall k | k in changes.Keys - rest ensures line.Some? ==> RenderChange(changes[k]) != line {
      assert changes[k].field == k && changes[key].field == key;
    }
  }

  /** Walks the map in an arbitrary order. */
  method RenderChanges(changes: Changes) returns (lines: seq<Line>)
    requires Keyed(changes)
    ensures SectionOf(changes, lines)
  {
    lines := [];
    var rest := changes.Keys;
    while rest != {}
      invariant rest <= changes.Keys
      invariant LinesOf(changes, changes.Keys - rest, lines)
      invariant forall i, j :: 0 <= i < j < |lines| ==> lines[i] != lines[j]
      decreases |rest|
    {
      var key :| key in rest;
      var line := RenderChange(changes[key]);
      OneMoreLine(changes, rest, key, lines);
      if line.Some? {
        lines := lines + [line.value];
      }
      rest := rest - {key};
    }
  }

  /** A field of the stream shows up exactly when its first and last displayed values differ, and
      then with those two values. */
  lemma {:induction false} RenderedIffNetChange(items: seq<ChangeItem>, key: string, i: nat, j: nat, lines: seq<Line>)
    requires key != "" && FirstOf(items, key, i) && LastOf(items, key, j)
    requires SectionOf(MergeAll(map[], items), lines)
    ensures (exists l :: l in lines && l.field == key) <==> Before(items[i]) != After(items[j])
    ensures Before(items[i]) != After(items[j]) ==>
              var from, to := Before(items[i]), After(items[j]);
              (if from == "" then SetTo(key, to)
               else if to == "" then Cleared(key, from)
               else Moved(key, from, to)) in lines
  {
    RecordSpans(items, key, i, j);
    MergeKeepsKeyed(map[], items);
    var changes := MergeAll(map[], items);
    var line := RenderChange(changes[key]);
    if line.Some? { assert line.value in lines; }
    forall l | l in lines && l.field == key ensures line == Some(l) {
      var k :| k in changes && RenderChange(changes[k]) == Some(l);
      assert changes[k].field == k;
    }
  }

  /** The field this item is about: its name, or its identifier when it has no name. */
  predicate IsAbout(c: ChangeItem, key: string) {
    if c.field != "" then c.field == key else c.fieldId == key
  }

  /** The same in the terms of the items themselves: a field has a line exactly when the text, or without
      one the raw value, that its first item comes from differs from the one its last item goes to. */
  lemma {:induction false} ShownIff(items: seq<ChangeItem>, key: string, i: nat, j: nat, lines: seq<Line>)
    requires key != "" && i < |items| && j < |items| && IsAbout(items[i], key) && IsAbout(items[j], key)
    requires forall k :: 0 <= k < i || j < k < |items| ==> !IsAbout(items[k], key)
    requires SectionOf(MergeAll(map[], items), lines)
    ensures var from := if items[i].fromString != "" then items[i].fromString else items[i].from;
            var to := if items[j].toString != "" then items[j].toString else items[j].to;
            && ((exists l :: l in lines && l.field == key) <==> from != to)
            && (from != to ==> (if from == "" then SetTo(key, to)
                                else if to == "" then Cleared(key, from)
                                else Moved(key, from, to)) in lines)
  {
    forall k | 0 <= k < |items| ensures NameOf(items[k]) == key <==> IsAbout(items[k], key) {
    }
    RenderedIffNetChange(items, key, i, j, lines);
  }

  // ---------------------------------------------------------------- comparing two streams

  /** The displayed values of a field before its first and after its last item; both empty for a field
      without items. */
  datatype Span = Span(before: string, after: string)

  function FirstItem(items: seq<ChangeItem>, key: string): Option<ChangeItem>
    decreases |items|
  {
    if items == [] then None
    else
      var n := |items| - 1;
      var earlier := FirstItem(items[..n], key);
      if earlier.Some? then earlier else if NameOf(items[n]) == key then Some(items[n]) else None
  }

  function LastItem(items: seq<ChangeItem>, key: string): Option<ChangeItem>
    decreases |items|
  {
    if items == [] then None
    else if NameOf(items[|items| - 1]) == key then Some(items[|items| - 1])
    else LastItem(items[..|items| - 1], key)
  }

  function SpanOf(items: seq<ChangeItem>, key: string): Span {
    var first, last := FirstItem(items, key), LastItem(items, key);
    Span(if first.Some? then Before(first.value) else "", if last.Some? then After(last.value) else "")
  }

  /** The line that the message built from a stream has for a field. */
  function LineOf(items: seq<ChangeItem>, key: string): Option<Line> {
    var changes := MergeAll(map[], items);
    if key in changes then RenderChange(changes[key]) else None
  }

  lemma {:induction false} FirstItemAt(items: seq<ChangeItem>, key: string, i: nat)
    requires FirstOf(items, key, i)
    ensures FirstItem(items, key) == Some(items[i])
    decreases |items|
  {
    var n := |items| - 1;
    if i < n {
      FirstItemAt(items[..n], key, i);
    } else {
      NoItem(items[..n], key);
    }
  }

  lemma {:induction false} LastItemAt(items: seq<ChangeItem>, key: string, i: nat)
    requires LastOf(items, key, i)
    ensures LastItem(items, key) == Some(items[i])
    decreases |items|
  {
    if i < |items| - 1 { LastItemAt(items[..|items| - 1], key, i); }
  }

  lemma {:induction false} NoItem(items: seq<ChangeItem>, key: string)
    requires !Mentions(items, key)
    ensures FirstItem(items, key).None? && LastItem(items, key).None?
    decreases |items|
  {
    if items == [] {
    } else {
      var n := |items| - 1;
      assert NameOf(items[n]) != key;
      assert forall i :: 0 <= i < n ==> items[..n][i] == items[i];
      NoItem(items[..n], key);
    }
  }

  lemma {:induction false} RecordIsSpan(items: seq<ChangeItem>, key: string)
    requires key != ""
    ensures var changes, first, last := MergeAll(map[], items), FirstItem(items, key), LastItem(items, key);
            && (key in changes <==> first.Some?) && (key in changes <==> last.Some?)
            && (key in changes ==> changes[key] == SpanRecord(key, first.value, last.value))
    decreases |items|
  {
    if items == [] {
    } else {
      RecordIsSpan(items[..|items| - 1], key);
    }
  }

  /** Two streams show the same line for a field exactly when both show nothing, or the field starts and
      ends with the same displayed values. */
  lemma {:induction false} LinesAgreeIff(a: seq<ChangeItem>, b: seq<ChangeItem>, key: string)
    requires key != ""
    ensures LineOf(a, key) == LineOf(b, key) <==> Agree(SpanOf(a, key), SpanOf(b, key))
  {
    RecordIsSpan(a, key);
    RecordIsSpan(b, key);
  }

  predicate Agree(a: Span, b: Span) {
    a == b || (a.before == a.after && b.before == b.after)
  }

  /** The lines of a section that are about one field. */
  ghost predicate Shows(lines: seq<Line>, key: string, line: Option<Line>) {
    forall l: Line :: l.field == key ==> (l in lines <==> line == Some(l))
  }

  lemma {:induction false} SectionShows(items: seq<ChangeItem>, key: string, lines: seq<Line>)
    requires key != "" && SectionOf(MergeAll(map[], items), lines)
    ensures Shows(lines, key, LineOf(items, key))
  {
    MergeKeepsKeyed(map[], items);
    var changes := MergeAll(map[], items);
    forall l: Line | l.field == key ensures l in lines <==> LineOf(items, key) == Some(l) {
      if l in lines {
        var k :| k in changes && RenderChange(changes[k]) == Some(l);
        assert changes[k].field == k;
      }
    }
  }

  function Reversed<T>(s: seq<T>): seq<T>
    decreases |s|
  {
    if s == [] then [] else [s[|s| - 1]] + Reversed(s[..|s| - 1])
  }

  lemma {:induction false} FirstItemOfSum(a: seq<ChangeItem>, b: seq<ChangeItem>, key: string)
    ensures FirstItem(a + b, key) == if FirstItem(a, key).Some? then FirstItem(a, key) else FirstItem(b, key)
    ensures LastItem(a + b, key) == if LastItem(b, key).Some? then LastItem(b, key) else LastItem(a, key)
    decreases |b|
  {
    if b == [] {
      assert a + b == a;
    } else {
      FirstItemOfSum(a, b[..|b| - 1], key);
      InitOfSum(a, b);
    }
  }

  lemma {:induction false} ItemsOfReversed(items: seq<ChangeItem>, key: string)
    ensures FirstItem(Reversed(items), key) == LastItem(items, key)
    ensures LastItem(Reversed(items), key) == FirstItem(items, key)
    decreases |items|
  {
    if items == [] {
    } else {
      var n := |items| - 1;
      ItemsOfReversed(items[..n], key);
      FirstItemOfSum([items[n]], Reversed(items[..n]), key);
      assert [items[n]][..0] == [];
    }
  }

  /** A stream read backwards shows the same line for a field exactly when neither order shows one, or
      the field's first and last items go from the same displayed value to the same displayed value. */
  lemma {:induction false} ReversalIsHarmlessIff(items: seq<ChangeItem>, key: string, i: nat, j: nat)
    requires key != "" && FirstOf(items, key, i) && LastOf(items, key, j)
    ensures LineOf(Reversed(items), key) == LineOf(items, key) <==>
              || (Before(items[i]) == After(items[j]) && Before(items[j]) == After(items[i]))
              || (Before(items[i]) == Before(items[j]) && After(items[i]) == After(items[j]))
  {
    LinesAgreeIff(Reversed(items), items, key);
    ItemsOfReversed(items, key);
    FirstItemAt(items, key, i);
    LastItemAt(items, key, j);
  }

  /** Read newest first, a field that moved A to B to C leaves the record B to B, and no line. */
  lemma NewestFirstHidesTheChange(key: string, a: string, b: string, c: string)
    requires key != "" && a != "" && b != "" && c != "" && a != c
    ensures var older, newer := ChangeItem(key, "", "", a, "", b), ChangeItem(key, "", "", b, "", c);
            && RenderChange(MergeAll(map[], [older, newer])[key]) == Some(Moved(key, a, c))
            && RenderChange(MergeAll(map[], [newer, older])[key]) == None
  {
    var older, newer := ChangeItem(key, "", "", a, "", b), ChangeItem(key, "", "", b, "", c);
    assert FirstOf([older, newer], key, 0) && LastOf([older, newer], key, 1);
    assert FirstOf([newer, older], key, 0) && LastOf([newer, older], key, 1);
    RecordSpans([older, newer], key, 0, 1);
    RecordSpans([newer, older], key, 0, 1);
  }
}
