/**
  Hold time and flow efficiency of internal/telegram/handler_kanban.go, with the status tests of
  internal/telegram/handler_sprint.go. Times are integer seconds where the source uses hours; a
  creation time that does not parse is None.
*/
module FlowMetrics {
  import opened Strings
  import opened Wrappers

  datatype ChangeItem = ChangeItem(field: string, fromString: string, toString: string)

  datatype History = History(created: Option<int>, items: seq<ChangeItem>)

  datatype Transition = Transition(at: int, from: string, to: string)

  // ---------------------------------------------------------------- statuses

  method ContainsLower(list: seq<string>, name: string) returns (found: bool)
    ensures found <==> exists i :: 0 <= i < |list| && EqualFold(list[i], name)
  {
    for i := 0 to |list|
      invariant forall k :: 0 <= k < i ==> !EqualFold(list[k], name)
    {
      if EqualFold(list[i], name) {
        return true;
      }
    }
    return false;
  }

  predicate IsHoldStatus(name: string, custom: seq<string>) {
    if |custom| > 0 then exists i :: 0 <= i < |custom| && EqualFold(custom[i], name)
    else name in ["hold", "on hold", "blocked", "suspended"]
  }

  predicate IsInProgressStatus(name: string) {
    name in ["in progress", "in review", "in development", "review", "in testing"]
  }

  predicate IsHold(status: string, custom: seq<string>) {
    IsHoldStatus(ToLower(status), custom)
  }

  /** Without statuses of the user's own, these count as hold, in any letter case. */
  lemma {:induction false} HoldStatuses(status: string)
    ensures IsHold(status, []) <==>
              var s := ToLower(status); s == "hold" || s == "on hold" || s == "blocked" || s == "suspended"
  {
    var names := ["hold", "on hold", "blocked", "suspended"];
    assert names[0] == "hold" && names[1] == "on hold" && names[2] == "blocked" && names[3] == "suspended";
  }

  // ---------------------------------------------------------------- hold time

  /** The status changes of one history entry, if its time parses. */
  function TransitionsOf(created: Option<int>, items: seq<ChangeItem>): seq<Transition>
    decreases |items|
  {
    if items == [] then []
    else
      var last := items[|items| - 1];
      TransitionsOf(created, items[..|items| - 1])
      + if EqualFold(last.field, "status") && created.Some?
        then [Transition(created.value, last.fromString, last.toString)] else []
  }

  function Transitions(histories: seq<History>): seq<Transition>
    decreases |histories|
  {
    if histories == [] then []
    else
      var last := histories[|histories| - 1];
      Transitions(histories[..|histories| - 1]) + TransitionsOf(last.created, last.items)
  }

  /** The running sum: the start of the open interval, if any, and the total so far. */
  datatype Running = Running(blockedStart: Option<int>, total: int)

  function Advance(r: Running, t: Transition, custom: seq<string>): Running {
    var start := if IsHold(t.to, custom) && r.blockedStart.None? then Some(t.at) else r.blockedStart;
    if IsHold(t.from, custom) && start.Some? then Running(None, r.total + (t.at - start.value))
    else Running(start, r.total)
  }

  function RunOver(ts: seq<Transition>, custom: seq<string>): Running
    decreases |ts|
  {
    if ts == [] then Running(None, 0)
    else Advance(RunOver(ts[..|ts| - 1], custom), ts[|ts| - 1], custom)
  }

  function ClosedAt(r: Running, until: int): int {
    if r.blockedStart.Some? && until > r.blockedStart.value then r.total + (until - r.blockedStart.value) else r.total
  }

  function HoldSum(histories: seq<History>, custom: seq<string>, until: int): int {
    ClosedAt(RunOver(Transitions(histories), custom), until)
  }

  method SumHold(histories: seq<History>, custom: seq<string>, until: int) returns (total: int)
    ensures total == HoldSum(histories, custom, until)
  {
    var r := Running(None, 0);
    for h := 0 to |histories|
      invariant RunOver(Transitions(histories[..h]), custom) == r
    {
      assert histories[..h + 1][..h] == histories[..h];
      r := SumHistory(histories[h], custom, r, Transitions(histories[..h]));
    }
    assert histories[..|histories|] == histories;
    total := r.total;
    if r.blockedStart.Some? && until > r.blockedStart.value {
      total := total + (until - r.blockedStart.value);
    }
  }

  /** The inner loop, over the items of one history entry; `before` are the transitions so far. */
  method SumHistory(hist: History, custom: seq<string>, r0: Running, ghost before: seq<Transition>) returns (r: Running)
    requires RunOver(before, custom) == r0
    ensures RunOver(before + TransitionsOf(hist.created, hist.items), custom) == r
  {
    var blockedStart, total := r0.blockedStart, r0.total;
    assert before + [] == before;
    for k := 0 to |hist.items|
      invariant RunOver(before + TransitionsOf(hist.created, hist.items[..k]), custom) == Running(blockedStart, total)
    {
      var item := hist.items[k];
      ItemTransition(hist, k, custom, before);
      if !EqualFold(item.field, "status") || hist.created.None? {
        continue;
      }
      var ts := hist.created.value;
      if IsHold(item.toString, custom) && blockedStart.None? {
        blockedStart := Some(ts);
      }
      if IsHold(item.fromString, custom) && blockedStart.Some? {
        total := total + (ts - blockedStart.value);
        blockedStart := None;
      }
    }
    assert hist.items[..|hist.items|] == hist.items;
    r := Running(blockedStart, total);
  }

  lemma ItemTransition(hist: History, k: nat, custom: seq<string>, before: seq<Transition>)
    requires k < |hist.items|
    ensures var item := hist.items[k];
            var r := RunOver(before + TransitionsOf(hist.created, hist.items[..k]), custom);
            RunOver(before + TransitionsOf(hist.created, hist.items[..k + 1]), custom) ==
            if EqualFold(item.field, "status") && hist.created.Some?
            then Advance(r, Transition(hist.created.value, item.fromString, item.toString), custom) else r
  {
    var item := hist.items[k];
    assert hist.items[..k + 1][..k] == hist.items[..k];
    var done := before + TransitionsOf(hist.created, hist.items[..k]);
    if EqualFold(item.field, "status") && hist.created.Some? {
      var t := Transition(hist.created.value, item.fromString, item.toString);
      assert before + TransitionsOf(hist.created, hist.items[..k + 1]) == done + [t];
      assert (done + [t])[..|done|] == done;
    } else {
      assert before + TransitionsOf(hist.created, hist.items[..k + 1]) == done;
    }
  }

  // ---------------------------------------------------------------- what it measures

  /** Which intervals to measure: all spent in hold, only those entered from outside hold, or only
      those entered from another hold status. */
  datatype Which = AllHold | FromOutside | FromHold

  predicate Measured(t: Transition, which: Which, custom: seq<string>) {
    && IsHold(t.to, custom)
    && (which == FromOutside ==> !IsHold(t.from, custom))
    && (which == FromHold ==> IsHold(t.from, custom))
  }

  /** The time between each transition and the next (the last lasting until `until`), summed over
      the measured ones. */
  function HoldTime(ts: seq<Transition>, until: int, which: Which, custom: seq<string>): int
    decreases |ts|
  {
    if ts == [] then 0
    else
      var last := ts[|ts| - 1];
      HoldTime(ts[..|ts| - 1], last.at, which, custom) + if Measured(last, which, custom) then until - last.at else 0
  }

  ghost predicate Ascending(ts: seq<Transition>) {
    forall i, j :: 0 <= i <= j < |ts| ==> ts[i].at <= ts[j].at
  }

  ghost predicate Chained(ts: seq<Transition>) {
    forall i :: 0 < i < |ts| ==> ts[i - 1].to == ts[i].from
  }

  function NextAt(ts: seq<Transition>, i: nat, until: int): int
    requires i < |ts|
  {
    if i + 1 < |ts| then ts[i + 1].at else until
  }

  /** Every measured interval has length zero. */
  ghost predicate OnlyEmptyStays(ts: seq<Transition>, until: int, which: Which, custom: seq<string>) {
    forall i :: 0 <= i < |ts| && Measured(ts[i], which, custom) ==> NextAt(ts, i, until) == ts[i].at
  }

  lemma OnlyEmptyStaysStep(ts: seq<Transition>, until: int, which: Which, custom: seq<string>)
    requires ts != []
    ensures var n := |ts| - 1;
            OnlyEmptyStays(ts, until, which, custom) <==>
              OnlyEmptyStays(ts[..n], ts[n].at, which, custom) && (Measured(ts[n], which, custom) ==> until == ts[n].at)
  {
    var n := |ts| - 1;
    forall i | 0 <= i < n ensures ts[..n][i] == ts[i] && NextAt(ts[..n], i, ts[n].at) == NextAt(ts, i, until) {
    }
    if OnlyEmptyStays(ts, until, which, custom) {
      forall i | 0 <= i < n && Measured(ts[..n][i], which, custom)
        ensures NextAt(ts[..n], i, ts[n].at) == ts[..n][i].at {
        assert Measured(ts[i], which, custom);
      }
    }
    if OnlyEmptyStays(ts[..n], ts[n].at, which, custom) && (Measured(ts[n], which, custom) ==> until == ts[n].at) {
      forall i | 0 <= i < |ts| && Measured(ts[i], which, custom) ensures NextAt(ts, i, until) == ts[i].at {
        assert i < n ==> Measured(ts[..n][i], which, custom);
      }
    }
  }

  /** An interval is open exactly after entering hold from outside, and started right there. */
  lemma {:induction false} RunningMeaning(ts: seq<Transition>, custom: seq<string>)
    requires Chained(ts) && ts != []
    ensures var r, last := RunOver(ts, custom), ts[|ts| - 1];
            && r.blockedStart == (if Measured(last, FromOutside, custom) then Some(last.at) else None)
            && r.total == HoldTime(ts[..|ts| - 1], last.at, FromOutside, custom)
    decreases |ts|
  {
    var init := ts[..|ts| - 1];
    if init == [] {
    } else {
      assert init[|init| - 1].to == ts[|ts| - 1].from;
      assert Chained(init) by { assert forall i :: 0 < i < |init| ==> ts[i - 1].to == ts[i].from; }
      RunningMeaning(init, custom);
    }
  }

  lemma {:induction false} HoldTimeSplits(ts: seq<Transition>, until: int, custom: seq<string>)
    ensures HoldTime(ts, until, AllHold, custom)
            == HoldTime(ts, until, FromOutside, custom) + HoldTime(ts, until, FromHold, custom)
    decreases |ts|
  {
    if ts == [] {
    } else {
      HoldTimeSplits(ts[..|ts| - 1], ts[|ts| - 1].at, custom);
    }
  }

  lemma {:induction false} HoldTimeNonNegative(ts: seq<Transition>, until: int, which: Which, custom: seq<string>)
    requires Ascending(ts) && (ts != [] ==> ts[|ts| - 1].at <= until)
    ensures HoldTime(ts, until, which, custom) >= 0
    ensures HoldTime(ts, until, which, custom) == 0 <==> OnlyEmptyStays(ts, until, which, custom)
    decreases |ts|
  {
    if ts == [] {
    } else {
      var n := |ts| - 1;
      assert n > 0 ==> ts[n - 1].at <= ts[n].at;
      HoldTimeNonNegative(ts[..n], ts[n].at, which, custom);
      OnlyEmptyStaysStep(ts, until, which, custom);
    }
  }

  /** For ascending, chained histories the sum is the time spent in hold less the time after
      changes from one hold status to another: never more, and equal exactly when every stay begun
      by such a change has length zero. */
  lemma HoldSumMeasures(histories: seq<History>, custom: seq<string>, until: int)
    requires var ts := Transitions(histories);
             Ascending(ts) && Chained(ts) && (ts != [] ==> ts[|ts| - 1].at <= until)
    ensures var ts, sum := Transitions(histories), HoldSum(histories, custom, until);
            && sum == HoldTime(ts, until, AllHold, custom) - HoldTime(ts, until, FromHold, custom)
            && 0 <= sum <= HoldTime(ts, until, AllHold, custom)
            && (sum == HoldTime(ts, until, AllHold, custom) <==> OnlyEmptyStays(ts, until, FromHold, custom))
  {
    var ts := Transitions(histories);
    HoldTimeSplits(ts, until, custom);
    HoldTimeNonNegative(ts, until, FromHold, custom);
    HoldTimeNonNegative(ts, until, FromOutside, custom);
    if ts != [] { RunningMeaning(ts, custom); }
  }

  function StatusChange(at: int, from: string, to: string): History {
    History(Some(at), [ChangeItem("status", from, to)])
  }

  /** An issue put on hold at `a`, moved on to "blocked" at `b` and taken up again at `c`: the sum stops
      at the change of hold status. */
  lemma {:induction false} HoldToHoldStops(a: int, b: int, c: int)
    requires a <= b <= c
    ensures var log := [StatusChange(a, "open", "hold"), StatusChange(b, "hold", "blocked"),
                        StatusChange(c, "blocked", "open")];
            && Ascending(Transitions(log)) && Chained(Transitions(log))
            && HoldTime(Transitions(log), c, AllHold, []) == c - a
            && HoldSum(log, [], c) == b - a
  {
    var log := [StatusChange(a, "open", "hold"), StatusChange(b, "hold", "blocked"),
                StatusChange(c, "blocked", "open")];
    var ts := [Transition(a, "open", "hold"), Transition(b, "hold", "blocked"), Transition(c, "blocked", "open")];
    ThreeChanges(log, ts);
    TimesOnHold(ts, a, b, c);
    HoldSumMeasures(log, [], c);
  }

  lemma {:induction false} TimesOnHold(ts: seq<Transition>, a: int, b: int, c: int)
    requires ts == [Transition(a, "open", "hold"), Transition(b, "hold", "blocked"), Transition(c, "blocked", "open")]
    ensures HoldTime(ts, c, AllHold, []) == c - a && HoldTime(ts, c, FromHold, []) == c - b
  {
    HoldWords();
    assert ts[..2][..1] == ts[..1] && ts[..1][..0] == [];
    assert HoldTime(ts[..1], b, AllHold, []) == b - a && HoldTime(ts[..1], b, FromHold, []) == 0;
    assert HoldTime(ts[..2], c, AllHold, []) == c - a && HoldTime(ts[..2], c, FromHold, []) == c - b;
  }

  lemma {:induction false} HoldWords()
    ensures IsHold("hold", []) && IsHold("blocked", []) && !IsHold("open", [])
  {
    assert ToLower("hold") == "hold" && ToLower("blocked") == "blocked" && ToLower("open") == "open";
    assert ["hold", "on hold", "blocked", "suspended"][0] == "hold";
    assert ["hold", "on hold", "blocked", "suspended"][2] == "blocked";
  }

  lemma {:induction false} OneMoreChange(before: seq<History>, at: int, from: string, to: string)
    ensures Transitions(before + [StatusChange(at, from, to)]) == Transitions(before) + [Transition(at, from, to)]
  {
    var change := StatusChange(at, from, to);
    assert (before + [change])[..|before|] == before;
    assert change.items[..0] == [];
    assert TransitionsOf(change.created, change.items) == [Transition(at, from, to)];
  }

  lemma {:induction false} ThreeChanges(log: seq<History>, ts: seq<Transition>)
    requires |log| == |ts| == 3
    requires forall i :: 0 <= i < 3 ==> log[i] == StatusChange(ts[i].at, ts[i].from, ts[i].to)
    ensures Transitions(log) == ts
  {
    assert log == [] + [log[0]] + [log[1]] + [log[2]];
    OneMoreChange([], ts[0].at, ts[0].from, ts[0].to);
    OneMoreChange([] + [log[0]], ts[1].at, ts[1].from, ts[1].to);
    OneMoreChange([] + [log[0]] + [log[1]], ts[2].at, ts[2].from, ts[2].to);
  }

  /** Ascending histories alone keep the sum non-negative. */
  lemma {:induction false} HoldSumNonNegative(ts: seq<Transition>, custom: seq<string>, until: int)
    requires Ascending(ts)
    ensures ClosedAt(RunOver(ts, custom), until) >= 0
    ensures var r := RunOver(ts, custom);
            && r.total >= 0
            && (r.blockedStart.Some? ==> ts != [] && r.blockedStart.value <= ts[|ts| - 1].at)
    decreases |ts|
  {
    if ts == [] {
    } else {
      var n := |ts| - 1;
      assert n > 0 ==> ts[n - 1].at <= ts[n].at;
      HoldSumNonNegative(ts[..n], custom, until);
    }
  }

  // ---------------------------------------------------------------- the other order

  function Reversed(ts: seq<Transition>): seq<Transition> {
    if ts == [] then [] else Reversed(ts[1..]) + [ts[0]]
  }

  predicate Enters(t: Transition, custom: seq<string>) {
    IsHold(t.to, custom) && !IsHold(t.from, custom)
  }

  predicate Leaves(t: Transition, custom: seq<string>) {
    IsHold(t.from, custom) && !IsHold(t.to, custom)
  }

  ghost predicate NoDirectChange(ts: seq<Transition>, custom: seq<string>) {
    forall i :: 0 <= i < |ts| ==> !(IsHold(ts[i].from, custom) && IsHold(ts[i].to, custom))
  }

  predicate StartsInHold(ts: seq<Transition>, custom: seq<string>) {
    ts != [] && IsHold(ts[0].from, custom)
  }

  predicate EndsInHold(ts: seq<Transition>, custom: seq<string>) {
    ts != [] && IsHold(ts[|ts| - 1].to, custom)
  }

  function FirstEntry(ts: seq<Transition>, custom: seq<string>): Option<int> {
    if ts == [] then None
    else if Enters(ts[0], custom) then Some(ts[0].at)
    else FirstEntry(ts[1..], custom)
  }

  function LastDeparture(ts: seq<Transition>, custom: seq<string>): Option<int> {
    if ts == [] then None
    else
      var later := LastDeparture(ts[1..], custom);
      if later.Some? then later else if Leaves(ts[0], custom) then Some(ts[0].at) else None
  }

  /** The time between the stays: from each departure to the next entry, if there is one. */
  function Between(ts: seq<Transition>, custom: seq<string>): int {
    if ts == [] then 0
    else
      var entry := FirstEntry(ts[1..], custom);
      Between(ts[1..], custom) + if Leaves(ts[0], custom) && entry.Some? then entry.value - ts[0].at else 0
  }

  /** The time since the last departure, for an issue that ends outside hold. */
  function Afterwards(ts: seq<Transition>, until: int, custom: seq<string>): int {
    var left := LastDeparture(ts, custom);
    if !EndsInHold(ts, custom) && left.Some? then until - left.value else 0
  }

  ghost predicate Regular(ts: seq<Transition>, custom: seq<string>) {
    Ascending(ts) && Chained(ts) && NoDirectChange(ts, custom)
  }

  lemma RegularTail(ts: seq<Transition>, custom: seq<string>)
    requires ts != [] && Regular(ts, custom)
    ensures Regular(ts[1..], custom)
    ensures ts[1..] != [] ==> ts[1].from == ts[0].to && ts[0].at <= ts[1].at
  {
    var tail := ts[1..];
    assert forall i :: 0 <= i < |tail| ==> tail[i] == ts[i + 1];
    assert Chained(tail) by {
      forall i | 0 < i < |tail| ensures tail[i - 1].to == tail[i].from {
        assert ts[i].to == ts[i + 1].from;
      }
    }
  }

  /** The running sum over the reversed history: every later entry is paired with the departure
      before it, the wrong way round. */
  lemma {:induction false} ReversedRun(ts: seq<Transition>, custom: seq<string>)
    requires Regular(ts, custom)
    ensures RunOver(Reversed(ts), custom)
         == Running(if StartsInHold(ts, custom) then None else FirstEntry(ts, custom), -Between(ts, custom))
  {
    if ts == [] {
    } else {
      RegularTail(ts, custom);
      ReversedRun(ts[1..], custom);
      var r := Reversed(ts);
      assert r[..|r| - 1] == Reversed(ts[1..]) && r[|r| - 1] == ts[0];
      assert !(IsHold(ts[0].from, custom) && IsHold(ts[0].to, custom));
    }
  }

  lemma {:induction false} HoldTimeFront(ts: seq<Transition>, until: int, which: Which, custom: seq<string>)
    requires ts != []
    ensures HoldTime(ts, until, which, custom)
         == HoldTime(ts[1..], until, which, custom)
            + if Measured(ts[0], which, custom) then NextAt(ts, 0, until) - ts[0].at else 0
    decreases |ts|
  {
    var n := |ts| - 1;
    if n == 0 {
      assert ts[..0] == [];
    } else {
      HoldTimeFront(ts[..n], ts[n].at, which, custom);
      assert ts[1..][..n - 1] == ts[..n][1..];
    }
  }

  /** An issue that started outside hold, entered it and ends outside has left it; one that
      never entered it ends outside. */
  lemma {:induction false} EntryThenDeparture(ts: seq<Transition>, custom: seq<string>)
    requires ts != [] && Regular(ts, custom)
    ensures (StartsInHold(ts, custom) || FirstEntry(ts, custom).Some?) && !EndsInHold(ts, custom) ==>
              LastDeparture(ts, custom).Some?
    ensures !StartsInHold(ts, custom) && FirstEntry(ts, custom).None? ==>
              !EndsInHold(ts, custom) && LastDeparture(ts, custom).None?
    decreases |ts|
  {
    assert !(IsHold(ts[0].from, custom) && IsHold(ts[0].to, custom));
    if |ts| == 1 {
      assert ts[1..] == [] && ts[|ts| - 1] == ts[0];
      assert FirstEntry(ts[1..], custom).None? && LastDeparture(ts[1..], custom).None?;
      assert !Enters(ts[0], custom) ==> FirstEntry(ts, custom).None?;
    } else {
      RegularTail(ts, custom);
      EntryThenDeparture(ts[1..], custom);
      assert ts[1..][|ts| - 2] == ts[|ts| - 1];
    }
  }

  /** From the first departure or entry on, all time is in hold, between stays, or afterwards. */
  lemma {:induction false} TimeAddsUp(ts: seq<Transition>, until: int, custom: seq<string>)
    requires ts != [] && Regular(ts, custom)
    ensures var whole := HoldTime(ts, until, AllHold, custom) + Between(ts, custom) + Afterwards(ts, until, custom);
            if StartsInHold(ts, custom) then whole == until - ts[0].at
            else if FirstEntry(ts, custom).Some? then whole == until - FirstEntry(ts, custom).value
            else && HoldTime(ts, until, AllHold, custom) == 0
                 && Between(ts, custom) == 0 && LastDeparture(ts, custom).None?
    decreases |ts|
  {
    HoldTimeFront(ts, until, AllHold, custom);
    assert !(IsHold(ts[0].from, custom) && IsHold(ts[0].to, custom));
    if |ts| == 1 {
      assert ts[1..] == [] && NextAt(ts, 0, until) == until;
      assert FirstEntry(ts[1..], custom).None? && LastDeparture(ts[1..], custom).None? && Between(ts[1..], custom) == 0;
      assert HoldTime(ts[1..], until, AllHold, custom) == 0;
    } else {
      RegularTail(ts, custom);
      TimeAddsUp(ts[1..], until, custom);
      EntryThenDeparture(ts[1..], custom);
      assert ts[1..][|ts| - 2] == ts[|ts| - 1];
    }
  }

  lemma {:induction false} BetweenNonNegative(ts: seq<Transition>, custom: seq<string>)
    requires Ascending(ts)
    ensures Between(ts, custom) >= 0
    ensures ts != [] && FirstEntry(ts, custom).Some? ==> FirstEntry(ts, custom).value >= ts[0].at
    ensures FirstEntry(ts, custom).Some? ==> FirstEntry(ts, custom).value <= ts[|ts| - 1].at
  {
    if ts == [] {
    } else {
      assert forall i :: 0 <= i < |ts| - 1 ==> ts[1..][i] == ts[i + 1];
      BetweenNonNegative(ts[1..], custom);
    }
  }

  lemma {:induction false} NothingMeasured(ts: seq<Transition>, until: int, custom: seq<string>)
    requires NoDirectChange(ts, custom)
    ensures HoldTime(ts, until, FromHold, custom) == 0
    decreases |ts|
  {
    if ts == [] {
    } else {
      NothingMeasured(ts[..|ts| - 1], ts[|ts| - 1].at, custom);
      assert !(IsHold(ts[|ts| - 1].from, custom) && IsHold(ts[|ts| - 1].to, custom));
    }
  }

  lemma OldestFirstSum(ts: seq<Transition>, until: int, custom: seq<string>)
    requires Regular(ts, custom) && (ts != [] ==> ts[|ts| - 1].at <= until)
    ensures ClosedAt(RunOver(ts, custom), until) == HoldTime(ts, until, AllHold, custom) >= 0
  {
    HoldTimeSplits(ts, until, custom);
    NothingMeasured(ts, until, custom);
    HoldTimeNonNegative(ts, until, AllHold, custom);
    if ts != [] { RunningMeaning(ts, custom); }
  }

  /** What the loop makes of a history delivered newest first, when no change goes from hold to hold:
      minus the time between the stays if the issue started in hold or never entered it; otherwise the
      measured time, plus the time since the last departure if the issue ends outside hold. */
  lemma NewestFirstSum(ts: seq<Transition>, until: int, custom: seq<string>)
    requires Regular(ts, custom) && (ts != [] ==> ts[|ts| - 1].at <= until)
    ensures ClosedAt(RunOver(Reversed(ts), custom), until) ==
            if StartsInHold(ts, custom) || FirstEntry(ts, custom).None? then -Between(ts, custom)
            else HoldTime(ts, until, AllHold, custom) + Afterwards(ts, until, custom)
  {
    ReversedRun(ts, custom);
    BetweenNonNegative(ts, custom);
    if ts != [] { TimeAddsUp(ts, until, custom); }
  }

  function ReversedHistories(histories: seq<History>): seq<History> {
    if histories == [] then [] else ReversedHistories(histories[1..]) + [histories[0]]
  }

  /** No history entry changes the status twice. */
  ghost predicate OneChangeEach(histories: seq<History>) {
    forall i :: 0 <= i < |histories| ==> |TransitionsOf(histories[i].created, histories[i].items)| <= 1
  }

  lemma Regroup(a: seq<Transition>, b: seq<Transition>, c: seq<Transition>)
    ensures (a + b) + c == a + (b + c)
  {
  }

  lemma ReversedCons(own: seq<Transition>, rest: seq<Transition>)
    requires |own| <= 1
    ensures Reversed(own + rest) == Reversed(rest) + own
  {
    if own == [] {
      assert own + rest == rest && Reversed(rest) + own == Reversed(rest);
    } else {
      assert (own + rest)[1..] == rest && own == [own[0]];
    }
  }

  lemma {:induction false} TransitionsFront(histories: seq<History>)
    requires histories != []
    ensures Transitions(histories)
         == TransitionsOf(histories[0].created, histories[0].items) + Transitions(histories[1..])
    decreases |histories|
  {
    var n := |histories| - 1;
    if n == 0 {
      OnlyHistory(histories);
    } else {
      TransitionsFront(histories[..n]);
      FrontSlices(histories);
      Regroup(TransitionsOf(histories[0].created, histories[0].items), Transitions(histories[1..][..n - 1]),
              TransitionsOf(histories[n].created, histories[n].items));
    }
  }

  lemma {:induction false} OnlyHistory(histories: seq<History>)
    requires |histories| == 1
    ensures Transitions(histories) == TransitionsOf(histories[0].created, histories[0].items)
    ensures Transitions(histories[1..]) == []
  {
    assert histories[1..] == [] && histories[..0] == [];
  }

  lemma {:induction false} FrontSlices(histories: seq<History>)
    requires |histories| > 1
    ensures var n, rest := |histories| - 1, histories[1..];
            rest[..|rest| - 1] == histories[..n][1..] && rest[|rest| - 1] == histories[n]
  {
  }

  lemma {:induction false} ReversedDelivery(histories: seq<History>)
    requires OneChangeEach(histories)
    ensures Transitions(ReversedHistories(histories)) == Reversed(Transitions(histories))
  {
    if histories == [] {
    } else {
      var first, rest := histories[0], histories[1..];
      ReversedDelivery(rest);
      TransitionsFront(histories);
      var r := ReversedHistories(histories);
      assert r[..|r| - 1] == ReversedHistories(rest) && r[|r| - 1] == first;
      ReversedCons(TransitionsOf(first.created, first.items), Transitions(rest));
    }
  }

  /** The same for whole changelogs, as `sumHoldHours` gets them. */
  lemma {:induction false} NewestFirstHoldSum(histories: seq<History>, custom: seq<string>, until: int)
    requires OneChangeEach(histories)
    requires var ts := Transitions(histories); Regular(ts, custom) && (ts != [] ==> ts[|ts| - 1].at <= until)
    ensures var ts := Transitions(histories);
            HoldSum(ReversedHistories(histories), custom, until) ==
            if StartsInHold(ts, custom) || FirstEntry(ts, custom).None? then -Between(ts, custom)
            else HoldTime(ts, until, AllHold, custom) + Afterwards(ts, until, custom)
  {
    ReversedDelivery(histories);
    NewestFirstSum(Transitions(histories), until, custom);
  }

  /** So the order does no harm exactly when the issue started in hold and spent no time in it and none
      between its stays, or started outside and never entered it, or ends in hold, or is measured at
      the moment of its last departure. */
  lemma OrderIsHarmlessIff(ts: seq<Transition>, until: int, custom: seq<string>)
    requires Regular(ts, custom) && (ts != [] ==> ts[|ts| - 1].at <= until)
    ensures ClosedAt(RunOver(Reversed(ts), custom), until) == ClosedAt(RunOver(ts, custom), until) <==>
            if StartsInHold(ts, custom)
            then OnlyEmptyStays(ts, until, AllHold, custom) && Between(ts, custom) == 0
            else FirstEntry(ts, custom).None? || EndsInHold(ts, custom) || LastDeparture(ts, custom) == Some(until)
  {
    NewestFirstSum(ts, until, custom);
    OldestFirstSum(ts, until, custom);
    BetweenNonNegative(ts, custom);
    HoldTimeNonNegative(ts, until, AllHold, custom);
    if ts != [] {
      TimeAddsUp(ts, until, custom);
      EntryThenDeparture(ts, custom);
    }
  }

  /** An issue that leaves hold at 2, returns at 3 and leaves at 4: one second of hold is measured oldest
      first, and minus one newest first. */
  lemma NewestFirstGoesNegative()
    ensures var ts := [Transition(2, "hold", "open"), Transition(3, "open", "hold"), Transition(4, "hold", "open")];
            ClosedAt(RunOver(ts, []), 4) == 1 && ClosedAt(RunOver(Reversed(ts), []), 4) == -1
  {
    var ts := [Transition(2, "hold", "open"), Transition(3, "open", "hold"), Transition(4, "hold", "open")];
    assert ToLower("hold") == "hold" && ToLower("open") == "open";
    assert ["hold", "on hold", "blocked", "suspended"][0] == "hold";
    assert Regular(ts, []);
    NewestFirstSum(ts, 4, []);
    OldestFirstSum(ts, 4, []);
    TimeAddsUp(ts, 4, []);
    assert ts[1..][0] == ts[1] && ts[1..][1..] == ts[2..] && ts[2..][0] == ts[2] && ts[2..][1..] == [];
    assert FirstEntry(ts[1..], []) == Some(3) && Between(ts[2..], []) == 0 && Between(ts[1..], []) == 0;
    assert Between(ts, []) == 1;
    assert LastDeparture(ts[2..], []) == Some(4) && LastDeparture(ts[1..], []) == Some(4);
    assert LastDeparture(ts, []) == Some(4) && Afterwards(ts, 4, []) == 0;
  }

  // ---------------------------------------------------------------- flow efficiency

  /** A completed issue: when it was done, and its changelog if there is one. */
  datatype DoneIssue = DoneIssue(doneTime: int, changelog: Option<seq<History>>)

  function Changes(issue: DoneIssue): seq<Transition> {
    if issue.changelog.Some? then Transitions(issue.changelog.value) else []
  }

  predicate EntersProgress(t: Transition) {
    IsInProgressStatus(ToLower(t.to))
  }

  function FirstInProgress(ts: seq<Transition>): Option<int>
    decreases |ts|
  {
    if ts == [] then None
    else
      var before, last := FirstInProgress(ts[..|ts| - 1]), ts[|ts| - 1];
      if EntersProgress(last) && (before.None? || last.at < before.value) then Some(last.at) else before
  }

  /** It is the earliest transition into an in-progress status, in whatever order they come. */
  lemma {:induction false} FirstInProgressIsEarliest(ts: seq<Transition>)
    ensures FirstInProgress(ts).None? <==> forall i :: 0 <= i < |ts| ==> !EntersProgress(ts[i])
    ensures FirstInProgress(ts).Some? ==>
              && (exists i :: 0 <= i < |ts| && EntersProgress(ts[i]) && ts[i].at == FirstInProgress(ts).value)
              && forall i :: 0 <= i < |ts| && EntersProgress(ts[i]) ==> FirstInProgress(ts).value <= ts[i].at
    decreases |ts|
  {
    if ts == [] {
    } else {
      var n := |ts| - 1;
      FirstInProgressIsEarliest(ts[..n]);
      assert forall i :: 0 <= i < n ==> ts[..n][i] == ts[i];
    }
  }

  predicate Counted(issue: DoneIssue) {
    var started := FirstInProgress(Changes(issue));
    started.Some? && issue.doneTime > started.value
  }

  function CycleTime(issue: DoneIssue): int {
    if Counted(issue) then issue.doneTime - FirstInProgress(Changes(issue)).value else 0
  }

  function BlockedTime(issue: DoneIssue, custom: seq<string>): int {
    if !Counted(issue) || issue.changelog.None? then 0
    else
      var blocked := HoldSum(issue.changelog.value, custom, issue.doneTime);
      if blocked > CycleTime(issue) then CycleTime(issue) else blocked
  }

  predicate SomeCounted(issues: seq<DoneIssue>) {
    exists i :: 0 <= i < |issues| && Counted(issues[i])
  }

  ghost predicate HistoriesAscend(issues: seq<DoneIssue>) {
    forall i :: 0 <= i < |issues| ==> Ascending(Changes(issues[i]))
  }

  function CycleSum(issues: seq<DoneIssue>): (sum: int)
    ensures sum >= 0
    decreases |issues|
  {
    if issues == [] then 0 else CycleSum(issues[..|issues| - 1]) + CycleTime(issues[|issues| - 1])
  }

  lemma SomeCountedSnoc(issues: seq<DoneIssue>, issue: DoneIssue)
    ensures SomeCounted(issues + [issue]) <==> SomeCounted(issues) || Counted(issue)
  {
    var all := issues + [issue];
    assert all[|issues|] == issue;
    assert forall i :: 0 <= i < |issues| ==> all[i] == issues[i];
  }

  lemma {:induction false} CycleSumPositive(issues: seq<DoneIssue>)
    ensures CycleSum(issues) > 0 <==> SomeCounted(issues)
    decreases |issues|
  {
    if issues == [] {
    } else {
      var n := |issues| - 1;
      CycleSumPositive(issues[..n]);
      SomeCountedSnoc(issues[..n], issues[n]);
      assert issues == issues[..n] + [issues[n]];
      assert CycleTime(issues[n]) > 0 <==> Counted(issues[n]);
    }
  }

  function BlockedSum(issues: seq<DoneIssue>, custom: seq<string>): int
    decreases |issues|
  {
    if issues == [] then 0 else BlockedSum(issues[..|issues| - 1], custom) + BlockedTime(issues[|issues| - 1], custom)
  }

  function Rounded(x: real): int { (x + 0.5).Floor }

  method CycleSums(issues: seq<DoneIssue>, custom: seq<string>) returns (cycleSum: int, blockedSum: int)
    ensures cycleSum == CycleSum(issues) && blockedSum == BlockedSum(issues, custom)
  {
    cycleSum, blockedSum := 0, 0;
    for i := 0 to |issues|
      invariant cycleSum == CycleSum(issues[..i]) && blockedSum == BlockedSum(issues[..i], custom)
    {
      assert issues[..i + 1][..i] == issues[..i];
      var cycle, blocked := IssueTimes(issues[i], custom);
      cycleSum, blockedSum := cycleSum + cycle, blockedSum + blocked;
    }
    assert issues[..|issues|] == issues;
  }

  method IssueTimes(issue: DoneIssue, custom: seq<string>) returns (cycle: int, blocked: int)
    ensures cycle == CycleTime(issue) && blocked == BlockedTime(issue, custom)
  {
    cycle, blocked := 0, 0;
    var started := FirstInProgress(Changes(issue));
    if started.Some? && issue.doneTime > started.value {
      cycle := issue.doneTime - started.value;
      if issue.changelog.Some? {
        blocked := SumHold(issue.changelog.value, custom, issue.doneTime);
        if blocked > cycle {
          blocked := cycle;
        }
      }
    }
  }

  /** The share of cycle time not spent in hold. */
  function Share(cycle: int, blocked: int): real
    requires cycle > 0
  {
    (cycle - blocked) as real / cycle as real
  }

  lemma ShareIsNonNegative(cycle: int, blocked: int)
    requires cycle > 0 && blocked <= cycle
    ensures 0.0 <= Share(cycle, blocked)
  {
    assert Share(cycle, blocked) * cycle as real == (cycle - blocked) as real;
  }

  lemma ShareInRange(cycle: int, blocked: int)
    requires cycle > 0 && 0 <= blocked <= cycle
    ensures 0.0 <= Share(cycle, blocked) <= 1.0
  {
    assert Share(cycle, blocked) * cycle as real == (cycle - blocked) as real;
  }

  /** Blocked time is capped by cycle time, and ascending histories keep it from going negative. */
  lemma {:induction false} BlockedWithinCycle(issues: seq<DoneIssue>, custom: seq<string>)
    ensures BlockedSum(issues, custom) <= CycleSum(issues)
    ensures HistoriesAscend(issues) ==> 0 <= BlockedSum(issues, custom)
    decreases |issues|
  {
    if issues == [] {
    } else {
      var n := |issues| - 1;
      BlockedWithinCycle(issues[..n], custom);
      if HistoriesAscend(issues) && issues[n].changelog.Some? {
        HoldSumNonNegative(Changes(issues[n]), custom, issues[n].doneTime);
      }
    }
  }

  // ---------------------------------------------------------------- what the percentage is of

  /** The issue's earliest move into an in-progress status was at `t`. */
  ghost predicate StartedAt(issue: DoneIssue, t: int) {
    && (exists i :: 0 <= i < |Changes(issue)| && EntersProgress(Changes(issue)[i]) && Changes(issue)[i].at == t)
    && forall i :: 0 <= i < |Changes(issue)| && EntersProgress(Changes(issue)[i]) ==> t <= Changes(issue)[i].at
  }

  ghost predicate WellRecorded(issue: DoneIssue) {
    var ts := Changes(issue);
    Ascending(ts) && Chained(ts) && (ts != [] ==> ts[|ts| - 1].at <= issue.doneTime)
  }

  /** The issue took `cycle` from its start until it was done, `blocked` of that on hold: for a well-recorded
      history the time on hold after entering it from outside, capped at the cycle time. An issue that was
      never started, or not before it was done, counts nothing. */
  ghost predicate Timed(issue: DoneIssue, custom: seq<string>, cycle: int, blocked: int) {
    if exists t :: StartedAt(issue, t) && t < issue.doneTime
    then
      && StartedAt(issue, issue.doneTime - cycle) && cycle > 0 && blocked <= cycle
      && (WellRecorded(issue) ==>
            var held := HoldTime(Changes(issue), issue.doneTime, FromOutside, custom);
            blocked == if held > cycle then cycle else held)
    else cycle == 0 && blocked == 0
  }

  ghost predicate AllTimed(issues: seq<DoneIssue>, custom: seq<string>, cycles: seq<int>, blocked: seq<int>) {
    && |cycles| == |blocked| == |issues|
    && forall i :: 0 <= i < |issues| ==> Timed(issues[i], custom, cycles[i], blocked[i])
  }

  function Total(xs: seq<int>): int
    decreases |xs|
  {
    if xs == [] then 0 else Total(xs[..|xs| - 1]) + xs[|xs| - 1]
  }

  /** The percentage of `cycle` that is not `blocked`, rounded half up. */
  predicate IsPercent(percent: int, cycle: int, blocked: int) {
    2 * cycle * percent <= 200 * (cycle - blocked) + cycle < 2 * cycle * (percent + 1)
  }

  lemma {:induction false} StartIs(issue: DoneIssue)
    ensures forall t :: StartedAt(issue, t) <==> FirstInProgress(Changes(issue)) == Some(t)
  {
    FirstInProgressIsEarliest(Changes(issue));
  }

  lemma {:induction false} TimesAreTimed(issue: DoneIssue, custom: seq<string>)
    ensures Timed(issue, custom, CycleTime(issue), BlockedTime(issue, custom))
  {
    StartIs(issue);
    if Counted(issue) {
      assert StartedAt(issue, FirstInProgress(Changes(issue)).value);
      if WellRecorded(issue) {
        HoldSumMeasures(issue.changelog.value, custom, issue.doneTime);
        HoldTimeSplits(Changes(issue), issue.doneTime, custom);
      }
    }
  }

  lemma {:induction false} TotalNext(xs: seq<int>, x: int)
    ensures Total(xs + [x]) == Total(xs) + x
  {
    assert (xs + [x])[..|xs|] == xs;
  }

  lemma {:induction false} AllTimedNext(issues: seq<DoneIssue>, custom: seq<string>, cycles: seq<int>,
                                        blocked: seq<int>, cycle: int, hold: int)
    requires issues != [] && AllTimed(issues[..|issues| - 1], custom, cycles, blocked)
    requires Timed(issues[|issues| - 1], custom, cycle, hold)
    ensures AllTimed(issues, custom, cycles + [cycle], blocked + [hold])
  {
    var n := |issues| - 1;
    forall i | 0 <= i < |issues|
      ensures Timed(issues[i], custom, (cycles + [cycle])[i], (blocked + [hold])[i]) == true {
      if i < n { assert Timed(issues[..n][i], custom, cycles[i], blocked[i]); }
    }
  }

  lemma {:induction false} SumsAreTotals(issues: seq<DoneIssue>, custom: seq<string>)
    returns (cycles: seq<int>, blocked: seq<int>)
    ensures AllTimed(issues, custom, cycles, blocked) == true
    ensures Total(cycles) == CycleSum(issues) && Total(blocked) == BlockedSum(issues, custom)
    decreases |issues|
  {
    if issues == [] {
      cycles, blocked := [], [];
    } else {
      var n := |issues| - 1;
      var cs, bs := SumsAreTotals(issues[..n], custom);
      var cycle, hold := CycleTime(issues[n]), BlockedTime(issues[n], custom);
      TimesAreTimed(issues[n], custom);
      AllTimedNext(issues, custom, cs, bs, cycle, hold);
      TotalNext(cs, cycle);
      TotalNext(bs, hold);
      cycles, blocked := cs + [cycle], bs + [hold];
    }
  }

  lemma {:induction false} Scaled(c: real, x: real, y: real, u: real, v: real)
    requires c > 0.0 && u == c * x && v == c * y
    ensures x <= y ==> u <= v
    ensures x < y ==> u < v
  {
  }

  lemma {:induction false} Distributed(c: real, share: real)
    ensures c * (share * 100.0 + 0.5) == (c * share) * 100.0 + c * 0.5
  {
  }

  lemma {:induction false} AsReals(a: int, b: int)
    ensures (a * b) as real == a as real * b as real
  {
  }

  lemma {:induction false} RoundedIsPercent(cycle: int, blocked: int)
    requires cycle > 0
    ensures IsPercent(Rounded(Share(cycle, blocked) * 100.0), cycle, blocked)
  {
    var share := Share(cycle, blocked);
    ShareTimes(cycle, blocked);
    PercentOf(cycle, blocked, share, Rounded(share * 100.0));
  }

  lemma {:induction false} PercentOf(cycle: int, blocked: int, share: real, p: int)
    requires cycle > 0 && (2 * cycle) as real * share == (2 * (cycle - blocked)) as real
    requires p as real <= share * 100.0 + 0.5 < p as real + 1.0
    ensures IsPercent(p, cycle, blocked)
  {
    var c := 2 * cycle;
    MiddleOf(cycle, blocked, share);
    Bracketed(c, share * 100.0 + 0.5, p, 200 * (cycle - blocked) + cycle);
  }

  lemma {:induction false} Bracketed(c: int, x: real, p: int, middle: int)
    requires c > 0 && c as real * x == middle as real && p as real <= x < p as real + 1.0
    ensures c * p <= middle < c * (p + 1)
  {
    var lo, hi := (c * p) as real, (c * (p + 1)) as real;
    AsReals(c, p);
    AsReals(c, p + 1);
    Scaled(c as real, p as real, x, lo, middle as real);
    Scaled(c as real, x, (p + 1) as real, middle as real, hi);
    InOrder(c * p, middle, c * (p + 1), lo, middle as real, hi);
  }

  lemma {:induction false} InOrder(a: int, b: int, d: int, x: real, y: real, z: real)
    requires x == a as real && y == b as real && z == d as real && x <= y < z
    ensures a <= b < d
  {
  }

  lemma {:induction false} MiddleOf(cycle: int, blocked: int, share: real)
    requires (2 * cycle) as real * share == (2 * (cycle - blocked)) as real
    ensures (2 * cycle) as real * (share * 100.0 + 0.5) == (200 * (cycle - blocked) + cycle) as real
  {
    Distributed((2 * cycle) as real, share);
  }

  lemma {:induction false} ShareTimes(cycle: int, blocked: int)
    requires cycle > 0
    ensures (2 * cycle) as real * Share(cycle, blocked) == (2 * (cycle - blocked)) as real
  {
    assert cycle as real * Share(cycle, blocked) == (cycle - blocked) as real;
  }

  /** The percentage of a positive cycle time that was not blocked. */
  method Percentage(cycleSum: int, blockedSum: int) returns (percent: int)
    requires cycleSum > 0 && blockedSum <= cycleSum
    ensures IsPercent(percent, cycleSum, blockedSum)
    ensures 0 <= percent && (0 <= blockedSum ==> percent <= 100)
  {
    RoundedIsPercent(cycleSum, blockedSum);
    ShareIsNonNegative(cycleSum, blockedSum);
    if blockedSum >= 0 { ShareInRange(cycleSum, blockedSum); }
    var eff := Share(cycleSum, blockedSum) * 100.0;
    if eff < 0.0 {
      eff := 0.0;
    }
    percent := Rounded(eff);
  }

  /** The number is -1 with no cycle time at all, and otherwise the percentage of it that was not blocked. */
  ghost predicate Measures(issues: seq<DoneIssue>, custom: seq<string>, percent: int) {
    exists cycles, blocked :: AllTimed(issues, custom, cycles, blocked)
                              && if percent == -1 then Total(cycles) == 0
                                 else IsPercent(percent, Total(cycles), Total(blocked))
  }

  /** The flow efficiency in percent, or -1 exactly when no issue has a cycle time. It is never
      negative otherwise, and ascending histories keep it at most 100. */
  method FlowEfficiency(issues: seq<DoneIssue>, custom: seq<string>) returns (percent: int)
    ensures percent == -1 <==> !SomeCounted(issues)
    ensures percent == -1 || 0 <= percent
    ensures HistoriesAscend(issues) ==> percent <= 100
    ensures Measures(issues, custom, percent)
  {
    var cycleSum, blockedSum := CycleSums(issues, custom);
    CycleSumPositive(issues);
    BlockedWithinCycle(issues, custom);
    ghost var cycles, blocked := SumsAreTotals(issues, custom);
    percent := -1;
    if cycleSum > 0 {
      percent := Percentage(cycleSum, blockedSum);
    }
    assert Total(cycles) == cycleSum && Total(blocked) == blockedSum;
  }
}
