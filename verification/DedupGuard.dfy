/**
  The in-process duplicate guard of internal/notifydedup/dedup.go: a map from "chat:issue" keys to
  expiry times, with a background loop that drops expired entries.

  Strings are sequences of bytes-as-characters; times are integers of one monotone clock.
*/
module DedupGuard {

  const MIN_INT64 := -0x8000_0000_0000_0000
  const MAX_INT64 := 0x7fff_ffff_ffff_ffff

  type int64 = n: int | MIN_INT64 <= n <= MAX_INT64

  // ---------------------------------------------------------------- keys

  function Digit(d: nat): char
    requires d < 10
  {
    '0' + d as char
  }

  function Decimal(n: nat): string {
    if n < 10 then [Digit(n)] else Decimal(n / 10) + [Digit(n % 10)]
  }

  /** Two's complement negation: the smallest value is its own negative. */
  function Negate(n: int64): int64 {
    if n == MIN_INT64 then n else -n
  }

  /** What `appendInt64` appends. */
  function Rendered(n: int64): string {
    if n == 0 then "0"
    else if n > 0 then Decimal(n)
    else if Negate(n) > 0 then "-" + Decimal(Negate(n))
    else "-"
  }

  function FormatKey(chatId: int64, issueKey: string): string {
    Rendered(chatId) + ":" + issueKey
  }

  function Pow10(e: nat): nat {
    if e == 0 then 1 else 10 * Pow10(e - 1)
  }

  lemma NineteenDigits()
    ensures MAX_INT64 < Pow10(19)
  {
    assert Pow10(9) == 1_000_000_000;
    assert Pow10(19) == 10 * Pow10(18) && Pow10(18) == 1_000_000_000 * Pow10(9);
  }

  /** The digits still to be written, then the ones already in the buffer, are the number. */
  predicate Filled(tmp: seq<char>, i: nat, rest: nat, n: nat) {
    && 0 <= i <= |tmp|
    && (if rest > 0 then Decimal(rest) else []) + tmp[i..] == (if n > 0 then Decimal(n) else [])
  }

  lemma OneMoreDigit(tmp: seq<char>, i: nat, rest: nat, n: nat)
    requires i < |tmp| && rest > 0 && Filled(tmp, i + 1, rest, n) && rest < Pow10(i)
    ensures Filled(tmp[i := Digit(rest % 10)], i, rest / 10, n)
    ensures rest / 10 > 0 ==> i > 0 && rest / 10 < Pow10(i - 1)
  {
    assert tmp[i := Digit(rest % 10)][i..] == [Digit(rest % 10)] + tmp[i + 1..];
    LastDigit(rest);
    Regroup(if rest / 10 > 0 then Decimal(rest / 10) else [], [Digit(rest % 10)], tmp[i + 1..]);
    if rest / 10 > 0 { RoomLeft(i, rest); }
  }

  lemma LastDigit(rest: nat)
    requires rest > 0
    ensures Decimal(rest) == (if rest / 10 > 0 then Decimal(rest / 10) else []) + [Digit(rest % 10)]
  {
  }

  lemma Regroup(a: string, b: string, c: string)
    ensures (a + b) + c == a + (b + c)
  {
  }

  lemma RoomLeft(i: nat, rest: nat)
    requires rest < Pow10(i) && rest / 10 > 0
    ensures i > 0 && rest / 10 < Pow10(i - 1)
  {
  }

  method AppendInt64(buf: string, n: int64) returns (r: string)
    ensures r == buf + Rendered(n)
  {
    r := buf;
    var rest: int64 := n;
    if n < 0 {
      r := r + "-";
      rest := Negate(n);
    }
    if rest == 0 {
      return r + "0";
    }
    var digits := Digits(rest);
    r := r + digits;
  }

  /** The digits, written from the end of a 20-byte buffer; none for the smallest value, which is still
      negative after negation. */
  method Digits(n: int64) returns (r: string)
    requires n != 0
    ensures r == if n > 0 then Decimal(n) else []
  {
    var rest: int64 := n;
    ghost var whole := if rest > 0 then rest else 0;
    var tmp := new char[20];
    var i := tmp.Length;
    NineteenDigits();
    while rest > 0
      invariant 0 <= i <= 20
      invariant rest > 0 ==> i > 0 && rest < Pow10(i - 1)
      invariant rest < 0 ==> whole == 0 && i == 20
      invariant whole > 0 ==> rest >= 0
      invariant Filled(tmp[..], i, if rest > 0 then rest else 0, whole)
      decreases if rest > 0 then rest else 0
    {
      ghost var before := tmp[..];
      i := i - 1;
      tmp[i] := Digit(rest % 10);
      assert tmp[..] == before[i := Digit(rest % 10)];
      OneMoreDigit(before, i, rest, whole);
      rest := rest / 10;
    }
    r := tmp[i..];
    assert tmp[..][i..] == r;
  }

  method FormatKeyBytes(chatId: int64, issueKey: string) returns (key: string)
    ensures key == FormatKey(chatId, issueKey)
  {
    key := AppendInt64([], chatId);
    key := key + ":";
    key := key + issueKey;
  }

  function DigitValue(c: char): nat {
    if '0' <= c <= '9' then (c - '0') as int else 0
  }

  function Value(s: string): nat {
    if s == [] then 0 else 10 * Value(s[..|s| - 1]) + DigitValue(s[|s| - 1])
  }

  lemma {:induction false} DecimalReadsBack(n: nat)
    ensures Value(Decimal(n)) == n && Decimal(n) != []
    ensures forall c :: c in Decimal(n) ==> '0' <= c <= '9'
  {
    if n >= 10 {
      DecimalReadsBack(n / 10);
      assert Decimal(n)[..|Decimal(n)| - 1] == Decimal(n / 10);
    } else {
      assert Decimal(n)[..0] == [];
    }
  }

  lemma RenderedIsInjective(a: int64, b: int64)
    requires Rendered(a) == Rendered(b)
    ensures a == b
  {
    RenderedShape(a);
    RenderedShape(b);
    assert a < 0 && b < 0 ==> Rendered(a)[1..] == Rendered(b)[1..];
  }

  lemma RenderedShape(n: int64)
    ensures ':' !in Rendered(n) && Rendered(n) != []
    ensures n >= 0 ==> Rendered(n)[0] != '-' && Value(Rendered(n)) == n
    ensures n < 0 ==> Rendered(n)[0] == '-' && Value(Rendered(n)[1..]) == if n == MIN_INT64 then 0 else -n
  {
    assert Value("0") == 0 by { assert "0"[..0] == []; }
    if n > 0 {
      DecimalReadsBack(n);
      assert Decimal(n)[0] in Decimal(n);
    }
    if n < 0 && n != MIN_INT64 {
      DecimalReadsBack(-n);
      assert ("-" + Decimal(-n))[1..] == Decimal(-n);
    }
  }

  /** Text up to the first colon is determined by the whole. */
  lemma SplitAtColon(a: string, x: string, b: string, y: string)
    requires ':' !in a && ':' !in b && a + ":" + x == b + ":" + y
    ensures a == b && x == y
  {
    var k := a + ":" + x;
    assert k[|a|] == ':' && k[|b|] == ':';
    assert forall i :: 0 <= i < |a| ==> k[i] == a[i] && a[i] in a;
    assert forall i :: 0 <= i < |b| ==> k[i] == b[i] && b[i] in b;
    assert a == k[..|a|] && b == k[..|b|];
    assert x == k[|a| + 1..] && y == k[|b| + 1..];
  }

  /** Different chats or issues never share a key, the smallest chat ID included. */
  lemma FormatKeyIsInjective(chat: int64, issue: string, chat': int64, issue': string)
    requires FormatKey(chat, issue) == FormatKey(chat', issue')
    ensures chat == chat' && issue == issue'
  {
    RenderedShape(chat);
    RenderedShape(chat');
    SplitAtColon(Rendered(chat), issue, Rendered(chat'), issue');
    RenderedIsInjective(chat, chat');
  }

  // ---------------------------------------------------------------- the guard

  type Entries = map<string, int>

  predicate Allows(sent: Entries, key: string, at: int) {
    !(key in sent && at < sent[key])
  }

  function Swept(sent: Entries, now: int): Entries {
    map k | k in sent && !(now > sent[k]) :: sent[k]
  }

  /** `checkedAt` and `recordedAt` are the two clock readings of one `Allow`. */
  datatype Op =
    | Ask(chat: int64, issue: string, checkedAt: int, recordedAt: int)
    | Sweep(now: int)

  function AfterOp(ttl: int, sent: Entries, op: Op): Entries {
    match op
    case Ask(chat, issue, checkedAt, recordedAt) =>
      var key := FormatKey(chat, issue);
      if Allows(sent, key, checkedAt) then sent[key := recordedAt + ttl] else sent
    case Sweep(now) => Swept(sent, now)
  }

  class Guard {
    const ttl: int
    var sent: Entries

    constructor (ttl: int)
      ensures this.ttl == ttl && sent == map[]
    {
      this.ttl, sent := ttl, map[];
    }

    method Allow(chatId: int64, issueKey: string, checkedAt: int, recordedAt: int) returns (granted: bool)
      modifies this
      ensures granted == Allows(old(sent), FormatKey(chatId, issueKey), checkedAt)
      ensures sent == AfterOp(ttl, old(sent), Ask(chatId, issueKey, checkedAt, recordedAt))
    {
      var key := FormatKeyBytes(chatId, issueKey);
      if key in sent && checkedAt < sent[key] {
        return false;
      }
      sent := sent[key := recordedAt + ttl];
      return true;
    }

    /** One tick of the cleanup loop: deletes expired entries one by one. */
    method Cleanup(now: int)
      modifies this
      ensures sent == Swept(old(sent), now)
      ensures forall k :: k in sent <==> k in old(sent) && now <= old(sent)[k]
      ensures forall k :: k in sent ==> sent[k] == old(sent)[k]
    {
      var keys := sent.Keys;
      while keys != {}
        invariant keys <= old(sent).Keys
        invariant forall k :: k in sent <==> k in old(sent) && (k in keys || !(now > old(sent)[k]))
        invariant forall k :: k in sent ==> sent[k] == old(sent)[k]
        decreases |keys|
      {
        var k :| k in keys;
        keys := keys - {k};
        if now > sent[k] {
          sent := sent - {k};
        }
      }
    }
  }

  // ---------------------------------------------------------------- runs

  function SentAfter(ttl: int, ops: seq<Op>): Entries
    decreases |ops|
  {
    if ops == [] then map[] else AfterOp(ttl, SentAfter(ttl, ops[..|ops| - 1]), ops[|ops| - 1])
  }

  function EndOf(op: Op): int {
    if op.Ask? then op.recordedAt else op.now
  }

  function StartOf(op: Op): int {
    if op.Ask? then op.checkedAt else op.now
  }

  /** The clock never runs backwards. */
  ghost predicate Chronological(ops: seq<Op>) {
    && (forall i :: 0 <= i < |ops| ==> StartOf(ops[i]) <= EndOf(ops[i]))
    && (forall i, j :: 0 <= i < j < |ops| ==> EndOf(ops[i]) <= StartOf(ops[j]))
  }

  /** Operation `i` is an `Allow` call that returned true. */
  predicate Granted(ttl: int, ops: seq<Op>, i: nat)
    requires i < |ops|
  {
    ops[i].Ask? && Allows(SentAfter(ttl, ops[..i]), FormatKey(ops[i].chat, ops[i].issue), ops[i].checkedAt)
  }

  /** One of the first `n` operations granted this very chat and issue, and the grant has not run
      out at time `at`. */
  ghost predicate RecentlyGranted(ttl: int, ops: seq<Op>, n: nat, chat: int64, issue: string, at: int)
    requires n <= |ops|
  {
    exists j :: 0 <= j < n && Granted(ttl, ops, j) && ops[j].chat == chat && ops[j].issue == issue
             && at < ops[j].recordedAt + ttl
  }

  /** The map answers, for any time from now on, exactly the question of recent grants. */
  lemma {:induction false} MapMeansRecentlyGranted(ttl: int, ops: seq<Op>, n: nat, chat: int64, issue: string, at: int)
    requires Chronological(ops) && n <= |ops|
    requires n > 0 ==> at >= EndOf(ops[n - 1])
    ensures Allows(SentAfter(ttl, ops[..n]), FormatKey(chat, issue), at) <==>
            !RecentlyGranted(ttl, ops, n, chat, issue, at)
    decreases n
  {
    if n == 0 {
    } else {
      var last := ops[n - 1];
      assert n > 1 ==> EndOf(ops[n - 2]) <= StartOf(last);
      MapMeansRecentlyGranted(ttl, ops, n - 1, chat, issue, at);
      RecentNext(ttl, ops, n - 1, chat, issue, at);
      AllowsNext(ttl, ops, n - 1, FormatKey(chat, issue), at);
      if last.Ask? && FormatKey(last.chat, last.issue) == FormatKey(chat, issue) {
        FormatKeyIsInjective(last.chat, last.issue, chat, issue);
        if at >= last.recordedAt + ttl { NewestGrantRulesOut(ttl, ops, n - 1, chat, issue, at); }
      }
    }
  }

  lemma RecentNext(ttl: int, ops: seq<Op>, n: nat, chat: int64, issue: string, at: int)
    requires n < |ops|
    ensures RecentlyGranted(ttl, ops, n + 1, chat, issue, at) <==>
              || RecentlyGranted(ttl, ops, n, chat, issue, at)
              || (Granted(ttl, ops, n) && ops[n].chat == chat && ops[n].issue == issue && at < ops[n].recordedAt + ttl)
  {
  }

  /** A grant decides about its own key; nothing else changes an answer from then on. */
  lemma AllowsNext(ttl: int, ops: seq<Op>, n: nat, key: string, at: int)
    requires n < |ops| && at >= EndOf(ops[n])
    ensures Allows(SentAfter(ttl, ops[..n + 1]), key, at) <==>
              if ops[n].Ask? && Granted(ttl, ops, n) && FormatKey(ops[n].chat, ops[n].issue) == key
              then at >= ops[n].recordedAt + ttl
              else Allows(SentAfter(ttl, ops[..n]), key, at)
  {
    assert ops[..n + 1][..n] == ops[..n];
  }

  /** Grants before operation `n` run out before a grant made by it. */
  lemma NewestGrantRulesOut(ttl: int, ops: seq<Op>, n: nat, chat: int64, issue: string, at: int)
    requires Chronological(ops) && n < |ops| && ops[n].Ask? && at >= ops[n].recordedAt + ttl
    ensures !RecentlyGranted(ttl, ops, n, chat, issue, at)
  {
    forall j | 0 <= j < n && ops[j].Ask? ensures at >= ops[j].recordedAt + ttl {
      assert EndOf(ops[j]) <= StartOf(ops[n]) <= EndOf(ops[n]);
    }
  }

  /** In every run with cleanups at any moments, an `Allow` is granted exactly when no earlier grant
      for the same chat and issue is younger than the window. No other key plays any part. */
  lemma AllowIsPerKey(ttl: int, ops: seq<Op>, i: nat)
    requires Chronological(ops) && i < |ops| && ops[i].Ask?
    ensures Granted(ttl, ops, i) <==> !RecentlyGranted(ttl, ops, i, ops[i].chat, ops[i].issue, ops[i].checkedAt)
  {
    MapMeansRecentlyGranted(ttl, ops, i, ops[i].chat, ops[i].issue, ops[i].checkedAt);
  }

  /** Two grants for one chat and issue are at least the window apart. */
  lemma GrantsAreSpaced(ttl: int, ops: seq<Op>, j: nat, i: nat)
    requires Chronological(ops) && j < i < |ops| && Granted(ttl, ops, j) && Granted(ttl, ops, i)
    requires ops[j].chat == ops[i].chat && ops[j].issue == ops[i].issue
    ensures ops[i].checkedAt - ops[j].recordedAt >= ttl
  {
    AllowIsPerKey(ttl, ops, i);
  }

  function WithSweep(ops: seq<Op>, k: nat, now: int): seq<Op>
    requires k <= |ops|
  {
    ops[..k] + [Sweep(now)] + ops[k..]
  }

  function Shifted(i: nat, k: nat): nat {
    if i < k then i else i + 1
  }

  lemma RecentWitness(ttl: int, ops: seq<Op>, n: nat, j: nat, chat: int64, issue: string, at: int)
    requires j < n <= |ops| && Granted(ttl, ops, j) && ops[j].chat == chat && ops[j].issue == issue
    requires at < ops[j].recordedAt + ttl
    ensures RecentlyGranted(ttl, ops, n, chat, issue, at)
  {
  }

  lemma SweptRunGrantsNoMore(ttl: int, ops: seq<Op>, k: nat, now: int, i: nat, chat: int64, issue: string, at: int)
    requires k <= i < |ops|
    requires forall j :: 0 <= j < i ==> Granted(ttl, WithSweep(ops, k, now), Shifted(j, k)) == Granted(ttl, ops, j)
    requires RecentlyGranted(ttl, WithSweep(ops, k, now), i + 1, chat, issue, at)
    ensures RecentlyGranted(ttl, ops, i, chat, issue, at)
  {
    var more := WithSweep(ops, k, now);
    var j' :| 0 <= j' < i + 1 && Granted(ttl, more, j') && more[j'].chat == chat && more[j'].issue == issue
              && at < more[j'].recordedAt + ttl;
    assert j' != k by { assert more[k] == Sweep(now); }
    var j := if j' < k then j' else j' - 1;
    assert Shifted(j, k) == j';
    SweepBeforeStart(ops, k, now, j);
    RecentWitness(ttl, ops, i, j, chat, issue, at);
  }

  lemma SweptRunGrantsNoLess(ttl: int, ops: seq<Op>, k: nat, now: int, i: nat, chat: int64, issue: string, at: int)
    requires k <= i < |ops|
    requires forall j :: 0 <= j < i ==> Granted(ttl, WithSweep(ops, k, now), Shifted(j, k)) == Granted(ttl, ops, j)
    requires RecentlyGranted(ttl, ops, i, chat, issue, at)
    ensures RecentlyGranted(ttl, WithSweep(ops, k, now), i + 1, chat, issue, at)
  {
    var j :| 0 <= j < i && Granted(ttl, ops, j) && ops[j].chat == chat && ops[j].issue == issue
             && at < ops[j].recordedAt + ttl;
    SweepBeforeStart(ops, k, now, j);
    RecentWitness(ttl, WithSweep(ops, k, now), i + 1, Shifted(j, k), chat, issue, at);
  }

  lemma SweptRunAgrees(ttl: int, ops: seq<Op>, k: nat, now: int, i: nat, chat: int64, issue: string, at: int)
    requires k <= i < |ops|
    requires forall j :: 0 <= j < i ==> Granted(ttl, WithSweep(ops, k, now), Shifted(j, k)) == Granted(ttl, ops, j)
    ensures RecentlyGranted(ttl, ops, i, chat, issue, at)
         == RecentlyGranted(ttl, WithSweep(ops, k, now), i + 1, chat, issue, at)
  {
    if RecentlyGranted(ttl, WithSweep(ops, k, now), i + 1, chat, issue, at) {
      SweptRunGrantsNoMore(ttl, ops, k, now, i, chat, issue, at);
    } else if RecentlyGranted(ttl, ops, i, chat, issue, at) {
      SweptRunGrantsNoLess(ttl, ops, k, now, i, chat, issue, at);
    }
  }

  lemma SweepBeforeStart(ops: seq<Op>, k: nat, now: int, i: nat)
    requires k <= |ops| && i < |ops|
    ensures WithSweep(ops, k, now)[Shifted(i, k)] == ops[i]
    ensures i < k ==> WithSweep(ops, k, now)[..i] == ops[..i]
  {
  }

  /** A cleanup put in anywhere changes no answer before or after it. */
  lemma {:induction false} CleanupIsInvisible(ttl: int, ops: seq<Op>, k: nat, now: int, i: nat)
    requires k <= |ops| && i < |ops|
    requires Chronological(ops) && Chronological(WithSweep(ops, k, now))
    ensures Granted(ttl, WithSweep(ops, k, now), Shifted(i, k)) == Granted(ttl, ops, i)
    decreases i
  {
    SweepBeforeStart(ops, k, now, i);
    if i >= k && ops[i].Ask? {
      forall j | 0 <= j < i
        ensures Granted(ttl, WithSweep(ops, k, now), Shifted(j, k)) == Granted(ttl, ops, j) {
        CleanupIsInvisible(ttl, ops, k, now, j);
      }
      SweptAnswer(ttl, ops, k, now, i);
    }
  }

  lemma SweptAnswer(ttl: int, ops: seq<Op>, k: nat, now: int, i: nat)
    requires k <= i < |ops| && ops[i].Ask? && Chronological(ops) && Chronological(WithSweep(ops, k, now))
    requires forall j :: 0 <= j < i ==> Granted(ttl, WithSweep(ops, k, now), Shifted(j, k)) == Granted(ttl, ops, j)
    ensures Granted(ttl, WithSweep(ops, k, now), i + 1) == Granted(ttl, ops, i)
  {
    SweepBeforeStart(ops, k, now, i);
    AllowIsPerKey(ttl, ops, i);
    AllowIsPerKey(ttl, WithSweep(ops, k, now), i + 1);
    SweptRunAgrees(ttl, ops, k, now, i, ops[i].chat, ops[i].issue, ops[i].checkedAt);
  }
}
