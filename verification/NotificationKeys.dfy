/**
  The string keys behind the structured ones of the other modules: "chat:issue" for a pending
  notification (internal/poller/poller.go) and "cal:kind:uid:start" for the calendar poller's guard
  (internal/calendarpoller/poller.go). Neither ever confuses two different things.
*/
module NotificationKeys {
  import opened DedupGuard
  import C = CalendarPoller

  /** An integer as "%d" prints it. */
  function SignedDecimal(n: int): string {
    if n < 0 then "-" + Decimal(-n) else Decimal(n)
  }

  function PendingKey(chat: int, issue: string): string {
    SignedDecimal(chat) + ":" + issue
  }

  function KindName(kind: C.Kind): string {
    match kind
    case New => "new"
    case Changed => "changed"
    case Reminder => "reminder"
  }

  function CalendarKey(kind: C.Kind, uid: string, start: int): string {
    "cal:" + KindName(kind) + ":" + uid + ":" + SignedDecimal(start)
  }

  lemma SignedHasNoColon(n: int)
    ensures ':' !in SignedDecimal(n) && |SignedDecimal(n)| > 0 && (SignedDecimal(n)[0] == '-' <==> n < 0)
  {
    DecimalReadsBack(if n < 0 then -n else n);
    assert Decimal(if n < 0 then -n else n)[0] in Decimal(if n < 0 then -n else n);
  }

  lemma SignedIsInjective(m: int, n: int)
    requires SignedDecimal(m) == SignedDecimal(n)
    ensures m == n
  {
    SignedHasNoColon(m);
    SignedHasNoColon(n);
    DecimalReadsBack(if m < 0 then -m else m);
    DecimalReadsBack(if n < 0 then -n else n);
    assert m < 0 ==> SignedDecimal(m)[1..] == Decimal(-m);
    assert n < 0 ==> SignedDecimal(n)[1..] == Decimal(-n);
  }

  /** Different chats or issues never share a pending entry. */
  lemma PendingKeyIsInjective(chat: int, issue: string, chat': int, issue': string)
    requires PendingKey(chat, issue) == PendingKey(chat', issue')
    ensures chat == chat' && issue == issue'
  {
    SignedHasNoColon(chat);
    SignedHasNoColon(chat');
    SplitAtColon(SignedDecimal(chat), issue, SignedDecimal(chat'), issue');
    SignedIsInjective(chat, chat');
  }

  lemma ColonPlaces(a: string, x: string)
    ensures var k := a + ":" + x;
            && |k| == |a| + 1 + |x| && k[|a|] == ':' && k[..|a|] == a && k[|a| + 1..] == x
            && forall i :: |a| < i < |k| ==> k[i] == x[i - |a| - 1]
  {
  }

  lemma SplitAtLastColon(a: string, x: string, b: string, y: string)
    requires ':' !in x && ':' !in y && a + ":" + x == b + ":" + y
    ensures a == b && x == y
  {
    ColonPlaces(a, x);
    ColonPlaces(b, y);
    forall i | 0 <= i < |x| ensures x[i] != ':' { assert x[i] in x; }
    forall i | 0 <= i < |y| ensures y[i] != ':' { assert y[i] in y; }
  }

  lemma KindsDiffer(kind: C.Kind, kind': C.Kind)
    requires KindName(kind) == KindName(kind')
    ensures kind == kind'
  {
    assert |"new"| == 3 && |"changed"| == 7 && |"reminder"| == 8;
  }

  lemma HeadIsInjective(kind: C.Kind, uid: string, kind': C.Kind, uid': string)
    requires "cal:" + KindName(kind) + ":" + uid == "cal:" + KindName(kind') + ":" + uid'
    ensures kind == kind' && uid == uid'
  {
    Regroup("cal:", KindName(kind), ":", uid);
    Regroup("cal:", KindName(kind'), ":", uid');
    SamePrefix("cal:", KindName(kind) + ":" + uid, KindName(kind') + ":" + uid');
    SplitAtColon(KindName(kind), uid, KindName(kind'), uid');
    KindsDiffer(kind, kind');
  }

  lemma Regroup(a: string, b: string, c: string, d: string)
    ensures a + b + c + d == a + (b + c + d)
  {
  }

  lemma SamePrefix(p: string, x: string, y: string)
    requires p + x == p + y
    ensures x == y
  {
    assert (p + x)[|p|..] == x && (p + y)[|p|..] == y;
  }

  /** The user, the kind, the UID (colons and all) and the start time are told apart. */
  lemma CalendarKeyIsInjective(user: int64, kind: C.Kind, uid: string, start: int, user': int64, kind': C.Kind,
                               uid': string, start': int)
    requires FormatKey(user, CalendarKey(kind, uid, start)) == FormatKey(user', CalendarKey(kind', uid', start'))
    ensures user == user' && kind == kind' && uid == uid' && start == start'
  {
    var a, b := CalendarKey(kind, uid, start), CalendarKey(kind', uid', start');
    FormatKeyIsInjective(user, a, user', b);
    SignedHasNoColon(start);
    SignedHasNoColon(start');
    var head, head' := "cal:" + KindName(kind) + ":" + uid, "cal:" + KindName(kind') + ":" + uid';
    SplitAtLastColon(head, SignedDecimal(start), head', SignedDecimal(start'));
    SignedIsInjective(start, start');
    HeadIsInjective(kind, uid, kind', uid');
  }
}
