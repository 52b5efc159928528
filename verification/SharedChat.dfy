/**
  Two subscriptions of one user in the same chat, as one poll of internal/poller/poller.go treats
  them: the second sighting of an issue is merged or dropped as a duplicate.
*/
module SharedChat {
  import opened Wrappers
  import opened ChangeMerge
  import opened ChangePoller
  import opened PollCoverage

  /** The subscriptions `i` and `j` share a chat, and no other one uses it. */
  ghost predicate OnlyTwoInChat(subs: seq<Subscription>, i: nat, j: nat) {
    && i < j < |subs| && subs[i].chat == subs[j].chat
    && forall m :: 0 <= m < |subs| && m != i && m != j ==> subs[m].chat != subs[i].chat
  }

  /** The two turns, whatever the subscriptions of other chats do before, between and after them. */
  lemma {:induction false} TwoTurns(w: World, subs: seq<Subscription>, calls: seq<Call>, setup: Setup,
                                    i: nat, j: nat, issue: string)
    requires |calls| == |subs| && OnlyTwoInChat(subs, i, j) && DistinctFound(calls[i]) && DistinctFound(calls[j])
    ensures var key := Key(subs[i].chat, issue);
            var first := Reached(Upto(w, subs, calls, setup, i), subs[i]);
            var mid := SubTurn(SlotOf(w, key), first, subs[i], calls[i], setup, issue);
            SlotOf(PollSubs(w, subs, calls, setup), key)
            == SubTurn(mid, Reached(Upto(w, subs, calls, setup, j), subs[j]), subs[j], calls[j], setup, issue)
  {
    var key := Key(subs[i].chat, issue);
    AllTurns(w, subs, calls, setup);
    UntouchedBetween(w, subs, calls, setup, 0, i, key);
    NextTurn(w, subs, calls, setup, i);
    OwnTurn(Upto(w, subs, calls, setup, i), subs[i], calls[i], setup, issue);
    UntouchedBetween(w, subs, calls, setup, i + 1, j, key);
    NextTurn(w, subs, calls, setup, j);
    OwnTurn(Upto(w, subs, calls, setup, j), subs[j], calls[j], setup, issue);
    UntouchedBetween(w, subs, calls, setup, j + 1, |subs|, key);
  }

  /** The subscription's call finds the issue, and neither filter drops it. */
  ghost predicate Finds(w: World, subs: seq<Subscription>, calls: seq<Call>, setup: Setup, i: nat, issue: string)
    requires |calls| == |subs| && i < |subs|
  {
    && Reached(Upto(w, subs, calls, setup, i), subs[i]) && !subs[i].isMention
    && calls[i].search.Hits? && HitFor(calls[i].search.hits, issue).Some?
    && !Stale(HitFor(calls[i].search.hits, issue).value.issue, SinceOf(subs[i], calls[i], setup))
  }

  function SightingBy(subs: seq<Subscription>, calls: seq<Call>, setup: Setup, i: nat, issue: string): Sighting
    requires |calls| == |subs| && i < |subs| && calls[i].search.Hits? && HitFor(calls[i].search.hits, issue).Some?
  {
    SightingOf(subs[i], HitFor(calls[i].search.hits, issue).value, SinceOf(subs[i], calls[i], setup), setup.exclude)
  }

  /** When both find an issue, the window of the second is merged exactly when a notification already
      waits or the first had something to report; otherwise it is dropped as a duplicate of a
      notification that was never made. */
  lemma {:induction false} SecondInChatMergesIff(w: World, subs: seq<Subscription>, calls: seq<Call>, setup: Setup,
                                                 i: nat, j: nat, issue: string)
    requires |calls| == |subs| && OnlyTwoInChat(subs, i, j) && DistinctFound(calls[i]) && DistinctFound(calls[j])
    requires Finds(w, subs, calls, setup, i, issue) && Finds(w, subs, calls, setup, j, issue)
    requires Key(subs[i].chat, issue) !in w.notified
    ensures var key, prev := Key(subs[i].chat, issue), Lookup(w.pending, Key(subs[i].chat, issue));
            var s, s' := SightingBy(subs, calls, setup, i, issue), SightingBy(subs, calls, setup, j, issue);
            Lookup(PollSubs(w, subs, calls, setup).pending, key)
            == if prev.Some? || Reports(s) then Added(Added(prev, s), s') else prev
  {
    TwoTurns(w, subs, calls, setup, i, j, issue);
  }

  /** A dropped entry created before the poll began is taken in by a later poll's window exactly when
      the cursor was not saved, and one had been stored before or the entry is still younger than one
      interval then. */
  lemma {:induction false} DropIsALossIff(w: World, subs: seq<Subscription>, calls: seq<Call>, setup: Setup,
                                          j: nat, e: Entry, readAt: int)
    requires |calls| == |subs| && j < |subs| && DistinctIds(subs) && Reached(Upto(w, subs, calls, setup, j), subs[j])
    requires calls[j].search.Hits? && subs[j].lastPolledAt == CursorOf(w.cursors, subs[j].id) && setup.now > 0
    requires Counts(e, SinceOf(subs[j], calls[j], setup), setup.exclude) && e.created.value <= setup.now * 1000
    ensures var later := CursorOf(PollSubs(w, subs, calls, setup).cursors, subs[j].id);
            Counts(e, SinceTimestamp(later, readAt, setup.interval), setup.exclude) <==>
              && !calls[j].saved
              && (subs[j].lastPolledAt > 0 || e.created.value > SinceTimestamp(0, readAt, setup.interval) * 1000)
  {
    CursorAfterPoll(w, subs, calls, setup, j);
  }

  function RecentEntry(at: int, author: string): Entry {
    Entry(Some(at), Some(User(author, author)), [ChangeItem("status", "", "", "Open", "", "Done")])
  }

  lemma {:induction false} OneHit(w: World, sub: Subscription, hit: Hit, since: int, exclude: string)
    ensures HandleHits(w, sub, [hit], since, exclude) == HandleHit(w, sub, hit, since, exclude)
  {
    assert [hit][..0] == [];
  }

  lemma {:induction false} OneOrTwoSubs(w: World, a: Subscription, b: Subscription, call: Call, setup: Setup)
    ensures PollSubs(w, [a], [call], setup) == PollSub(w, a, call, setup)
    ensures PollSubs(w, [a, b], [call, call], setup) == PollSub(PollSub(w, a, call, setup), b, call, setup)
  {
    assert [a][..0] == [] && [call][..0] == [] && [a, b][..1] == [a] && [call, call][..1] == [call];
  }

  lemma {:induction false} ItemsOfTwo(a: Entry, b: Entry, since: int, exclude: string)
    ensures RecentItems([a, b], since, exclude)
         == (if Counts(a, since, exclude) then a.items else []) + if Counts(b, since, exclude) then b.items else []
  {
    assert [a, b][..1] == [a] && [a][..0] == [];
    assert RecentItems([a], since, exclude) == [] + if Counts(a, since, exclude) then a.items else [];
  }

  /** The loss happens: the second subscription's cursor moves past a change that was not reported. */
  lemma {:induction false} SharedChatLosesAChange(theirs: Entry, own: Entry, mine: Subscription, project: Subscription)
    requires theirs == RecentEntry(80000, "you") && own == RecentEntry(110000, "me")
    requires mine == Subscription(1, 7, false, "assignee = currentUser()", 100)
    requires project == Subscription(2, 7, false, "project = P", 50)
    ensures var call := Call(120000, Hits([Hit(Issue("P-1", Some(110000), [theirs, own]), [], 120000)]), true);
            var w, setup := World(map[], {}, map[1 := 100, 2 := 50], false), Setup(30000, "me", 120);
            var together := PollSubs(w, [mine, project], [call, call], setup);
            && together.pending == map[] && 2 in together.cursors && together.cursors[2] == 120
            && Key(7, "P-1") in PollSubs(w, [project], [call], setup).pending
  {
    var hit := Hit(Issue("P-1", Some(110000), [theirs, own]), [], 120000);
    var call := Call(120000, Hits([hit]), true);
    var w, setup := World(map[], {}, map[1 := 100, 2 := 50], false), Setup(30000, "me", 120);
    OneOrTwoSubs(w, mine, project, call, setup);
    OneOrTwoSubs(w, project, mine, call, setup);
    OwnChangeIsNotReported(w, theirs, own, mine, hit);
    var w1 := PollSub(w, mine, call, setup);
    assert w1 == World(map[], {Key(7, "P-1")}, map[1 := 120, 2 := 50], false);
    OneHit(w1, project, hit, 50, "me");
    OneHit(w, project, hit, 50, "me");
    ItemsOfTwo(theirs, own, 50, "me");
  }

  lemma {:induction false} OwnChangeIsNotReported(w: World, theirs: Entry, own: Entry, mine: Subscription, hit: Hit)
    requires theirs == RecentEntry(80000, "you") && own == RecentEntry(110000, "me") && hit.issue.log == [theirs, own]
    requires !mine.isMention && !Stale(hit.issue, 100)
    requires Key(mine.chat, hit.issue.key) !in w.pending && Key(mine.chat, hit.issue.key) !in w.notified
    ensures HandleHits(w, mine, [hit], 100, "me") == w.(notified := w.notified + {Key(mine.chat, hit.issue.key)})
  {
    OneHit(w, mine, hit, 100, "me");
    ItemsOfTwo(theirs, own, 100, "me");
    assert ItemsOf(SightingOf(mine, hit, 100, "me")) == [];
  }
}
