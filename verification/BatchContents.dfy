/**
  What a waiting notification of internal/poller/poller.go holds besides its changes: the issue, the
  comments and the names, told from the sightings since it came in.
*/
module BatchContents {
  import opened Wrappers
  import opened ChangeMerge
  import opened ChangePoller
  import opened BatchWindow

  // ---------------------------------------------------------------- what one sighting adds

  ghost predicate HasComment(comments: seq<Comment>, id: string) {
    exists k :: 0 <= k < |comments| && comments[k].id == id
  }

  /** The last comment with this identifier is the one at `k`. */
  ghost predicate LastComment(comments: seq<Comment>, id: string, k: int) {
    0 <= k < |comments| && comments[k].id == id && forall l :: k < l < |comments| ==> comments[l].id != id
  }

  lemma {:induction false} CommentsNext(added: seq<Comment>, id: string)
    requires added != []
    ensures var n := |added| - 1;
            && (HasComment(added, id) <==> HasComment(added[..n], id) || added[n].id == id)
            && (LastComment(added, id, n) <==> added[n].id == id)
            && forall k :: k != n ==>
                 (LastComment(added, id, k) <==> LastComment(added[..n], id, k) && added[n].id != id)
  {
    var n := |added| - 1;
    assert forall k :: 0 <= k < n ==> added[..n][k] == added[k];
  }

  /** These are the old comments and the new ones with an identifier, each in its last version. */
  ghost predicate StashOk(comments: map<string, Comment>, added: seq<Comment>, after: map<string, Comment>,
                          id: string) {
    && (id in after <==> id in comments || (id != "" && HasComment(added, id)))
    && (forall k :: id != "" && LastComment(added, id, k) ==> id in after && after[id] == added[k])
    && (id in comments && (id == "" || !HasComment(added, id)) ==> id in after && after[id] == comments[id])
  }

  lemma {:induction false} StashNext(comments: map<string, Comment>, added: seq<Comment>, before: map<string, Comment>,
                                     id: string)
    requires added != [] && StashOk(comments, added[..|added| - 1], before, id)
    ensures var c := added[|added| - 1];
            StashOk(comments, added, if c.id != "" then before[c.id := c] else before, id)
  {
    CommentsNext(added, id);
  }

  lemma {:induction false} StashedAre(comments: map<string, Comment>, added: seq<Comment>, id: string)
    ensures StashOk(comments, added, Stashed(comments, added), id) == true
    decreases |added|
  {
    if added == [] {
    } else {
      StashedAre(comments, added[..|added| - 1], id);
      StashNext(comments, added, Stashed(comments, added[..|added| - 1]), id);
    }
  }

  /** One of these comments is by this account under this name, which is neither empty nor left out. */
  ghost predicate Wrote(added: seq<Comment>, exclude: string, account: string, name: string) {
    account != "" && account != exclude
    && exists k :: 0 <= k < |added| && added[k].author == Some(User(account, name))
  }

  /** One of these changes that count is by this account under this name. */
  ghost predicate Changed(log: seq<Entry>, since: int, exclude: string, account: string, name: string) {
    !(exclude != "" && account == exclude)
    && exists e :: e in log && e.created.Some? && e.created.value > since * 1000
                   && e.author == Some(User(account, name))
  }

  lemma {:induction false} WroteNext(added: seq<Comment>, exclude: string, account: string, name: string)
    requires added != []
    ensures var n := |added| - 1;
            Wrote(added, exclude, account, name) <==>
              || Wrote(added[..n], exclude, account, name)
              || (account != "" && account != exclude && added[n].author == Some(User(account, name)))
  {
    var n := |added| - 1;
    assert forall k :: 0 <= k < n ==> added[..n][k] == added[k];
  }

  lemma {:induction false} CommentersAre(authors: map<string, string>, added: seq<Comment>, exclude: string,
                                         account: string)
    ensures var after := CommentersCredited(authors, added, exclude);
            && (account in after <==> account in authors || exists name :: Wrote(added, exclude, account, name))
            && (account in after ==> (account in authors && after[account] == authors[account])
                                     || Wrote(added, exclude, account, after[account]))
    decreases |added|
  {
    if added == [] {
    } else {
      var n := |added| - 1;
      CommentersAre(authors, added[..n], exclude, account);
      forall name { WroteNext(added, exclude, account, name); }
      if added[n].author.Some? && added[n].author.value.accountId == account {
        WroteNext(added, exclude, account, added[n].author.value.displayName);
        assert added[n].author == Some(User(account, added[n].author.value.displayName));
      }
    }
  }

  lemma {:induction false} CreditedAre(authors: map<string, string>, users: seq<User>, account: string)
    ensures var after := Credited(authors, users);
            && (account in after <==> account in authors || exists name :: User(account, name) in users)
            && (account in after ==> (account in authors && after[account] == authors[account])
                                     || User(account, after[account]) in users)
    decreases |users|
  {
    if users == [] {
    } else {
      var n := |users| - 1;
      CreditedAre(authors, users[..n], account);
      assert users == users[..n] + [users[n]];
      assert users[n] == User(users[n].accountId, users[n].displayName);
    }
  }

  lemma {:induction false} RecentAuthorsAre(log: seq<Entry>, since: int, exclude: string, account: string)
    ensures forall name :: User(account, name) in RecentAuthors(log, since, exclude) ==>
              Changed(log, since, exclude, account, name)
    ensures (exists name :: Changed(log, since, exclude, account, name)) ==>
              exists name :: User(account, name) in RecentAuthors(log, since, exclude)
  {
    var authors := RecentAuthors(log, since, exclude);
    AuthorsAreThoseOfTheWindow(log, since, exclude);
    if name :| Changed(log, since, exclude, account, name) {
      var e :| e in log && e.created.Some? && e.created.value > since * 1000 && e.author == Some(User(account, name));
      assert Counts(e, since, exclude);
      assert account in AccountIds(authors);
      var u :| u in authors && u.accountId == account;
      assert u == User(account, u.displayName);
    }
  }

  /** The sighting brings in this account under this name. */
  ghost predicate Names(s: Sighting, account: string, name: string) {
    Changed(s.issue.log, s.since, s.exclude, account, name) || Wrote(s.comments, s.exclude, account, name)
  }

  lemma {:induction false} AuthorsAfter(authors: map<string, string>, s: Sighting, account: string)
    ensures var credited := Credited(authors, RecentAuthors(s.issue.log, s.since, s.exclude));
            var after := CommentersCredited(credited, s.comments, s.exclude);
            && (account in after <==> account in authors || exists name :: Names(s, account, name))
            && (account in after ==> (account in authors && after[account] == authors[account])
                                     || Names(s, account, after[account]))
  {
    var recent := RecentAuthors(s.issue.log, s.since, s.exclude);
    RecentAuthorsAre(s.issue.log, s.since, s.exclude, account);
    CreditedAre(authors, recent, account);
    CommentersAre(Credited(authors, recent), s.comments, s.exclude, account);
    if name :| Names(s, account, name) {
      if Changed(s.issue.log, s.since, s.exclude, account, name) {
        assert exists n :: User(account, n) in recent;
      }
    }
    if n :| User(account, n) in recent { assert Names(s, account, n); }
    if n :| Wrote(s.comments, s.exclude, account, n) { assert Names(s, account, n); }
  }

  // ---------------------------------------------------------------- what the sightings of a run bring in

  /** Operation `j` is a sighting of this key that has something to report. */
  ghost predicate Tells(ops: seq<Op>, j: int, key: Key) {
    0 <= j < |ops| && Sights(ops[j], key) && Reports(ops[j].sighting)
  }

  /** The last of the operations `i..n` to tell of this key is `j`. */
  ghost predicate LastTells(ops: seq<Op>, i: nat, n: nat, key: Key, j: int) {
    i <= j < n && Tells(ops, j, key) && forall m :: j < m < n ==> !Tells(ops, m, key)
  }

  /** Some sighting brought in a comment with this identifier. */
  ghost predicate Brought(ops: seq<Op>, i: nat, n: nat, key: Key, id: string) {
    exists j :: i <= j < n && Tells(ops, j, key) && HasComment(ops[j].sighting.comments, id)
  }

  /** The last to do so is operation `j`. */
  ghost predicate LastBrought(ops: seq<Op>, i: nat, n: nat, key: Key, id: string, j: int) {
    && i <= j < n && Tells(ops, j, key) && HasComment(ops[j].sighting.comments, id)
    && forall m :: j < m < n && Tells(ops, m, key) ==> !HasComment(ops[m].sighting.comments, id)
  }

  /** Some sighting brought in this account under this name. */
  ghost predicate Named(ops: seq<Op>, i: nat, n: nat, key: Key, account: string, name: string) {
    exists j :: i <= j < n && Tells(ops, j, key) && Names(ops[j].sighting, account, name)
  }

  ghost predicate IssueOk(ops: seq<Op>, i: nat, n: nat, key: Key, p: Pending) {
    exists j :: LastTells(ops, i, n, key, j) && p.issue == ops[j].sighting.issue
  }

  ghost predicate CommentOk(ops: seq<Op>, i: nat, n: nat, key: Key, comments: map<string, Comment>, id: string) {
    && (id in comments <==> id != "" && Brought(ops, i, n, key, id))
    && forall j, k :: id != "" && LastBrought(ops, i, n, key, id, j) && LastComment(ops[j].sighting.comments, id, k) ==>
         comments[id] == ops[j].sighting.comments[k]
  }

  ghost predicate AuthorOk(ops: seq<Op>, i: nat, n: nat, key: Key, authors: map<string, string>, account: string) {
    && (account in authors <==> exists name :: Named(ops, i, n, key, account, name))
    && (account in authors ==> Named(ops, i, n, key, account, authors[account]))
  }

  // ---------------------------------------------------------------- one more operation

  lemma {:induction false} TellsNext(ops: seq<Op>, i: nat, n: nat, next: nat, key: Key)
    requires i <= n < |ops| && next == n + 1
    ensures forall j :: LastTells(ops, i, next, key, j) <==>
              if Tells(ops, n, key) then j == n else LastTells(ops, i, n, key, j)
  {
  }

  lemma {:induction false} BroughtNext(ops: seq<Op>, i: nat, n: nat, next: nat, key: Key, id: string)
    requires i <= n < |ops| && next == n + 1
    ensures var here := Tells(ops, n, key) && HasComment(ops[n].sighting.comments, id);
            && (Brought(ops, i, next, key, id) <==> Brought(ops, i, n, key, id) || here)
            && forall j :: LastBrought(ops, i, next, key, id, j) <==>
                 if here then j == n else LastBrought(ops, i, n, key, id, j)
  {
  }

  lemma {:induction false} NamedNext(ops: seq<Op>, i: nat, n: nat, next: nat, key: Key, account: string, name: string)
    requires i <= n < |ops| && next == n + 1
    ensures Named(ops, i, next, key, account, name) <==>
              || Named(ops, i, n, key, account, name)
              || (Tells(ops, n, key) && Names(ops[n].sighting, account, name))
  {
  }

  lemma {:induction false} CommentAfter(ops: seq<Op>, i: nat, n: nat, next: nat, key: Key,
                                        comments: map<string, Comment>, id: string)
    requires i <= n < |ops| && next == n + 1 && CommentOk(ops, i, n, key, comments, id)
    ensures CommentOk(ops, i, next, key,
                      if Tells(ops, n, key) then Stashed(comments, ops[n].sighting.comments) else comments, id)
  {
    BroughtNext(ops, i, n, next, key, id);
    if Tells(ops, n, key) { StashedAre(comments, ops[n].sighting.comments, id); }
  }

  lemma {:induction false} AuthorAfter(ops: seq<Op>, i: nat, n: nat, next: nat, key: Key, authors: map<string, string>,
                                       account: string)
    requires i <= n < |ops| && next == n + 1 && AuthorOk(ops, i, n, key, authors, account) && Tells(ops, n, key)
    ensures var s := ops[n].sighting;
            AuthorOk(ops, i, next, key,
                     CommentersCredited(Credited(authors, RecentAuthors(s.issue.log, s.since, s.exclude)), s.comments,
                                        s.exclude), account)
  {
    AuthorsAfter(authors, ops[n].sighting, account);
    forall name ensures Named(ops, i, next, key, account, name) <==>
                        Named(ops, i, n, key, account, name) || Names(ops[n].sighting, account, name) {
      NamedNext(ops, i, n, next, key, account, name);
    }
  }

  lemma {:induction false} AuthorStays(ops: seq<Op>, i: nat, n: nat, next: nat, key: Key, authors: map<string, string>,
                                       account: string)
    requires i <= n < |ops| && next == n + 1 && AuthorOk(ops, i, n, key, authors, account) && !Tells(ops, n, key)
    ensures AuthorOk(ops, i, next, key, authors, account)
  {
    forall name ensures Named(ops, i, next, key, account, name) <==> Named(ops, i, n, key, account, name) {
      NamedNext(ops, i, n, next, key, account, name);
    }
  }

  /** What an operation does to the notification of this key, unless it takes it out. */
  lemma {:induction false} StepAdds(window: nat, ops: seq<Op>, n: nat, key: Key)
    requires n < |ops| && !Leaves(window, ops, n, key)
    ensures Lookup(PendingAt(window, ops, n + 1), key)
         == if Tells(ops, n, key) then Added(Lookup(PendingAt(window, ops, n), key), ops[n].sighting)
            else Lookup(PendingAt(window, ops, n), key)
  {
  }

  // ---------------------------------------------------------------- the contents of a notification

  ghost predicate ContentsOk(ops: seq<Op>, i: nat, n: nat, key: Key, p: Pending) {
    && IssueOk(ops, i, n, key, p)
    && (forall id :: CommentOk(ops, i, n, key, p.comments, id))
    && (forall account :: AuthorOk(ops, i, n, key, p.authors, account))
  }

  lemma {:induction false} ContentsStay(ops: seq<Op>, i: nat, n: nat, next: nat, key: Key, p: Pending)
    requires i <= n < |ops| && next == n + 1 && ContentsOk(ops, i, n, key, p) && !Tells(ops, n, key)
    ensures ContentsOk(ops, i, next, key, p)
  {
    TellsNext(ops, i, n, next, key);
    forall id ensures CommentOk(ops, i, next, key, p.comments, id) {
      CommentAfter(ops, i, n, next, key, p.comments, id);
    }
    forall account ensures AuthorOk(ops, i, next, key, p.authors, account) {
      AuthorStays(ops, i, n, next, key, p.authors, account);
    }
  }

  lemma {:induction false} ContentsGrow(ops: seq<Op>, i: nat, n: nat, next: nat, key: Key, prev: Option<Pending>)
    requires i <= n < |ops| && next == n + 1 && Tells(ops, n, key)
    requires if prev.Some? then ContentsOk(ops, i, n, key, prev.value) else i == n
    ensures Added(prev, ops[n].sighting).Some? && ContentsOk(ops, i, next, key, Added(prev, ops[n].sighting).value)
  {
    var p := Added(prev, ops[n].sighting).value;
    var comments := if prev.Some? then prev.value.comments else map[];
    var authors := if prev.Some? then prev.value.authors else map[];
    TellsNext(ops, i, n, next, key);
    assert LastTells(ops, i, next, key, n);
    forall id ensures CommentOk(ops, i, next, key, p.comments, id) {
      CommentAfter(ops, i, n, next, key, comments, id);
    }
    forall account ensures AuthorOk(ops, i, next, key, p.authors, account) {
      AuthorAfter(ops, i, n, next, key, authors, account);
    }
  }

  lemma {:induction false} ContentsNext(ops: seq<Op>, i: nat, n: nat, next: nat, key: Key, p: Pending,
                                        after: Option<Pending>)
    requires i <= n < |ops| && next == n + 1 && ContentsOk(ops, i, n, key, p)
    requires Link(ops, key, n, Some(p), after)
    ensures after.Some? && ContentsOk(ops, i, next, key, after.value) == true
  {
    if Tells(ops, n, key) {
      ContentsGrow(ops, i, n, next, key, Some(p));
    } else {
      ContentsStay(ops, i, n, next, key, p);
    }
  }

  /** The notification as it goes through the operations `i..n`. */
  ghost predicate Chain(ops: seq<Op>, i: nat, n: nat, key: Key, slots: seq<Option<Pending>>) {
    && i < n <= |ops| && |slots| == n + 1 && slots[i].None? && Tells(ops, i, key)
    && forall m :: i <= m < n ==> LinkAt(ops, key, slots, m)
  }

  ghost predicate LinkAt(ops: seq<Op>, key: Key, slots: seq<Option<Pending>>, m: nat)
    requires m < |ops| && m + 1 < |slots|
  {
    Link(ops, key, m, slots[m], slots[m + 1])
  }

  ghost predicate Link(ops: seq<Op>, key: Key, m: nat, before: Option<Pending>, after: Option<Pending>)
    requires m < |ops|
  {
    after == if Tells(ops, m, key) then Added(before, ops[m].sighting) else before
  }

  lemma {:induction false} ChainLink(ops: seq<Op>, i: nat, n: nat, key: Key, slots: seq<Option<Pending>>, m: nat,
                                     before: Option<Pending>, after: Option<Pending>)
    requires Chain(ops, i, n, key, slots) && i <= m < n && before == slots[m] && after == slots[m + 1]
    ensures Link(ops, key, m, before, after) == true
    ensures m == i ==> before.None? && Tells(ops, m, key)
  {
    assert LinkAt(ops, key, slots, m);
  }

  lemma {:induction false} ChainHolds(ops: seq<Op>, i: nat, n: nat, key: Key, slots: seq<Option<Pending>>, m: nat)
    requires Chain(ops, i, n, key, slots) && i < m <= n
    ensures slots[m].Some? && ContentsOk(ops, i, m, key, slots[m].value) == true
    decreases m
  {
    ChainLink(ops, i, n, key, slots, m - 1, slots[m - 1], slots[m]);
    if m == i + 1 {
      ContentsBegin(ops, i, m, key, slots[m]);
    } else {
      ChainHolds(ops, i, n, key, slots, m - 1);
      ContentsNext(ops, i, m - 1, m, key, slots[m - 1].value, slots[m]);
    }
  }

  lemma {:induction false} ContentsBegin(ops: seq<Op>, i: nat, next: nat, key: Key, after: Option<Pending>)
    requires i < |ops| && next == i + 1 && Tells(ops, i, key) && Link(ops, key, i, None, after)
    ensures after.Some? && ContentsOk(ops, i, next, key, after.value) == true
  {
    ContentsGrow(ops, i, i, next, key, None);
  }

  function SlotAt(window: nat, ops: seq<Op>, m: nat, key: Key): Option<Pending>
    requires m <= |ops|
  {
    Lookup(PendingAt(window, ops, m), key)
  }

  lemma {:induction false} SlotNext(window: nat, ops: seq<Op>, i: nat, n: nat, m: nat, key: Key)
    requires i <= m < n <= |ops| && WaitsFrom(window, ops, i, n, key)
    ensures Link(ops, key, m, SlotAt(window, ops, m, key), SlotAt(window, ops, m + 1, key)) == true
  {
    BirthOrStay(window, ops, i, m, key);
    StepAdds(window, ops, m, key);
  }

  lemma {:induction false} BornSlot(window: nat, ops: seq<Op>, i: nat, key: Key)
    requires i < |ops| && Born(window, ops, i, key)
    ensures SlotAt(window, ops, i, key).None? && Tells(ops, i, key) == true
  {
    BirthOrStay(window, ops, i, i, key);
  }

  lemma {:induction false} SlotsChain(window: nat, ops: seq<Op>, i: nat, n: nat, key: Key)
    returns (slots: seq<Option<Pending>>)
    requires i < n <= |ops| && WaitsFrom(window, ops, i, n, key)
    ensures Chain(ops, i, n, key, slots) && slots[n] == SlotAt(window, ops, n, key)
  {
    slots := seq(n + 1, m requires 0 <= m <= n => SlotAt(window, ops, m, key));
    BornSlot(window, ops, i, key);
    forall m | i <= m < n ensures LinkAt(ops, key, slots, m) {
      SlotNext(window, ops, i, n, m, key);
    }
  }

  /** A waiting notification holds the issue as the last sighting that had something to report saw it;
      exactly the comments with an identifier that such sightings brought in since it came in, each in its
      last version; and exactly the accounts behind the changes that counted and, but for the user's own,
      the comments, each under a name that one of them bore. */
  lemma {:induction false} BatchHolds(window: nat, ops: seq<Op>, i: nat, n: nat, key: Key)
    requires i < n <= |ops| && WaitsFrom(window, ops, i, n, key)
    ensures key in PendingAt(window, ops, n)
    ensures exists j :: LastTells(ops, i, n, key, j) && PendingAt(window, ops, n)[key].issue == ops[j].sighting.issue
    ensures forall id :: id in PendingAt(window, ops, n)[key].comments <==> id != "" && Brought(ops, i, n, key, id)
    ensures forall id, j, k :: id != "" && LastBrought(ops, i, n, key, id, j)
                               && LastComment(ops[j].sighting.comments, id, k) ==>
              var comments := PendingAt(window, ops, n)[key].comments;
              id in comments && comments[id] == ops[j].sighting.comments[k]
    ensures forall account :: account in PendingAt(window, ops, n)[key].authors <==>
              exists name :: Named(ops, i, n, key, account, name)
    ensures forall account :: account in PendingAt(window, ops, n)[key].authors ==>
              Named(ops, i, n, key, account, PendingAt(window, ops, n)[key].authors[account])
  {
    var slots := SlotsChain(window, ops, i, n, key);
    ChainHolds(ops, i, n, key, slots, n);
    ContentsSay(ops, i, n, key, slots[n].value);
  }

  lemma {:induction false} ContentsSay(ops: seq<Op>, i: nat, n: nat, key: Key, p: Pending)
    requires ContentsOk(ops, i, n, key, p)
    ensures exists j :: LastTells(ops, i, n, key, j) && p.issue == ops[j].sighting.issue
    ensures forall id :: id in p.comments <==> id != "" && Brought(ops, i, n, key, id)
    ensures forall id, j, k :: id != "" && LastBrought(ops, i, n, key, id, j)
                               && LastComment(ops[j].sighting.comments, id, k) ==>
              id in p.comments && p.comments[id] == ops[j].sighting.comments[k]
    ensures forall account :: account in p.authors <==> exists name :: Named(ops, i, n, key, account, name)
    ensures forall account :: account in p.authors ==> Named(ops, i, n, key, account, p.authors[account])
  {
    forall id ensures id in p.comments <==> id != "" && Brought(ops, i, n, key, id) {
      assert CommentOk(ops, i, n, key, p.comments, id);
    }
    forall id, j, k | id != "" && LastBrought(ops, i, n, key, id, j) && LastComment(ops[j].sighting.comments, id, k)
      ensures id in p.comments && p.comments[id] == ops[j].sighting.comments[k] {
      assert CommentOk(ops, i, n, key, p.comments, id);
      assert Brought(ops, i, n, key, id);
    }
    forall account ensures account in p.authors <==> exists name :: Named(ops, i, n, key, account, name) {
      assert AuthorOk(ops, i, n, key, p.authors, account);
    }
    forall account | account in p.authors ensures Named(ops, i, n, key, account, p.authors[account]) {
      assert AuthorOk(ops, i, n, key, p.authors, account);
    }
  }

  lemma {:induction false} BirthOrStay(window: nat, ops: seq<Op>, i: nat, m: nat, key: Key)
    requires i <= m < |ops| && Born(window, ops, i, key)
    requires m > i ==> !Leaves(window, ops, m, key)
    ensures !Leaves(window, ops, m, key)
    ensures Tells(ops, i, key) && key !in PendingAt(window, ops, i)
  {
  }
}
