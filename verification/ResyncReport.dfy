/**
  What a resync pass of internal/jira/webhooks.go reports of Jira's webhooks, told from their places in
  Jira's list: which are adopted, which are left unmatched and which could not be stored.
*/
module ResyncReport {
  import opened Strings
  import opened WebhookResync

  /** Some active subscription wants this JQL. */
  ghost predicate IsWanted(subs: seq<Subscription>, jql: string) {
    jql != "" && exists i :: 0 <= i < |subs| && ExpectedJql(subs[i]) == jql
  }

  /** An earlier hook with the same JQL, also known only to Jira, could be stored. */
  ghost predicate TakenBefore(hooks: seq<Hook>, local: set<int>, failing: set<int>, i: int)
    requires 0 <= i < |hooks|
  {
    exists j :: 0 <= j < i && hooks[j].jql == hooks[i].jql && hooks[j].id !in local && hooks[j].id !in failing
  }

  datatype Fate = HasRow | Adopted | Unmatched | NotStored

  /** What becomes of the hook at this place. */
  ghost predicate IsFate(hooks: seq<Hook>, local: set<int>, subs: seq<Subscription>, failing: set<int>, i: int,
                         fate: Fate)
    requires 0 <= i < |hooks|
  {
    var hook := hooks[i];
    var free := hook.id !in local && IsWanted(subs, hook.jql) && !TakenBefore(hooks, local, failing, i);
    match fate
    case HasRow => hook.id in local
    case Adopted => free && hook.id !in failing
    case NotStored => free && hook.id in failing
    case Unmatched => hook.id !in local && (!IsWanted(subs, hook.jql) || TakenBefore(hooks, local, failing, i))
  }

  ghost predicate Increasing(places: seq<int>) {
    forall k, m :: 0 <= k < m < |places| ==> places[k] < places[m]
  }

  /** The identifiers are those of the hooks at these places, in Jira's order. */
  ghost predicate Listed(ids: seq<int>, places: seq<int>, hooks: seq<Hook>) {
    && |places| == |ids| && Increasing(places)
    && forall k :: 0 <= k < |ids| ==> 0 <= places[k] < |hooks| && ids[k] == hooks[places[k]].id
  }

  ghost function Fated(hooks: seq<Hook>, local: set<int>, subs: seq<Subscription>, failing: set<int>, fate: Fate)
    : set<int>
  {
    set i | 0 <= i < |hooks| && IsFate(hooks, local, subs, failing, i, fate)
  }

  /** And these are the places of the hooks with this fate. */
  ghost predicate Reports(ids: seq<int>, places: seq<int>, hooks: seq<Hook>, local: set<int>, subs: seq<Subscription>,
                          failing: set<int>, fate: Fate) {
    && Listed(ids, places, hooks)
    && forall i :: i in places <==> i in Fated(hooks, local, subs, failing, fate)
  }

  // ---------------------------------------------------------------- one more hook

  lemma {:induction false} WantedIff(subs: seq<Subscription>, jql: string)
    ensures FirstSubFor(subs, jql).Some? <==> IsWanted(subs, jql)
  {
    var expected := ExpectedJqls(subs);
    assert forall i :: 0 <= i < |subs| ==> expected[i] == ExpectedJql(subs[i]);
    if IsWanted(subs, jql) {
      var i :| 0 <= i < |subs| && ExpectedJql(subs[i]) == jql;
      assert expected[i] == jql;
    }
  }

  /** Some hook with this JQL that only Jira knows could be stored. */
  ghost predicate Claimed(hooks: seq<Hook>, local: set<int>, failing: set<int>, jql: string) {
    exists j :: 0 <= j < |hooks| && hooks[j].jql == jql && hooks[j].id !in local && hooks[j].id !in failing
  }

  lemma {:induction false} ClaimedNext(hooks: seq<Hook>, local: set<int>, failing: set<int>, jql: string)
    requires hooks != []
    ensures var last := hooks[|hooks| - 1];
            Claimed(hooks, local, failing, jql) <==>
              || Claimed(hooks[..|hooks| - 1], local, failing, jql)
              || (last.jql == jql && last.id !in local && last.id !in failing)
  {
    assert forall j :: 0 <= j < |hooks| - 1 ==> hooks[..|hooks| - 1][j] == hooks[j];
  }

  lemma {:induction false} ClaimStep(p: Progress, hook: Hook, local: set<int>, subs: seq<Subscription>,
                                     failing: set<int>, jql: string)
    ensures jql in Consider(p, hook, local, subs, failing).claimed <==>
              || jql in p.claimed
              || (hook.jql == jql && hook.id !in local && hook.id !in failing && FirstSubFor(subs, jql).Some?)
  {
  }

  /** A JQL is claimed once a hook that wants it could be stored. */
  lemma {:induction false} ClaimedIff(hooks: seq<Hook>, local: set<int>, subs: seq<Subscription>, failing: set<int>,
                                      jql: string)
    ensures jql in ConsiderAll(hooks, local, subs, failing).claimed <==>
              IsWanted(subs, jql) && Claimed(hooks, local, failing, jql)
    decreases |hooks|
  {
    if hooks == [] {
    } else {
      var n := |hooks| - 1;
      ClaimedIff(hooks[..n], local, subs, failing, jql);
      ClaimedNext(hooks, local, failing, jql);
      WantedIff(subs, jql);
      ClaimStep(ConsiderAll(hooks[..n], local, subs, failing), hooks[n], local, subs, failing, jql);
    }
  }

  lemma {:induction false} TakenIff(hooks: seq<Hook>, local: set<int>, subs: seq<Subscription>, failing: set<int>)
    requires hooks != []
    ensures var n := |hooks| - 1;
            hooks[n].jql in ConsiderAll(hooks[..n], local, subs, failing).claimed <==>
              IsWanted(subs, hooks[n].jql) && TakenBefore(hooks, local, failing, n)
  {
    var n := |hooks| - 1;
    ClaimedIff(hooks[..n], local, subs, failing, hooks[n].jql);
    assert forall j :: 0 <= j < n ==> hooks[..n][j] == hooks[j];
  }

  lemma {:induction false} FateStays(hooks: seq<Hook>, local: set<int>, subs: seq<Subscription>, failing: set<int>,
                                     i: int, fate: Fate)
    requires 0 <= i < |hooks| - 1
    ensures IsFate(hooks[..|hooks| - 1], local, subs, failing, i, fate) <==>
            IsFate(hooks, local, subs, failing, i, fate)
  {
    var init := hooks[..|hooks| - 1];
    assert forall j :: 0 <= j <= i ==> init[j] == hooks[j];
  }

  /** The turn of the loop for the last hook. */
  lemma {:induction false} LastTurn(hooks: seq<Hook>, local: set<int>, subs: seq<Subscription>, failing: set<int>)
    requires hooks != []
    ensures var n := |hooks| - 1;
            var p, p' := ConsiderAll(hooks[..n], local, subs, failing), ConsiderAll(hooks, local, subs, failing);
            && IdsOf(p'.adopted) == IdsOf(p.adopted)
                 + (if IsFate(hooks, local, subs, failing, n, Adopted) then [hooks[n].id] else [])
            && p'.unmatched == p.unmatched
                 + if IsFate(hooks, local, subs, failing, n, Unmatched) then [hooks[n].id] else []
  {
    var n := |hooks| - 1;
    var p := ConsiderAll(hooks[..n], local, subs, failing);
    TakenIff(hooks, local, subs, failing);
    WantedIff(subs, hooks[n].jql);
    if FirstSubFor(subs, hooks[n].jql).Some? {
      NewRowsNext(p.adopted, Adoption(hooks[n], FirstSubFor(subs, hooks[n].jql).value), 0);
    }
    assert IdsOf(p.adopted) + [] == IdsOf(p.adopted) && p.unmatched + [] == p.unmatched;
  }

  lemma {:induction false} ListedNext(ids: seq<int>, places: seq<int>, hooks: seq<Hook>, here: bool)
    returns (places': seq<int>)
    requires hooks != [] && Listed(ids, places, hooks[..|hooks| - 1])
    ensures var n := |hooks| - 1;
            && Listed(ids + if here then [hooks[n].id] else [], places', hooks)
            && forall i :: i in places' <==> i in places || (here && i == n)
    ensures |hooks| - 1 !in places
  {
    var n := |hooks| - 1;
    assert forall k :: 0 <= k < |places| ==> hooks[..n][places[k]] == hooks[places[k]];
    if here {
      places' := places + [n];
    } else {
      places' := places;
      assert ids + [] == ids;
    }
  }

  lemma {:induction false} OneMoreReported(ids: seq<int>, places: seq<int>, hooks: seq<Hook>, local: set<int>,
                                           subs: seq<Subscription>, failing: set<int>, fate: Fate)
    returns (places': seq<int>)
    requires hooks != [] && Reports(ids, places, hooks[..|hooks| - 1], local, subs, failing, fate)
    ensures var n := |hooks| - 1;
            Reports(ids + if IsFate(hooks, local, subs, failing, n, fate) then [hooks[n].id] else [], places',
                    hooks, local, subs, failing, fate)
  {
    var n := |hooks| - 1;
    FatedNext(hooks, local, subs, failing, fate);
    places' := ListedNext(ids, places, hooks, IsFate(hooks, local, subs, failing, n, fate));
  }

  lemma {:induction false} FatedNext(hooks: seq<Hook>, local: set<int>, subs: seq<Subscription>, failing: set<int>,
                                     fate: Fate)
    requires hooks != []
    ensures var n := |hooks| - 1;
            Fated(hooks, local, subs, failing, fate)
            == Fated(hooks[..n], local, subs, failing, fate)
               + if IsFate(hooks, local, subs, failing, n, fate) then {n} else {}
  {
    forall i | 0 <= i < |hooks| - 1
      ensures IsFate(hooks[..|hooks| - 1], local, subs, failing, i, fate) <==>
              IsFate(hooks, local, subs, failing, i, fate) {
      FateStays(hooks, local, subs, failing, i, fate);
    }
  }

  lemma {:induction false} PassReports(hooks: seq<Hook>, local: set<int>, subs: seq<Subscription>, failing: set<int>)
    returns (adoptedAt: seq<int>, unmatchedAt: seq<int>)
    ensures var p := ConsiderAll(hooks, local, subs, failing);
            && Reports(IdsOf(p.adopted), adoptedAt, hooks, local, subs, failing, Adopted)
            && Reports(p.unmatched, unmatchedAt, hooks, local, subs, failing, Unmatched)
    decreases |hooks|
  {
    if hooks == [] {
      adoptedAt, unmatchedAt := [], [];
    } else {
      var n := |hooks| - 1;
      var p := ConsiderAll(hooks[..n], local, subs, failing);
      var a, u := PassReports(hooks[..n], local, subs, failing);
      LastTurn(hooks, local, subs, failing);
      adoptedAt := OneMoreReported(IdsOf(p.adopted), a, hooks, local, subs, failing, Adopted);
      unmatchedAt := OneMoreReported(p.unmatched, u, hooks, local, subs, failing, Unmatched);
    }
  }

  // ---------------------------------------------------------------- what is reported

  /** Every hook has exactly one fate: known, adopted, unmatched, or not stored. */
  lemma {:induction false} OneFateEach(hooks: seq<Hook>, local: set<int>, subs: seq<Subscription>, failing: set<int>,
                                       i: int, a: Fate, b: Fate)
    requires 0 <= i < |hooks|
    ensures exists fate :: IsFate(hooks, local, subs, failing, i, fate)
    ensures IsFate(hooks, local, subs, failing, i, a) && IsFate(hooks, local, subs, failing, i, b) ==> a == b
  {
    assert IsFate(hooks, local, subs, failing, i, HasRow) || IsFate(hooks, local, subs, failing, i, Adopted)
           || IsFate(hooks, local, subs, failing, i, Unmatched) || IsFate(hooks, local, subs, failing, i, NotStored);
  }

  lemma {:induction false} ListedIds(ids: seq<int>, places: seq<int>, hooks: seq<Hook>, id: int)
    requires Listed(ids, places, hooks)
    ensures id in ids <==> exists i :: i in places && 0 <= i < |hooks| && hooks[i].id == id
  {
    if id in ids {
      var k :| 0 <= k < |ids| && ids[k] == id;
      assert places[k] in places && hooks[places[k]].id == id;
    }
    if i :| i in places && 0 <= i < |hooks| && hooks[i].id == id {
      var k :| 0 <= k < |places| && places[k] == i;
      assert ids[k] == id;
    }
  }

  lemma {:induction false} ListedOnce(ids: seq<int>, places: seq<int>, hooks: seq<Hook>)
    requires DistinctHooks(hooks) && Listed(ids, places, hooks)
    ensures forall k, m :: 0 <= k < m < |ids| ==> ids[k] != ids[m]
  {
    forall k, m | 0 <= k < m < |ids| ensures ids[k] != ids[m] {
      assert places[k] < places[m];
    }
  }

  lemma {:induction false} ReportedAre(ids: seq<int>, places: seq<int>, hooks: seq<Hook>, local: set<int>,
                                       subs: seq<Subscription>, failing: set<int>, fate: Fate, id: int)
    requires Reports(ids, places, hooks, local, subs, failing, fate)
    ensures id in ids <==>
              exists i :: 0 <= i < |hooks| && hooks[i].id == id && IsFate(hooks, local, subs, failing, i, fate)
  {
    ListedIds(ids, places, hooks, id);
    assert forall i :: i in places <==> 0 <= i < |hooks| && IsFate(hooks, local, subs, failing, i, fate) by {
      assert forall i :: i in places <==> i in Fated(hooks, local, subs, failing, fate);
    }
  }

  /** A pass reports as unmatched, in Jira's order and each once, exactly the hooks that have no row and
      whose JQL no active subscription wants, or an earlier hook with the same JQL has been adopted for;
      and as adopted exactly those that have no row, are wanted, could be stored, and come first among
      such. */
  lemma {:induction false} UnmatchedIff(hooks: seq<Hook>, local: set<int>, subs: seq<Subscription>, failing: set<int>)
    requires DistinctHooks(hooks)
    ensures var unmatched := ConsiderAll(hooks, local, subs, failing).unmatched;
            && (forall k, m :: 0 <= k < m < |unmatched| ==> unmatched[k] != unmatched[m])
            && (forall id :: id in unmatched <==>
                  exists i :: 0 <= i < |hooks| && hooks[i].id == id && id !in local
                    && (!IsWanted(subs, hooks[i].jql) || TakenBefore(hooks, local, failing, i)))
            && exists places :: Reports(unmatched, places, hooks, local, subs, failing, Unmatched)
    ensures var adopted := IdsOf(ConsiderAll(hooks, local, subs, failing).adopted);
            && (forall k, m :: 0 <= k < m < |adopted| ==> adopted[k] != adopted[m])
            && (forall id :: id in adopted <==>
                  exists i :: 0 <= i < |hooks| && hooks[i].id == id && id !in local && id !in failing
                    && IsWanted(subs, hooks[i].jql) && !TakenBefore(hooks, local, failing, i))
            && exists places :: Reports(adopted, places, hooks, local, subs, failing, Adopted)
  {
    var p := ConsiderAll(hooks, local, subs, failing);
    var a, u := PassReports(hooks, local, subs, failing);
    ListedOnce(IdsOf(p.adopted), a, hooks);
    ListedOnce(p.unmatched, u, hooks);
    forall id { ReportedAre(IdsOf(p.adopted), a, hooks, local, subs, failing, Adopted, id); }
    forall id { ReportedAre(p.unmatched, u, hooks, local, subs, failing, Unmatched, id); }
  }

  // ---------------------------------------------------------------- when two subscriptions want the same hook

  predicate NoSpaces(s: string) { forall i :: 0 <= i < |s| ==> !IsSpace(s[i]) }

  /** No two spaces are as far apart as those of the ORDER BY clause. */
  ghost predicate NoClauseGap(text: string) {
    forall i, j :: 0 <= i && j == i + 6 && j < |text| ==> !(text[i] == ' ' && text[j] == ' ')
  }

  lemma {:induction false} IsKept(text: string)
    requires NoClauseGap(text) && text != [] && !IsSpace(text[0]) && !IsSpace(text[|text| - 1])
    ensures SanitizeWebhookJQL(text) == text
  {
    TrimmedIsFixed(text);
    var u := ToUpper(text);
    var i := Index(u, ORDER_BY);
    if i != -1 {
      assert ORDER_BY[0] == ' ' && ORDER_BY[6] == ' ';
      assert u[i..i + |ORDER_BY|][0] == u[i] && u[i..i + |ORDER_BY|][6] == u[i + 6];
      SpacesAreSpaces(text, i);
      SpacesAreSpaces(text, i + 6);
    }
  }

  lemma {:induction false} SpacesAreSpaces(text: string, i: nat)
    requires i < |text|
    ensures ToUpper(text)[i] == ' ' <==> text[i] == ' '
  {
  }

  lemma {:induction false} QuotedBodyShape(key: string)
    requires NoSpaces(key)
    ensures NoSpaces(QuotedBody(key)) && (key == [] <==> QuotedBody(key) == [])
  {
    if key == [] {
    } else {
      QuotedBodyShape(key[1..]);
    }
  }

  lemma {:induction false} QuotedBodyIsInjective(a: string, b: string)
    requires QuotedBody(a) == QuotedBody(b)
    ensures a == b
  {
    if a == [] || b == [] {
    } else {
      FirstQuoted(a);
      FirstQuoted(b);
      QuotedBodyIsInjective(a[1..], b[1..]);
      assert a == [a[0]] + a[1..] && b == [b[0]] + b[1..];
    }
  }

  /** The first character can be read off, and what is left is the rest quoted. */
  lemma {:induction false} FirstQuoted(a: string)
    requires a != []
    ensures var q := QuotedBody(a);
            if q[0] == '\\' then |q| > 1 && a[0] == q[1] && q[2..] == QuotedBody(a[1..])
            else a[0] == q[0] && q[1..] == QuotedBody(a[1..])
  {
  }

  lemma {:induction false} QuotedKeyIsKept(prefix: string, key: string)
    requires prefix == "project = " || prefix == "issuekey = "
    requires NoSpaces(key)
    ensures SanitizeWebhookJQL(prefix + Quoted(key)) == prefix + Quoted(key)
  {
    QuotedBodyShape(key);
    var text := prefix + Quoted(key);
    forall i | |prefix| <= i < |text| ensures !IsSpace(text[i]) {
      assert text[i] == Quoted(key)[i - |prefix|];
    }
    IsKept(text);
  }

  lemma {:induction false} AssignedIsKept()
    ensures SanitizeWebhookJQL("assignee = currentUser()") == "assignee = currentUser()"
  {
    IsKept("assignee = currentUser()");
  }

  lemma {:induction false} InvolvedIsKept()
    ensures SanitizeWebhookJQL(INVOLVED) == INVOLVED
  {
    var a, b, c := "(assignee = currentUser()", " OR ", "reporter = currentUser())";
    var text := INVOLVED;
    assert text == a + b + c;
    assert text[0] == a[0] && text[53] == c[24];
    forall i, j | 0 <= i && j == i + 6 && j < |text| ensures !(text[i] == ' ' && text[j] == ' ') {
      assert i < 25 ==> text[i] == a[i];
      assert i >= 29 ==> text[i] == c[i - 29];
      assert j < 25 ==> text[j] == a[j];
      assert j >= 29 ==> text[j] == c[j - 29];
    }
    IsKept(text);
  }

  /** The JQL of a subscription, spelled out, for keys without white space. */
  lemma {:induction false} ExpectedJqlIs(sub: Subscription)
    requires NoSpaces(sub.projectKey) && NoSpaces(sub.issueKey)
    ensures ExpectedJql(sub) ==
            match sub.kind
            case MyNewIssues => "assignee = currentUser()"
            case MyMentions => "(assignee = currentUser()" + " OR " + "reporter = currentUser())"
            case ProjectUpdates => if sub.projectKey == "" then "" else "project = " + Quoted(sub.projectKey)
            case IssueUpdates => if sub.issueKey == "" then "" else "issuekey = " + Quoted(sub.issueKey)
            case MyWatched => ""
            case FilterUpdates => ""
  {
    AssignedIsKept();
    InvolvedIsKept();
    QuotedKeyIsKept("project = ", sub.projectKey);
    QuotedKeyIsKept("issuekey = ", sub.issueKey);
  }

  /** What a subscription wants to be told about, if a webhook can tell it. */
  datatype Scope = Assigned | Involved | Project(key: string) | OneIssue(key: string) | Nothing

  function ScopeOf(sub: Subscription): Scope {
    match sub.kind
    case MyNewIssues => Assigned
    case MyMentions => Involved
    case ProjectUpdates => if sub.projectKey == "" then Nothing else Project(sub.projectKey)
    case IssueUpdates => if sub.issueKey == "" then Nothing else OneIssue(sub.issueKey)
    case MyWatched => Nothing
    case FilterUpdates => Nothing
  }

  /** Two subscriptions want the same webhook exactly when they are about the same thing, and none when a
      webhook cannot tell it. */
  lemma {:induction false} SameHookIff(a: Subscription, b: Subscription)
    requires NoSpaces(a.projectKey) && NoSpaces(a.issueKey) && NoSpaces(b.projectKey) && NoSpaces(b.issueKey)
    ensures ExpectedJql(a) == ExpectedJql(b) <==> ScopeOf(a) == ScopeOf(b)
    ensures ExpectedJql(a) == "" <==> ScopeOf(a) == Nothing
  {
    ExpectedJqlIs(a);
    ExpectedJqlIs(b);
    FirstLetters(a);
    FirstLetters(b);
    if ScopeOf(a).Project? && ScopeOf(b).Project? && ExpectedJql(a) == ExpectedJql(b) {
      SameQuoted("project = ", a.projectKey, b.projectKey);
    }
    if ScopeOf(a).OneIssue? && ScopeOf(b).OneIssue? && ExpectedJql(a) == ExpectedJql(b) {
      SameQuoted("issuekey = ", a.issueKey, b.issueKey);
    }
  }

  lemma {:induction false} FirstLetters(sub: Subscription)
    requires NoSpaces(sub.projectKey) && NoSpaces(sub.issueKey)
    ensures var jql := ExpectedJql(sub);
            match ScopeOf(sub)
            case Assigned => jql != "" && jql[0] == 'a'
            case Involved => jql != "" && jql[0] == '('
            case Project(_) => jql != "" && jql[0] == 'p'
            case OneIssue(_) => jql != "" && jql[0] == 'i'
            case Nothing => jql == ""
    ensures ScopeOf(sub).Assigned? ==> ExpectedJql(sub) == "assignee = currentUser()"
    ensures ScopeOf(sub).Involved? ==> ExpectedJql(sub) == INVOLVED
  {
    ExpectedJqlIs(sub);
    assert INVOLVED[0] == "(assignee = currentUser()"[0];
  }

  lemma {:induction false} SameQuoted(prefix: string, a: string, b: string)
    requires prefix + Quoted(a) == prefix + Quoted(b)
    ensures a == b
  {
    assert (prefix + Quoted(a))[|prefix|..] == Quoted(a) && (prefix + Quoted(b))[|prefix|..] == Quoted(b);
    assert Quoted(a)[1..|Quoted(a)| - 1] == QuotedBody(a) && Quoted(b)[1..|Quoted(b)| - 1] == QuotedBody(b);
    QuotedBodyIsInjective(a, b);
  }
}
