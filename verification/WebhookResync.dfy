/**
  Reconciliation of Jira's webhook list with the stored registrations, from
  internal/jira/webhooks.go. The rows are those of one user; the subscriptions are its active ones.
*/
module WebhookResync {
  import opened Strings
  import opened Wrappers

  // ---------------------------------------------------------------- the JQL of a subscription

  datatype SubscriptionType = MyNewIssues | MyMentions | MyWatched | ProjectUpdates | IssueUpdates | FilterUpdates

  datatype Subscription = Subscription(id: int, kind: SubscriptionType, projectKey: string, issueKey: string)

  /** A quoted string as the formatter prints it; keys hold no unprintable characters. */
  function Quoted(s: string): string { "\"" + QuotedBody(s) + "\"" }

  function QuotedBody(s: string): string {
    if s == [] then []
    else (if s[0] == '"' || s[0] == '\\' then ['\\', s[0]] else [s[0]]) + QuotedBody(s[1..])
  }

  const INVOLVED := "(assignee = currentUser()" + " OR " + "reporter = currentUser())"

  function SubscriptionWebhookJQL(sub: Subscription): string {
    match sub.kind
    case MyNewIssues => "assignee = currentUser()"
    case MyMentions => INVOLVED
    case ProjectUpdates => if sub.projectKey == "" then "" else "project = " + Quoted(sub.projectKey)
    case IssueUpdates => if sub.issueKey == "" then "" else "issuekey = " + Quoted(sub.issueKey)
    case MyWatched => ""
    case FilterUpdates => ""
  }

  const ORDER_BY := " ORDER BY "

  function SanitizeWebhookJQL(jql: string): string {
    var trimmed := TrimSpace(jql);
    var idx := Index(ToUpper(trimmed), ORDER_BY);
    if idx != -1 then TrimSpace(trimmed[..idx]) else trimmed
  }

  predicate IsSanitized(jql: string) {
    IsTrimmed(jql) && Index(ToUpper(jql), ORDER_BY) == -1
  }

  lemma TrimmedIsFixed(s: string)
    requires IsTrimmed(s)
    ensures TrimSpace(s) == s
  {
  }

  lemma UpperOfSlice(s: string, k: nat, m: nat)
    requires k <= m <= |s|
    ensures ToUpper(s[k..m]) == ToUpper(s)[k..m]
  {
  }

  lemma SliceOfSlice(s: string, k: nat, m: nat, a: nat, b: nat)
    requires k <= m <= |s| && a <= b <= m - k
    ensures s[k..m][a..b] == s[k + a..k + b]
  {
    assert forall i :: 0 <= i < b - a ==> s[k..m][a..b][i] == s[k + a..k + b][i];
  }

  lemma CutIsSanitized(trimmed: string, idx: nat)
    requires idx <= |trimmed| && Index(ToUpper(trimmed), ORDER_BY) == idx
    ensures IsSanitized(TrimSpace(trimmed[..idx]))
  {
    var a, b := TrimSpaceIsInfix(trimmed[..idx]);
    var s := trimmed[..idx][a..b];
    assert s == trimmed[a..b];
    UpperOfSlice(trimmed, a, b);
    NoneBeforeTheFirst(ToUpper(trimmed), ORDER_BY, a, b);
  }

  lemma NoneBeforeTheFirst(text: string, sep: string, a: nat, b: nat)
    requires sep != [] && a <= b <= |text| && b <= Index(text, sep)
    ensures Index(text[a..b], sep) == -1
  {
    var j := Index(text[a..b], sep);
    if j != -1 {
      SliceOfSlice(text, a, b, j, j + |sep|);
      IndexIsFirst(text, sep, a + j);
    }
  }

  lemma SanitizedIsFixed(jql: string)
    requires IsSanitized(jql)
    ensures SanitizeWebhookJQL(jql) == jql
  {
    TrimmedIsFixed(jql);
  }

  /** What is kept is trimmed and holds no " ORDER BY " in any case, and sanitizing again changes
      nothing. */
  lemma {:induction false} SanitizeIsIdempotent(jql: string)
    ensures IsSanitized(SanitizeWebhookJQL(jql))
    ensures SanitizeWebhookJQL(SanitizeWebhookJQL(jql)) == SanitizeWebhookJQL(jql)
  {
    var trimmed := TrimSpace(jql);
    var k, m := TrimSpaceIsInfix(jql);
    var idx := Index(ToUpper(trimmed), ORDER_BY);
    if idx != -1 { CutIsSanitized(trimmed, idx); }
    SanitizedIsFixed(SanitizeWebhookJQL(jql));
  }

  const CLAUSE := "ORDER BY"

  predicate SpaceAround(text: string, i: int) {
    0 < i && i + |CLAUSE| < |text| && text[i - 1] == ' ' && text[i + |CLAUSE|] == ' '
  }

  lemma ClauseWithSpaces(text: string, i: int)
    ensures OccursAt(text, ORDER_BY, i - 1) <==> OccursAt(text, CLAUSE, i) && SpaceAround(text, i)
  {
    assert ORDER_BY == " " + CLAUSE + " ";
    if OccursAt(text, ORDER_BY, i - 1) {
      var t := text[i - 1..i - 1 + |ORDER_BY|];
      assert t[0] == text[i - 1] && t[9] == text[i + 8] && t[1..9] == text[i..i + 8];
      assert ORDER_BY[1..9] == CLAUSE && ORDER_BY[9] == ' ';
    }
    if OccursAt(text, CLAUSE, i) && SpaceAround(text, i) {
      assert text[i - 1..i + 9] == [text[i - 1]] + text[i..i + 8] + [text[i + 8]];
    }
  }

  lemma NoneAtAll(text: string, sep: string)
    requires Index(text, sep) == -1
    ensures forall j :: !OccursAt(text, sep, j)
  {
    forall j ensures !OccursAt(text, sep, j) {
      if OccursAt(text, sep, j) { IndexIsFirst(text, sep, j); }
    }
  }

  /** Occurrences of the clause never overlap, and one is not followed by another at once. */
  lemma NextClauseIsLater(text: string, i: int, j: int)
    requires OccursAt(text, CLAUSE, i) && OccursAt(text, ORDER_BY, j) && i <= j
    ensures i + |CLAUSE| <= j
  {
    assert CLAUSE == ['O', 'R', 'D', 'E', 'R', ' ', 'B', 'Y'];
    forall k | 0 <= k < 8 ensures text[i + k] == CLAUSE[k] {
      assert text[i..i + 8][k] == text[i + k];
    }
    assert text[j..j + |ORDER_BY|][0] == text[j] && text[j..j + |ORDER_BY|][1] == text[j + 1];
    assert ORDER_BY[0] == ' ' && ORDER_BY[1] == 'O';
  }

  lemma UpperKeepsSpaces(s: string)
    ensures forall i :: 0 <= i < |s| ==> (IsSpace(ToUpper(s)[i]) <==> IsSpace(s[i]))
  {
  }

  lemma ClauseEnds(text: string, i: int)
    requires OccursAt(ToUpper(text), CLAUSE, i)
    ensures !IsSpace(text[i]) && !IsSpace(text[i + 7])
  {
    var u := ToUpper(text);
    assert CLAUSE[0] == 'O' && CLAUSE[7] == 'Y';
    assert u[i..i + 8][0] == u[i] && u[i..i + 8][7] == u[i + 7];
    UpperKeepsSpaces(text);
  }

  lemma SliceOccurs(text: string, sep: string, a: nat, b: nat, i: int)
    requires a <= b <= |text| && OccursAt(text, sep, i) && a <= i && i + |sep| <= b
    ensures OccursAt(text[a..b], sep, i - a)
  {
    SliceOfSlice(text, a, b, i - a, i - a + |sep|);
  }

  /** The clause at `i` survives when the text is cut at a later `j` and trimmed. */
  lemma ClauseSurvives(trimmed: string, i: int, j: nat)
    requires j <= |trimmed| && OccursAt(ToUpper(trimmed), CLAUSE, i) && i + |CLAUSE| <= j
    ensures Index(ToUpper(TrimSpace(trimmed[..j])), CLAUSE) != -1
  {
    ClauseEnds(trimmed, i);
    var a, b := TrimmedPrefix(trimmed, j);
    assert trimmed[..j][i] == trimmed[i] && trimmed[..j][i + 7] == trimmed[i + 7];
    UpperOfSlice(trimmed, a, b);
    SliceOccurs(ToUpper(trimmed), CLAUSE, a, b, i);
    IndexIsFirst(ToUpper(TrimSpace(trimmed[..j])), CLAUSE, i - a);
  }

  /** Exactly when sanitizing leaves no ORDER BY in any case: the first one in the trimmed text, if
      any, has a space on either side. A clause at the very start, or one set off by a line break or a
      parenthesis, stays. */
  lemma ClauseIsStrippedIff(jql: string)
    ensures Index(ToUpper(SanitizeWebhookJQL(jql)), CLAUSE) == -1 <==>
              var u := ToUpper(TrimSpace(jql));
              var i := Index(u, CLAUSE);
              i == -1 || SpaceAround(u, i)
  {
    var u := ToUpper(TrimSpace(jql));
    if Index(u, ORDER_BY) == -1 {
      NotCut(jql);
    } else if SpaceAround(u, Index(u, CLAUSE)) {
      CutAtFirst(jql);
    } else {
      CutAtLater(jql);
    }
  }

  lemma NotCut(jql: string)
    requires Index(ToUpper(TrimSpace(jql)), ORDER_BY) == -1
    ensures SanitizeWebhookJQL(jql) == TrimSpace(jql)
    ensures var u := ToUpper(TrimSpace(jql)); Index(u, CLAUSE) != -1 ==> !SpaceAround(u, Index(u, CLAUSE))
  {
    var u := ToUpper(TrimSpace(jql));
    NoneAtAll(u, ORDER_BY);
    ClauseWithSpaces(u, Index(u, CLAUSE));
  }

  /** Where the text is cut, the clause occurs. */
  lemma CutHasClause(u: string)
    requires Index(u, ORDER_BY) != -1
    ensures 0 <= Index(u, CLAUSE) <= Index(u, ORDER_BY) + 1
    ensures SpaceAround(u, Index(u, CLAUSE)) <==> Index(u, CLAUSE) == Index(u, ORDER_BY) + 1
  {
    var i, j := Index(u, CLAUSE), Index(u, ORDER_BY);
    ClauseWithSpaces(u, j + 1);
    IndexIsFirst(u, CLAUSE, j + 1);
    ClauseWithSpaces(u, i);
    if SpaceAround(u, i) { IndexIsFirst(u, ORDER_BY, i - 1); }
  }

  lemma CutAtFirst(jql: string)
    requires var u := ToUpper(TrimSpace(jql)); Index(u, ORDER_BY) != -1 && SpaceAround(u, Index(u, CLAUSE))
    ensures Index(ToUpper(SanitizeWebhookJQL(jql)), CLAUSE) == -1
  {
    var trimmed := TrimSpace(jql);
    CutHasClause(ToUpper(trimmed));
    NoClauseInPrefix(trimmed, Index(ToUpper(trimmed), ORDER_BY));
  }

  lemma TrimmedPrefix(text: string, j: nat) returns (a: nat, b: nat)
    requires j <= |text|
    ensures a <= b <= j && TrimSpace(text[..j]) == text[a..b]
    ensures forall i :: 0 <= i < j && !IsSpace(text[..j][i]) ==> a <= i < b
  {
    a, b := TrimSpaceIsInfix(text[..j]);
    assert text[..j][a..b] == text[a..b];
  }

  lemma NoClauseInPrefix(text: string, j: nat)
    requires j <= |text| && j <= Index(ToUpper(text), CLAUSE)
    ensures Index(ToUpper(TrimSpace(text[..j])), CLAUSE) == -1
  {
    var a, b := TrimmedPrefix(text, j);
    UpperOfSlice(text, a, b);
    NoneBeforeTheFirst(ToUpper(text), CLAUSE, a, b);
  }

  lemma CutAtLater(jql: string)
    requires var u := ToUpper(TrimSpace(jql)); Index(u, ORDER_BY) != -1 && !SpaceAround(u, Index(u, CLAUSE))
    ensures Index(ToUpper(SanitizeWebhookJQL(jql)), CLAUSE) != -1
    ensures Index(ToUpper(TrimSpace(jql)), CLAUSE) != -1
  {
    var u := ToUpper(TrimSpace(jql));
    CutHasClause(u);
    NextClauseIsLater(u, Index(u, CLAUSE), Index(u, ORDER_BY));
    ClauseSurvives(TrimSpace(jql), Index(u, CLAUSE), Index(u, ORDER_BY));
  }

  /** Otherwise the filter itself is kept: everything before the first clause that is set off by spaces. */
  lemma {:induction false} FilterIsKept(filter: string, clause: string, rest: string)
    requires filter != [] && IsTrimmed(filter) && ToUpper(clause) == " ORDER BY "
    requires rest != [] && !IsSpace(rest[|rest| - 1])
    requires Index(ToUpper(filter + clause + rest), " ORDER BY ") == |filter|
    ensures SanitizeWebhookJQL(filter + clause + rest) == filter
  {
    var text := filter + clause + rest;
    assert text[0] == filter[0] && text[|text| - 1] == rest[|rest| - 1];
    TrimmedIsFixed(text);
    TrimmedIsFixed(filter);
    assert text[..|filter|] == filter;
  }

  /** In particular a text that is nothing but the clause keeps it. */
  lemma LeadingOrderByStays(jql: string)
    requires OccursAt(ToUpper(TrimSpace(jql)), CLAUSE, 0)
    ensures Index(ToUpper(SanitizeWebhookJQL(jql)), CLAUSE) != -1
  {
    ClauseIsStrippedIff(jql);
    IndexIsFirst(ToUpper(TrimSpace(jql)), CLAUSE, 0);
  }

  function ExpectedJql(sub: Subscription): string {
    SanitizeWebhookJQL(SubscriptionWebhookJQL(sub))
  }

  // ---------------------------------------------------------------- hooks and rows

  datatype Hook = Hook(id: int, jql: string)

  datatype Registration = Registration(rowId: nat, subscriptionId: int, webhookId: int, jql: string)

  function HookIds(hooks: seq<Hook>): set<int> {
    set h | h in hooks :: h.id
  }

  function LocalIds(rows: seq<Registration>): set<int> {
    set r | r in rows :: r.webhookId
  }

  ghost predicate DistinctHooks(hooks: seq<Hook>) {
    forall i, j :: 0 <= i < j < |hooks| ==> hooks[i].id != hooks[j].id
  }

  /** The JQL of each subscription; "" where no webhook can be registered. */
  function ExpectedJqls(subs: seq<Subscription>): (r: seq<string>)
    ensures |r| == |subs|
  {
    seq(|subs|, i requires 0 <= i < |subs| => ExpectedJql(subs[i]))
  }

  /** The first place of `jql` in the list; never one for "". */
  function FirstPlace(expected: seq<string>, jql: string): (r: Option<nat>)
    ensures r.Some? ==> jql != "" && r.value < |expected| && expected[r.value] == jql
                        && forall j :: 0 <= j < r.value ==> expected[j] != jql
    ensures r.None? ==> jql == "" || jql !in expected
    decreases |expected|
  {
    if jql == "" || expected == [] then None
    else
      var before := FirstPlace(expected[..|expected| - 1], jql);
      if before.Some? then before
      else if expected[|expected| - 1] == jql then Some(|expected| - 1) else None
  }

  /** The first active subscription that wants this JQL. */
  function FirstSubFor(subs: seq<Subscription>, jql: string): Option<Subscription> {
    match FirstPlace(ExpectedJqls(subs), jql)
    case Some(i) => Some(subs[i])
    case None => None
  }

  datatype Adoption = Adoption(hook: Hook, sub: Subscription)

  /** The state of the adoption loop: adopted hooks, unmatched ones, and the JQLs already claimed. */
  datatype Progress = Progress(adopted: seq<Adoption>, unmatched: seq<int>, claimed: set<string>)

  /** One turn of the loop; `failing` are the hooks whose row cannot be created. */
  function Consider(p: Progress, hook: Hook, local: set<int>, subs: seq<Subscription>, failing: set<int>): Progress {
    if hook.id in local then p
    else
      var sub := if hook.jql in p.claimed then None else FirstSubFor(subs, hook.jql);
      match sub
      case None => p.(unmatched := p.unmatched + [hook.id])
      case Some(s) =>
        if hook.id in failing then p
        else p.(adopted := p.adopted + [Adoption(hook, s)], claimed := p.claimed + {hook.jql})
  }

  function ConsiderAll(hooks: seq<Hook>, local: set<int>, subs: seq<Subscription>, failing: set<int>): Progress
    decreases |hooks|
  {
    if hooks == [] then Progress([], [], {})
    else Consider(ConsiderAll(hooks[..|hooks| - 1], local, subs, failing), hooks[|hooks| - 1], local, subs, failing)
  }

  function AdoptedIds(adopted: seq<Adoption>): set<int> {
    set a | a in adopted :: a.hook.id
  }

  // ---------------------------------------------------------------- the method

  /** The stored rows of the user; identifiers come from a counter. */
  class WebhookRepo {
    var rows: seq<Registration>
    var nextId: nat

    ghost predicate Valid()
      reads this
    {
      && (forall r :: r in rows ==> r.rowId < nextId)
      && DistinctRows(rows)
    }

    constructor ()
      ensures Valid() && rows == []
    {
      rows, nextId := [], 0;
    }

    method Create(subscriptionId: int, webhookId: int, jql: string)
      requires Valid()
      modifies this
      ensures Valid() && nextId == old(nextId) + 1
      ensures rows == old(rows) + [Registration(old(nextId), subscriptionId, webhookId, jql)]
    {
      rows := rows + [Registration(nextId, subscriptionId, webhookId, jql)];
      nextId := nextId + 1;
    }

    method Delete(rowId: nat)
      requires Valid()
      modifies this
      ensures Valid() && nextId == old(nextId)
      ensures rows == Without(old(rows), rowId)
    {
      var kept: seq<Registration> := [];
      for i := 0 to |rows|
        invariant kept == Without(rows[..i], rowId)
        invariant rows == old(rows) && nextId == old(nextId)
      {
        assert rows[..i + 1][..i] == rows[..i];
        if rows[i].rowId != rowId {
          kept := kept + [rows[i]];
        }
      }
      assert rows[..|rows|] == rows;
      WithoutKeepsOthers(rows, rowId);
      WithoutKeepsDistinct(rows, rowId);
      rows := kept;
    }
  }

  function Without(rows: seq<Registration>, rowId: nat): seq<Registration>
    decreases |rows|
  {
    if rows == [] then []
    else Without(rows[..|rows| - 1], rowId) + if rows[|rows| - 1].rowId != rowId then [rows[|rows| - 1]] else []
  }

  lemma {:induction false} WithoutKeepsOthers(rows: seq<Registration>, rowId: nat)
    ensures forall r :: r in Without(rows, rowId) <==> r in rows && r.rowId != rowId
    decreases |rows|
  {
    if rows == [] {
    } else {
      var n := |rows| - 1;
      WithoutKeepsOthers(rows[..n], rowId);
      assert rows == rows[..n] + [rows[n]];
    }
  }

  ghost predicate DistinctRows(rows: seq<Registration>) {
    forall i, j :: 0 <= i < j < |rows| ==> rows[i].rowId != rows[j].rowId
  }

  lemma {:induction false} WithoutKeepsDistinct(rows: seq<Registration>, rowId: nat)
    requires DistinctRows(rows)
    ensures DistinctRows(Without(rows, rowId))
    decreases |rows|
  {
    if rows == [] {
    } else {
      var n := |rows| - 1;
      WithoutKeepsDistinct(rows[..n], rowId);
      WithoutKeepsOthers(rows[..n], rowId);
      assert forall r :: r in rows[..n] ==> r.rowId != rows[n].rowId;
    }
  }

  // ---------------------------------------------------------------- what one pass adopts

  ghost predicate AdoptionOk(a: Adoption, hooks: seq<Hook>, local: set<int>, subs: seq<Subscription>,
                             failing: set<int>) {
    a.hook in hooks && a.hook.id !in local && a.hook.id !in failing && FirstSubFor(subs, a.hook.jql) == Some(a.sub)
  }

  ghost predicate OneAdoptionPerJql(adopted: seq<Adoption>) {
    forall i, j :: 0 <= i < j < |adopted| ==> adopted[i].hook.jql != adopted[j].hook.jql
  }

  lemma {:induction false} AdoptionsAreSound(hooks: seq<Hook>, local: set<int>, subs: seq<Subscription>,
                                             failing: set<int>)
    ensures var p := ConsiderAll(hooks, local, subs, failing);
            && (forall a :: a in p.adopted ==> AdoptionOk(a, hooks, local, subs, failing))
            && Claims(p.adopted, p.claimed) && OneAdoptionPerJql(p.adopted)
    decreases |hooks|
  {
    if hooks == [] {
    } else {
      var n := |hooks| - 1;
      var init := hooks[..n];
      AdoptionsAreSound(init, local, subs, failing);
      assert hooks == init + [hooks[n]];
      var p, p' := ConsiderAll(init, local, subs, failing), ConsiderAll(hooks, local, subs, failing);
      assert forall a :: a in p.adopted ==> AdoptionOk(a, hooks, local, subs, failing);
      if p'.adopted != p.adopted {
        var a := p'.adopted[|p.adopted|];
        assert p'.adopted == p.adopted + [a] && p'.claimed == p.claimed + {a.hook.jql};
        OneMoreAdopted(p.adopted, p.claimed, a);
      }
    }
  }

  ghost predicate Claims(adopted: seq<Adoption>, claimed: set<string>) {
    forall q :: q in claimed <==> exists a :: a in adopted && a.hook.jql == q
  }

  lemma OneMoreAdopted(adopted: seq<Adoption>, claimed: set<string>, a: Adoption)
    requires Claims(adopted, claimed) && OneAdoptionPerJql(adopted) && a.hook.jql !in claimed
    ensures Claims(adopted + [a], claimed + {a.hook.jql}) && OneAdoptionPerJql(adopted + [a])
  {
    var all := adopted + [a];
    assert a in all && forall b :: b in adopted ==> b in all;
    forall i, j | 0 <= i < j < |all| ensures all[i].hook.jql != all[j].hook.jql {
      assert j == |adopted| ==> adopted[i] in adopted;
    }
  }

  /** One pass assigns adopted hooks to different subscriptions, each to the first active one whose
      JQL is the hook's own, whatever row creations fail. */
  lemma {:induction false} AdoptionIsInjective(hooks: seq<Hook>, local: set<int>, subs: seq<Subscription>,
                                               failing: set<int>, i: nat, j: nat)
    requires i < j < |ConsiderAll(hooks, local, subs, failing).adopted|
    ensures var adopted := ConsiderAll(hooks, local, subs, failing).adopted;
            && adopted[i].sub != adopted[j].sub
            && adopted[i].sub in subs && ExpectedJql(adopted[i].sub) == adopted[i].hook.jql
            && FirstSubFor(subs, adopted[i].hook.jql) == Some(adopted[i].sub)
  {
    AdoptionsAreSound(hooks, local, subs, failing);
    var adopted := ConsiderAll(hooks, local, subs, failing).adopted;
    assert AdoptionOk(adopted[i], hooks, local, subs, failing) && AdoptionOk(adopted[j], hooks, local, subs, failing);
    WantedJql(subs, adopted[i].hook.jql);
    WantedJql(subs, adopted[j].hook.jql);
  }

  lemma WantedJql(subs: seq<Subscription>, jql: string)
    ensures FirstSubFor(subs, jql).Some? ==>
              FirstSubFor(subs, jql).value in subs && ExpectedJql(FirstSubFor(subs, jql).value) == jql
  {
    var place := FirstPlace(ExpectedJqls(subs), jql);
    if place.Some? { assert ExpectedJqls(subs)[place.value] == ExpectedJql(subs[place.value]); }
  }

  // ---------------------------------------------------------------- repeated passes

  /** The hooks with this JQL that only Jira knows, in Jira's order. */
  function Pending(hooks: seq<Hook>, local: set<int>, jql: string): seq<int>
    decreases |hooks|
  {
    if hooks == [] then []
    else
      var last := hooks[|hooks| - 1];
      Pending(hooks[..|hooks| - 1], local, jql) + if last.jql == jql && last.id !in local then [last.id] else []
  }

  /** With no failure, the first pending hook of each wanted JQL is adopted, and no other. */
  lemma {:induction false} FirstPendingIsAdopted(hooks: seq<Hook>, local: set<int>, subs: seq<Subscription>,
                                                 jql: string)
    ensures var p, pending := ConsiderAll(hooks, local, subs, {}), Pending(hooks, local, jql);
            if FirstSubFor(subs, jql).Some? && pending != []
            then && jql in p.claimed
                 && forall a :: a in p.adopted && a.hook.jql == jql <==>
                      a == Adoption(Hook(pending[0], jql), FirstSubFor(subs, jql).value)
            else jql !in p.claimed && forall a :: a in p.adopted ==> a.hook.jql != jql
    decreases |hooks|
  {
    if hooks == [] {
    } else {
      var n := |hooks| - 1;
      var init := hooks[..n];
      FirstPendingIsAdopted(init, local, subs, jql);
      var p, p' := ConsiderAll(init, local, subs, {}), ConsiderAll(hooks, local, subs, {});
      if p'.adopted != p.adopted {
        var a := p'.adopted[|p.adopted|];
        assert p'.adopted == p.adopted + [a];
        assert forall b :: b in p'.adopted <==> b in p.adopted || b == a;
      }
    }
  }

  /** The webhook IDs with a local row after a pass without failures. */
  function NextLocal(hooks: seq<Hook>, local: set<int>, subs: seq<Subscription>): set<int> {
    local * HookIds(hooks) + AdoptedIds(ConsiderAll(hooks, local, subs, {}).adopted)
  }

  lemma {:induction false} PendingAfter(hooks: seq<Hook>, local: set<int>, local': set<int>, jql: string,
                                        gone: Option<int>)
    requires DistinctHooks(hooks)
    requires forall h :: h in hooks && h.jql == jql ==> (h.id in local' <==> h.id in local || Some(h.id) == gone)
    requires gone.Some? ==> Pending(hooks, local, jql) == [] || gone.value == Pending(hooks, local, jql)[0]
    ensures Pending(hooks, local', jql) ==
            if gone.Some? && Pending(hooks, local, jql) != [] then Pending(hooks, local, jql)[1..]
            else Pending(hooks, local, jql)
    decreases |hooks|
  {
    if hooks == [] {
    } else {
      var n := |hooks| - 1;
      assert hooks == hooks[..n] + [hooks[n]];
      PendingAfter(hooks[..n], local, local', jql, gone);
      LaterHookIsNew(hooks, local, jql);
      OnePendingMore(Pending(hooks[..n], local, jql), hooks[n].id, hooks[n].jql == jql && hooks[n].id !in local,
                     hooks[n].jql == jql && hooks[n].id !in local', gone);
    }
  }

  /** The last hook of a list, pending or not, before and after one is gone. */
  lemma OnePendingMore(pending: seq<int>, id: int, before: bool, after: bool, gone: Option<int>)
    requires id !in pending && (after <==> before && Some(id) != gone)
    requires var all := pending + if before then [id] else [];
             gone.Some? ==> all == [] || gone.value == all[0]
    ensures var all := pending + if before then [id] else [];
            var left := if gone.Some? && pending != [] then pending[1..] else pending;
            left + (if after then [id] else []) == if gone.Some? && all != [] then all[1..] else all
  {
    if pending != [] { assert pending[0] in pending; }
  }

  lemma LaterHookIsNew(hooks: seq<Hook>, local: set<int>, jql: string)
    requires DistinctHooks(hooks) && hooks != []
    ensures hooks[|hooks| - 1].id !in Pending(hooks[..|hooks| - 1], local, jql)
  {
    var n := |hooks| - 1;
    PendingAreHooks(hooks[..n], local, jql);
    forall id | id in Pending(hooks[..n], local, jql) ensures id != hooks[n].id {
      var h :| h in hooks[..n] && h.id == id;
      var i :| 0 <= i < n && hooks[..n][i] == h;
      assert hooks[i].id != hooks[n].id;
    }
  }

  lemma {:induction false} PendingAreHooks(hooks: seq<Hook>, local: set<int>, jql: string)
    ensures forall id :: id in Pending(hooks, local, jql) ==>
            id !in local && exists h :: h in hooks && h.id == id && h.jql == jql
    decreases |hooks|
  {
    if hooks == [] {
    } else {
      var n := |hooks| - 1;
      PendingAreHooks(hooks[..n], local, jql);
      assert hooks == hooks[..n] + [hooks[n]];
      assert hooks[n] in hooks;
    }
  }

  lemma PassShrinksPending(hooks: seq<Hook>, local: set<int>, subs: seq<Subscription>, jql: string)
    requires DistinctHooks(hooks)
    ensures Pending(hooks, NextLocal(hooks, local, subs), jql)
         == Left(Pending(hooks, local, jql), FirstSubFor(subs, jql).Some?, 1)
  {
    var adopted, pending := ConsiderAll(hooks, local, subs, {}).adopted, Pending(hooks, local, jql);
    FirstPendingIsAdopted(hooks, local, subs, jql);
    AdoptionsAreSound(hooks, local, subs, {});
    var gone := if FirstSubFor(subs, jql).Some? && pending != [] then Some(pending[0]) else None;
    var local' := NextLocal(hooks, local, subs);
    forall h | h in hooks && h.jql == jql ensures h.id in local' <==> h.id in local || Some(h.id) == gone {
      assert h.id in HookIds(hooks);
      if h.id in AdoptedIds(adopted) {
        var a :| a in adopted && a.hook.id == h.id;
        assert AdoptionOk(a, hooks, local, subs, {});
        SameIdSameHook(hooks, a.hook, h);
      }
      if Some(h.id) == gone {
        assert Adoption(Hook(h.id, jql), FirstSubFor(subs, jql).value) in adopted;
      }
    }
    PendingAfter(hooks, local, local', jql, gone);
  }

  lemma SameIdSameHook(hooks: seq<Hook>, g: Hook, h: Hook)
    requires DistinctHooks(hooks) && g in hooks && h in hooks && g.id == h.id
    ensures g == h
  {
    var i :| 0 <= i < |hooks| && hooks[i] == g;
    var j :| 0 <= j < |hooks| && hooks[j] == h;
  }

  /** The local webhook IDs after `n` passes over an unchanged Jira list. */
  function LocalAfter(hooks: seq<Hook>, local: set<int>, subs: seq<Subscription>, n: nat): set<int> {
    if n == 0 then local else NextLocal(hooks, LocalAfter(hooks, local, subs, n - 1), subs)
  }

  /** A pass leaves no local webhook that Jira does not have. */
  lemma LocalWithinJira(hooks: seq<Hook>, local: set<int>, subs: seq<Subscription>)
    ensures NextLocal(hooks, local, subs) <= HookIds(hooks)
  {
    AdoptionsAreSound(hooks, local, subs, {});
    var adopted := ConsiderAll(hooks, local, subs, {}).adopted;
    forall id | id in AdoptedIds(adopted) ensures id in HookIds(hooks) {
      var a :| a in adopted && a.hook.id == id;
      assert AdoptionOk(a, hooks, local, subs, {});
    }
  }

  /** What is left of a list after `n` passes, each of which takes its head if it is wanted. */
  function Left(pending: seq<int>, wanted: bool, n: nat): seq<int> {
    if !wanted then pending else if n <= |pending| then pending[n..] else []
  }

  lemma LeftOfLeft(pending: seq<int>, wanted: bool, n: nat)
    ensures Left(Left(pending, wanted, n), wanted, 1) == Left(pending, wanted, n + 1)
  {
    if wanted && n < |pending| { assert pending[n..][1..] == pending[n + 1..]; }
  }

  /** Repeating the pass takes in exactly one more hook of every wanted JQL each time, in Jira's
      order, until only hooks no active subscription wants are left; those are never touched. */
  lemma {:induction false} PassesConverge(hooks: seq<Hook>, local: set<int>, subs: seq<Subscription>, n: nat,
                                          jql: string)
    requires DistinctHooks(hooks)
    ensures Pending(hooks, LocalAfter(hooks, local, subs, n), jql)
         == Left(Pending(hooks, local, jql), FirstSubFor(subs, jql).Some?, n)
    decreases n
  {
    if n == 0 {
    } else {
      var before := LocalAfter(hooks, local, subs, n - 1);
      PassesConverge(hooks, local, subs, n - 1, jql);
      PassShrinksPending(hooks, before, subs, jql);
      LeftOfLeft(Pending(hooks, local, jql), FirstSubFor(subs, jql).Some?, n - 1);
      LocalAfterNext(hooks, local, subs, n);
    }
  }

  lemma LocalAfterNext(hooks: seq<Hook>, local: set<int>, subs: seq<Subscription>, n: nat)
    requires n > 0
    ensures LocalAfter(hooks, local, subs, n) == NextLocal(hooks, LocalAfter(hooks, local, subs, n - 1), subs)
  {
  }

  // ---------------------------------------------------------------- the pass, as the code runs it

  datatype ResyncResult = ResyncResult(jiraCount: nat, localCount: nat,
                                       adopted: seq<int>, unmatched: seq<int>, droppedLocal: seq<int>)

  function IdsOf(adopted: seq<Adoption>): seq<int> {
    seq(|adopted|, i requires 0 <= i < |adopted| => adopted[i].hook.id)
  }

  /** The rows written for the adopted hooks, with consecutive row identifiers. */
  function NewRows(adopted: seq<Adoption>, base: nat): seq<Registration> {
    seq(|adopted|, i requires 0 <= i < |adopted| =>
      Registration(base + i, adopted[i].sub.id, adopted[i].hook.id, adopted[i].hook.jql))
  }

  lemma NewRowsNext(adopted: seq<Adoption>, a: Adoption, base: nat)
    ensures NewRows(adopted + [a], base)
         == NewRows(adopted, base) + [Registration(base + |adopted|, a.sub.id, a.hook.id, a.hook.jql)]
    ensures IdsOf(adopted + [a]) == IdsOf(adopted) + [a.hook.id]
  {
  }

  /** The rows a pass drops: those Jira no longer has, unless the deletion fails. */
  function Dropped(rows: seq<Registration>, hooks: seq<Hook>, undeletable: set<nat>): seq<Registration>
    decreases |rows|
  {
    if rows == [] then []
    else
      var last := rows[|rows| - 1];
      Dropped(rows[..|rows| - 1], hooks, undeletable)
      + if last.webhookId !in HookIds(hooks) && last.rowId !in undeletable then [last] else []
  }

  function WebhookIdsOf(rows: seq<Registration>): seq<int> {
    seq(|rows|, i requires 0 <= i < |rows| => rows[i].webhookId)
  }

  lemma {:induction false} DroppedAre(rows: seq<Registration>, hooks: seq<Hook>, undeletable: set<nat>)
    ensures forall r :: r in Dropped(rows, hooks, undeletable) <==>
              r in rows && r.webhookId !in HookIds(hooks) && r.rowId !in undeletable
    decreases |rows|
  {
    if rows == [] {
    } else {
      DroppedAre(rows[..|rows| - 1], hooks, undeletable);
      assert rows == rows[..|rows| - 1] + [rows[|rows| - 1]];
    }
  }

  /** The index of the first `n` subscriptions. */
  ghost predicate Indexes(subByJql: map<string, Subscription>, subs: seq<Subscription>, expected: seq<string>, n: nat)
    requires |expected| == |subs| && n <= |subs|
  {
    && (forall q :: q in subByJql <==> FirstPlace(expected[..n], q).Some?)
    && (forall q :: q in subByJql ==> subByJql[q] == subs[FirstPlace(expected[..n], q).value])
  }

  lemma FirstPlaceNext(expected: seq<string>, i: nat, q: string)
    requires i < |expected|
    ensures FirstPlace(expected[..i + 1], q) ==
              if FirstPlace(expected[..i], q).None? && q != "" && q == expected[i] then Some(i)
              else FirstPlace(expected[..i], q)
  {
    assert expected[..i + 1][..i] == expected[..i];
  }

  lemma IndexNext(index: map<string, Subscription>, subs: seq<Subscription>, expected: seq<string>, i: nat)
    requires |expected| == |subs| && i < |subs| && Indexes(index, subs, expected, i)
    ensures Indexes(if expected[i] != "" && expected[i] !in index then index[expected[i] := subs[i]] else index,
                    subs, expected, i + 1)
  {
    var next := if expected[i] != "" && expected[i] !in index then index[expected[i] := subs[i]] else index;
    forall q ensures q in next <==> FirstPlace(expected[..i + 1], q).Some? {
      FirstPlaceNext(expected, i, q);
    }
    forall q | q in next ensures next[q] == subs[FirstPlace(expected[..i + 1], q).value] {
      FirstPlaceNext(expected, i, q);
    }
  }

  /** Keeps, of the subscriptions seen so far, the first for each JQL. */
  method IndexByJql(subs: seq<Subscription>, expected: seq<string>) returns (subByJql: map<string, Subscription>)
    requires |expected| == |subs|
    ensures forall q :: q in subByJql <==> FirstPlace(expected, q).Some?
    ensures forall q :: q in subByJql ==> subByJql[q] == subs[FirstPlace(expected, q).value]
  {
    subByJql := map[];
    for i := 0 to |subs|
      invariant Indexes(subByJql, subs, expected, i)
    {
      IndexNext(subByJql, subs, expected, i);
      if expected[i] != "" && expected[i] !in subByJql {
        subByJql := subByJql[expected[i] := subs[i]];
      }
    }
    assert expected[..|subs|] == expected;
  }

  /** The index still offers exactly the wanted JQLs that no hook has claimed. */
  ghost predicate Unclaimed(subByJql: map<string, Subscription>, claimed: set<string>, subs: seq<Subscription>) {
    && (forall q :: q in subByJql <==> FirstSubFor(subs, q).Some? && q !in claimed)
    && (forall q :: q in subByJql ==> FirstSubFor(subs, q) == Some(subByJql[q]))
  }

  /** The rows are the first ones and one for each adoption so far. */
  ghost predicate Written(rows: seq<Registration>, nextId: nat, rows0: seq<Registration>, base: nat, p: Progress) {
    rows == rows0 + NewRows(p.adopted, base) && nextId == base + |p.adopted|
  }

  datatype Choice = Known | Unwanted | Wanted(sub: Subscription)

  /** What the loop does with a hook: skip it, report it, or adopt it for a subscription. */
  method Choose(hook: Hook, localById: set<int>, subByJql: map<string, Subscription>,
                ghost p: Progress, ghost subs: seq<Subscription>, ghost failing: set<int>)
    returns (choice: Choice)
    requires Unclaimed(subByJql, p.claimed, subs)
    ensures choice.Known? ==> Consider(p, hook, localById, subs, failing) == p
    ensures choice.Unwanted? ==> Consider(p, hook, localById, subs, failing) == p.(unmatched := p.unmatched + [hook.id])
    ensures choice.Wanted? ==>
      && Unclaimed(subByJql - {hook.jql}, p.claimed + {hook.jql}, subs)
      && Consider(p, hook, localById, subs, failing)
         == if hook.id in failing then p
            else p.(adopted := p.adopted + [Adoption(hook, choice.sub)], claimed := p.claimed + {hook.jql})
  {
    if hook.id in localById {
      return Known;
    }
    if hook.jql !in subByJql {
      return Unwanted;
    }
    return Wanted(subByJql[hook.jql]);
  }

  lemma OneMoreWritten(rows: seq<Registration>, nextId: nat, rows0: seq<Registration>, base: nat, p: Progress,
                       hook: Hook, sub: Subscription)
    requires Written(rows, nextId, rows0, base, p)
    ensures var p' := p.(adopted := p.adopted + [Adoption(hook, sub)], claimed := p.claimed + {hook.jql});
            && Written(rows + [Registration(nextId, sub.id, hook.id, hook.jql)], nextId + 1, rows0, base, p')
            && IdsOf(p'.adopted) == IdsOf(p.adopted) + [hook.id]
  {
    NewRowsNext(p.adopted, Adoption(hook, sub), base);
    var r := Registration(nextId, sub.id, hook.id, hook.jql);
    assert rows0 + NewRows(p.adopted, base) + [r] == rows0 + (NewRows(p.adopted, base) + [r]);
  }

  class WebhookManager {
    const repo: WebhookRepo

    constructor (repo: WebhookRepo)
      ensures this.repo == repo
    {
      this.repo := repo;
    }

    /** One turn of the adoption loop. */
    method AdoptHook(hook: Hook, localById: set<int>, index: map<string, Subscription>, failing: set<int>,
                     ghost p: Progress, ghost subs: seq<Subscription>, ghost rows0: seq<Registration>, ghost base: nat)
      returns (choice: Choice, index': map<string, Subscription>)
      requires repo.Valid() && Written(repo.rows, repo.nextId, rows0, base, p) && Unclaimed(index, p.claimed, subs)
      modifies repo
      ensures var p' := Consider(p, hook, localById, subs, failing);
              && repo.Valid() && Written(repo.rows, repo.nextId, rows0, base, p') && Unclaimed(index', p'.claimed, subs)
              && IdsOf(p'.adopted) == IdsOf(p.adopted) + (if choice.Wanted? then [hook.id] else [])
              && p'.unmatched == p.unmatched + if choice.Unwanted? then [hook.id] else []
    {
      choice := Choose(hook, localById, index, p, subs, failing);
      index' := index;
      if choice.Wanted? {
        if hook.id in failing {
          choice := Known;
        } else {
          OneMoreWritten(repo.rows, repo.nextId, rows0, base, p, hook, choice.sub);
          repo.Create(choice.sub.id, hook.id, hook.jql);
          index' := index - {hook.jql};
          assert Written(repo.rows, repo.nextId, rows0, base, Consider(p, hook, localById, subs, failing));
        }
      }
    }

    /** Adopts the hooks only Jira has; `failing` are those whose row cannot be created. */
    method Adopt(hooks: seq<Hook>, subs: seq<Subscription>, failing: set<int>)
      returns (adopted: seq<int>, unmatched: seq<int>)
      requires repo.Valid()
      modifies repo
      ensures repo.Valid()
      ensures var p := ConsiderAll(hooks, LocalIds(old(repo.rows)), subs, failing);
              && adopted == IdsOf(p.adopted) && unmatched == p.unmatched
              && repo.rows == old(repo.rows) + NewRows(p.adopted, old(repo.nextId))
    {
      var localById := LocalIds(repo.rows);
      var subByJql := IndexByJql(subs, ExpectedJqls(subs));
      ghost var rows0, base, p := repo.rows, repo.nextId, Progress([], [], {});
      adopted, unmatched := [], [];
      for i := 0 to |hooks|
        invariant repo.Valid() && p == ConsiderAll(hooks[..i], localById, subs, failing)
        invariant adopted == IdsOf(p.adopted) && unmatched == p.unmatched
        invariant Written(repo.rows, repo.nextId, rows0, base, p) && Unclaimed(subByJql, p.claimed, subs)
      {
        assert hooks[..i + 1][..i] == hooks[..i];
        var choice, index := AdoptHook(hooks[i], localById, subByJql, failing, p, subs, rows0, base);
        subByJql := index;
        adopted := adopted + if choice.Wanted? then [hooks[i].id] else [];
        unmatched := unmatched + if choice.Unwanted? then [hooks[i].id] else [];
        p := Consider(p, hooks[i], localById, subs, failing);
      }
      assert hooks[..|hooks|] == hooks;
    }

    /** Deletes the given rows that Jira no longer has. */
    method DropStale(localHooks: seq<Registration>, hooks: seq<Hook>, undeletable: set<nat>) returns (dropped: seq<int>)
      requires repo.Valid()
      modifies repo
      ensures repo.Valid()
      ensures dropped == WebhookIdsOf(Dropped(localHooks, hooks, undeletable))
      ensures forall r :: r in repo.rows <==>
                r in old(repo.rows) && forall d :: d in Dropped(localHooks, hooks, undeletable) ==> d.rowId != r.rowId
    {
      var jiraIds := HookIds(hooks);
      dropped := [];
      for i := 0 to |localHooks|
        invariant repo.Valid()
        invariant dropped == WebhookIdsOf(Dropped(localHooks[..i], hooks, undeletable))
        invariant forall r :: r in repo.rows <==>
                    r in old(repo.rows) && forall d :: d in Dropped(localHooks[..i], hooks, undeletable) ==>
                            d.rowId != r.rowId
      {
        var row := localHooks[i];
        assert localHooks[..i + 1][..i] == localHooks[..i];
        if row.webhookId in jiraIds || row.rowId in undeletable {
          continue;
        }
        ghost var before := repo.rows;
        WithoutKeepsOthers(before, row.rowId);
        repo.Delete(row.rowId);
        dropped := dropped + [row.webhookId];
      }
      assert localHooks[..|localHooks|] == localHooks;
    }

    /** One pass. Afterwards the rows are exactly the old ones that Jira still has or that could not
        be deleted, and one new row per adopted hook. */
    method ResyncForUser(hooks: seq<Hook>, activeSubs: seq<Subscription>, failing: set<int>, undeletable: set<nat>)
      returns (result: ResyncResult)
      requires repo.Valid()
      modifies repo
      ensures repo.Valid()
      ensures var p := ConsiderAll(hooks, LocalIds(old(repo.rows)), activeSubs, failing);
              && result == ResyncResult(|hooks|, |old(repo.rows)|, IdsOf(p.adopted), p.unmatched,
                                        WebhookIdsOf(Dropped(old(repo.rows), hooks, undeletable)))
              && (forall r :: r in repo.rows <==>
                    || (r in old(repo.rows) && (r.webhookId in HookIds(hooks) || r.rowId in undeletable))
                    || r in NewRows(p.adopted, old(repo.nextId)))
      ensures failing == {} && undeletable == {} ==>
                LocalIds(repo.rows) == NextLocal(hooks, LocalIds(old(repo.rows)), activeSubs)
    {
      var localHooks := repo.rows;
      ghost var base := repo.nextId;
      var adopted, unmatched := Adopt(hooks, activeSubs, failing);
      var dropped := DropStale(localHooks, hooks, undeletable);
      result := ResyncResult(|hooks|, |localHooks|, adopted, unmatched, dropped);
      ghost var p := ConsiderAll(hooks, LocalIds(localHooks), activeSubs, failing);
      RowsAfterPass(localHooks, base, p.adopted, hooks, undeletable, repo.rows);
      if failing == {} && undeletable == {} {
        IdsAfterPass(localHooks, base, hooks, activeSubs, repo.rows);
      }
    }
  }

  lemma RowsAfterPass(rows0: seq<Registration>, base: nat, adopted: seq<Adoption>, hooks: seq<Hook>,
                      undeletable: set<nat>, rows: seq<Registration>)
    requires DistinctRows(rows0) && forall r :: r in rows0 ==> r.rowId < base
    requires forall r :: r in rows <==>
               r in rows0 + NewRows(adopted, base) && forall d :: d in Dropped(rows0, hooks, undeletable) ==>
                       d.rowId != r.rowId
    ensures forall r :: r in rows <==>
              || (r in rows0 && (r.webhookId in HookIds(hooks) || r.rowId in undeletable))
              || r in NewRows(adopted, base)
  {
    DroppedAre(rows0, hooks, undeletable);
    forall r, d | r in rows0 && d in rows0 && d.rowId == r.rowId ensures d == r {
      var i :| 0 <= i < |rows0| && rows0[i] == r;
      var j :| 0 <= j < |rows0| && rows0[j] == d;
    }
    assert forall r :: r in NewRows(adopted, base) ==> r.rowId >= base;
  }

  lemma IdsAfterPass(rows0: seq<Registration>, base: nat, hooks: seq<Hook>, subs: seq<Subscription>,
                     rows: seq<Registration>)
    requires var adopted := ConsiderAll(hooks, LocalIds(rows0), subs, {}).adopted;
             forall r :: r in rows <==> (r in rows0 && r.webhookId in HookIds(hooks)) || r in NewRows(adopted, base)
    ensures LocalIds(rows) == NextLocal(hooks, LocalIds(rows0), subs)
  {
    var adopted := ConsiderAll(hooks, LocalIds(rows0), subs, {}).adopted;
    forall id ensures id in LocalIds(rows) <==> id in NextLocal(hooks, LocalIds(rows0), subs) {
      if id in LocalIds(rows) {
        var r :| r in rows && r.webhookId == id;
        if r in NewRows(adopted, base) {
          var i :| 0 <= i < |adopted| && NewRows(adopted, base)[i] == r;
          assert adopted[i] in adopted;
        }
      }
      if id in AdoptedIds(adopted) {
        var a :| a in adopted && a.hook.id == id;
        var i :| 0 <= i < |adopted| && adopted[i] == a;
        assert NewRows(adopted, base)[i] in rows;
      } else if id in NextLocal(hooks, LocalIds(rows0), subs) {
        var r :| r in rows0 && r.webhookId == id;
        assert r in rows;
      }
    }
  }
}
