/**
 * packages/core/src/permission.ts: permission rules, of which the last that matches decides, and the requests that wait
 * for a reply. Requests to the stores and to other services within one reply count as one step.
 */
module Permission {
  import opened Wrappers

  /** `Wildcard.match`: whether a text matches a pattern. */
  type Matcher = (string, string) -> bool

  datatype Effect = Allow | Ask | Deny
  datatype Rule = Rule(action: string, resource: string, effect: Effect)
  type Ruleset = seq<Rule>

  type SessionID = string
  type RequestID = string

  datatype Request = Request(id: RequestID, session: SessionID, action: string, resources: seq<string>,
      save: seq<string>)

  // ---------------------------------------------------------------- rules

  predicate Matches(m: Matcher, rule: Rule, action: string, resource: string) {
    m(action, rule.action) && m(resource, rule.resource)
  }

  /** The last matching rule, or a rule that asks. */
  function Evaluate(m: Matcher, action: string, resource: string, rules: Ruleset): Rule {
    if rules == [] then Rule(action, "*", Ask)
    else if Matches(m, rules[|rules| - 1], action, resource) then rules[|rules| - 1]
    else Evaluate(m, action, resource, rules[..|rules| - 1])
  }

  /** Rule `i` applies, and none after it does. */
  ghost predicate Decides(m: Matcher, action: string, resource: string, rules: Ruleset, i: int) {
    && 0 <= i < |rules| && m(action, rules[i].action) && m(resource, rules[i].resource)
    && forall k :: i < k < |rules| ==> !m(action, rules[k].action) || !m(resource, rules[k].resource)
  }

  ghost predicate NothingDecides(m: Matcher, action: string, resource: string, rules: Ruleset) {
    forall i :: 0 <= i < |rules| ==> !m(action, rules[i].action) || !m(resource, rules[i].resource)
  }

  /** The rule that decides has both patterns matched, and none after it does; without one the answer is to ask. */
  lemma {:induction false} LastMatchDecides(m: Matcher, action: string, resource: string, rules: Ruleset)
    ensures var rule := Evaluate(m, action, resource, rules);
            || (NothingDecides(m, action, resource, rules) && rule == Rule(action, "*", Ask))
            || (exists i :: Decides(m, action, resource, rules, i) && rules[i] == rule)
  {
    if rules != [] {
      var n := |rules| - 1;
      if Matches(m, rules[n], action, resource) {
        assert Decides(m, action, resource, rules, n);
      } else {
        LastMatchDecides(m, action, resource, rules[..n]);
        if i :| Decides(m, action, resource, rules[..n], i) && rules[i] == Evaluate(m, action, resource, rules[..n]) {
          assert Decides(m, action, resource, rules, i);
        }
      }
    }
  }

  predicate Denied(m: Matcher, request: Request, rules: Ruleset) {
    exists i :: 0 <= i < |request.resources| && Evaluate(m, request.action, request.resources[i], rules).effect.Deny?
  }

  predicate AllAllowed(m: Matcher, request: Request, rules: Ruleset) {
    forall i :: 0 <= i < |request.resources| ==> Evaluate(m, request.action, request.resources[i], rules).effect.Allow?
  }

  predicate SomeAsk(m: Matcher, request: Request, rules: Ruleset) {
    exists i :: 0 <= i < |request.resources| && Evaluate(m, request.action, request.resources[i], rules).effect.Ask?
  }

  datatype Saved = Saved(action: string, resource: string)

  /** What the user has allowed for good, as rules. */
  function SavedRules(saved: seq<Saved>): (r: Ruleset)
    ensures |r| == |saved| && forall i :: 0 <= i < |r| ==> r[i] == Rule(saved[i].action, saved[i].resource, Allow)
  {
    seq(|saved|, i requires 0 <= i < |saved| => Rule(saved[i].action, saved[i].resource, Allow))
  }

  /** `evaluateInput`. */
  function Judge(m: Matcher, request: Request, rules: Ruleset, saved: seq<Saved>): Effect {
    if Denied(m, request, rules) then Deny
    else
      var all := rules + SavedRules(saved);
      if Denied(m, request, all) then Deny else if SomeAsk(m, request, all) then Ask else Allow
  }

  /** Some saved rule has both its patterns matched. */
  predicate SomeSaved(m: Matcher, saved: seq<Saved>, action: string, resource: string) {
    exists i :: 0 <= i < |saved| && m(action, saved[i].action) && m(resource, saved[i].resource)
  }

  /** A saved rule that matches allows; otherwise the configured rules decide. */
  lemma {:induction false} SavedOverlay(m: Matcher, action: string, resource: string, rules: Ruleset, saved: seq<Saved>)
    ensures var effect := Evaluate(m, action, resource, rules + SavedRules(saved)).effect;
            if SomeSaved(m, saved, action, resource) then effect.Allow?
                else effect == Evaluate(m, action, resource, rules).effect
    decreases |saved|
  {
    var all := rules + SavedRules(saved);
    if saved == [] {
      assert all == rules;
    } else {
      var n := |saved| - 1;
      assert all[..|all| - 1] == rules + SavedRules(saved[..n]);
      SavedOverlay(m, action, resource, rules, saved[..n]);
      if !Matches(m, all[|all| - 1], action, resource) {
        assert SomeSaved(m, saved, action, resource) <==> SomeSaved(m, saved[..n], action, resource) by {
          if i :| 0 <= i < |saved| && m(action, saved[i].action) && m(resource, saved[i].resource) {
            assert saved[..n][i] == saved[i];
          }
        }
      } else {
        assert m(action, saved[n].action) && m(resource, saved[n].resource);
      }
    }
  }

  lemma SavedNeverDenies(m: Matcher, request: Request, rules: Ruleset, saved: seq<Saved>)
    ensures Denied(m, request, rules + SavedRules(saved)) ==> Denied(m, request, rules)
    ensures AllAllowed(m, request, rules) ==> AllAllowed(m, request, rules + SavedRules(saved))
  {
    hide Evaluate;
    forall i | 0 <= i < |request.resources|
      ensures var effect := Evaluate(m, request.action, request.resources[i], rules + SavedRules(saved)).effect;
              effect.Allow? || effect == Evaluate(m, request.action, request.resources[i], rules).effect
    {
      SavedOverlay(m, request.action, request.resources[i], rules, saved);
    }
  }

  /** A request is denied exactly when the configured rules deny one of its resources, whatever is saved. */
  lemma DeniedByConfiguration(m: Matcher, request: Request, rules: Ruleset, saved: seq<Saved>)
    ensures Judge(m, request, rules, saved).Deny? <==> Denied(m, request, rules)
    ensures Judge(m, request, rules, saved).Allow? <==>
              !Denied(m, request, rules) && AllAllowed(m, request, rules + SavedRules(saved))
  {
    hide Evaluate;
    SavedNeverDenies(m, request, rules, saved);
  }

  /** The configured rules have an effect on a resource: that of the last one that applies, or to ask. */
  ghost predicate Says(m: Matcher, action: string, resource: string, rules: Ruleset, effect: Effect) {
    || (effect == Ask && NothingDecides(m, action, resource, rules))
    || exists i :: Decides(m, action, resource, rules, i) && rules[i].effect == effect
  }

  lemma SaysExactly(m: Matcher, action: string, resource: string, rules: Ruleset, effect: Effect)
    ensures Evaluate(m, action, resource, rules).effect == effect <==> Says(m, action, resource, rules, effect)
  {
    LastMatchDecides(m, action, resource, rules);
    if i :| Decides(m, action, resource, rules, i) && rules[i].effect == effect {
      assert !NothingDecides(m, action, resource, rules);
      var k :| Decides(m, action, resource, rules, k) && rules[k] == Evaluate(m, action, resource, rules);
      assert i == k;
    }
  }

  /** Nothing more is asked about a resource: it was allowed for good, or the configured rules allow it. */
  ghost predicate Granted(m: Matcher, action: string, resource: string, rules: Ruleset, saved: seq<Saved>) {
    || (exists i :: 0 <= i < |saved| && m(action, saved[i].action) && m(resource, saved[i].resource))
    || Says(m, action, resource, rules, Allow)
  }

  /**
   * A request is denied exactly when the configured rules deny one of its resources; otherwise it is allowed exactly
   * when every resource is granted, and asked about when one is not.
   */
  lemma JudgeExactly(m: Matcher, request: Request, rules: Ruleset, saved: seq<Saved>)
    ensures var effect, action := Judge(m, request, rules, saved), request.action;
            if exists r :: r in request.resources && Says(m, action, r, rules, Deny) then effect == Deny
            else if forall r :: r in request.resources ==> Granted(m, action, r, rules, saved) then effect == Allow
            else effect == Ask
  {
    DeniedByConfiguration(m, request, rules, saved);
    hide Judge, Evaluate, Says;
    forall i | 0 <= i < |request.resources|
      ensures Evaluate(m, request.action, request.resources[i], rules).effect.Deny?
              <==> Says(m, request.action, request.resources[i], rules, Deny)
      ensures Evaluate(m, request.action, request.resources[i], rules + SavedRules(saved)).effect.Allow?
              <==> Granted(m, request.action, request.resources[i], rules, saved)
    {
      SaysExactly(m, request.action, request.resources[i], rules, Deny);
      SaysExactly(m, request.action, request.resources[i], rules, Allow);
      SavedOverlay(m, request.action, request.resources[i], rules, saved);
    }
  }

  /** Saving can only turn a question into permission. */
  lemma SavingOnlyAllows(m: Matcher, request: Request, rules: Ruleset, saved: seq<Saved>, more: seq<Saved>)
    ensures var before, after := Judge(m, request, rules, saved), Judge(m, request, rules, saved + more);
            after == before || (before.Ask? && after.Allow?)
  {
    hide Evaluate;
    assert rules + SavedRules(saved + more) == (rules + SavedRules(saved)) + SavedRules(more);
    SavedNeverDenies(m, request, rules + SavedRules(saved), more);
    DeniedByConfiguration(m, request, rules, saved);
    DeniedByConfiguration(m, request, rules, saved + more);
  }

  // ---------------------------------------------------------------- requests that wait

  type Token = nat

  datatype Outcome = Succeeded | Declined | Corrected(feedback: string)

  /** A request that waits; `token` stands for its deferred result. */
  datatype Item = Item(token: Token, request: Request, agent: Option<string>)

  datatype Reply = Once | Always | Reject

  /** A published reply. */
  datatype Replied = Replied(token: Token, session: SessionID, request: RequestID, reply: Reply)

  datatype Settled = Settled(token: Token, outcome: Outcome)

  datatype Failure = Duplicate | Unpublished | NotFound

  type Configuration = (SessionID, Option<string>) -> Option<Ruleset>

  predicate DistinctItems(items: seq<Item>) {
    forall i, k :: 0 <= i < k < |items| ==>
        items[i].token != items[k].token && items[i].request.id != items[k].request.id
  }

  function Keep(items: seq<Item>, keep: Item -> bool): seq<Item> {
    if items == [] then []
    else
      var last := items[|items| - 1];
      Keep(items[..|items| - 1], keep) + if keep(last) then [last] else []
  }

  lemma {:induction false} KeepMembers(items: seq<Item>, keep: Item -> bool, x: Item)
    ensures x in Keep(items, keep) <==> x in items && keep(x)
  {
    if items != [] {
      var last := items[|items| - 1];
      KeepMembers(items[..|items| - 1], keep, x);
      assert x in items <==> x in items[..|items| - 1] || x == last;
    }
  }

  function Drop(items: seq<Item>, drop: Item -> bool): seq<Item> {
    if items == [] then []
    else
      var last := items[|items| - 1];
      Drop(items[..|items| - 1], drop) + if drop(last) then [] else [last]
  }

  lemma {:induction false} DropMembers(items: seq<Item>, drop: Item -> bool, x: Item)
    ensures x in Drop(items, drop) <==> x in items && !drop(x)
  {
    if items != [] {
      var last := items[|items| - 1];
      DropMembers(items[..|items| - 1], drop, x);
      assert x in items <==> x in items[..|items| - 1] || x == last;
    }
  }

  function Without(items: seq<Item>, id: RequestID): seq<Item> {
    if items == [] then []
    else
      var last := items[|items| - 1];
      Without(items[..|items| - 1], id) + if last.request.id == id then [] else [last]
  }

  lemma {:induction false} WithoutMembers(items: seq<Item>, id: RequestID, x: Item)
    ensures x in Without(items, id) <==> x in items && x.request.id != id
  {
    if items != [] {
      var last := items[|items| - 1];
      WithoutMembers(items[..|items| - 1], id, x);
      assert x in items <==> x in items[..|items| - 1] || x == last;
    }
  }

  /** Whether an always-reply also answers a request: it is resolvable and would now be allowed. */
  predicate Resolves(m: Matcher, config: Configuration, saved: seq<Saved>, item: Item) {
    var rules := config(item.request.session, item.agent);
    rules.Some? && !Denied(m, item.request, rules.value) && AllAllowed(m, item.request, rules.value + SavedRules(saved))
  }

  function Replies(items: seq<Item>, reply: Reply): (r: seq<Replied>)
    ensures |r| == |items| && forall i ::
              0 <= i < |r| ==> r[i] == Replied(items[i].token, items[i].request.session, items[i].request.id, reply)
  {
    seq(|items|, i requires 0 <= i < |items| => Replied(items[i].token, items[i].request.session, items[i].request.id,
        reply))
  }

  function Settlements(items: seq<Item>, outcome: Outcome): (r: seq<Settled>)
    ensures |r| == |items| && forall i :: 0 <= i < |r| ==> r[i] == Settled(items[i].token, outcome)
  {
    seq(|items|, i requires 0 <= i < |items| => Settled(items[i].token, outcome))
  }

  /** `onConflictDoNothing`: what is saved already is not saved again. */
  function Save(saved: seq<Saved>, action: string, resources: seq<string>): (r: seq<Saved>)
    ensures saved <= r && forall i :: 0 <= i < |resources| ==> Saved(action, resources[i]) in r
    ensures forall x :: x in r ==> x in saved || exists i :: 0 <= i < |resources| && x == Saved(action, resources[i])
  {
    if resources == [] then saved
    else
      var before := Save(saved, action, resources[..|resources| - 1]);
      var entry := Saved(action, resources[|resources| - 1]);
      assert forall i :: 0 <= i < |resources| - 1 ==> resources[i] == resources[..|resources| - 1][i];
      if entry in before then before else before + [entry]
  }

  lemma {:induction false} WithoutNone(items: seq<Item>, id: RequestID)
    requires forall i :: 0 <= i < |items| ==> items[i].request.id != id
    ensures Without(items, id) == items
  {
    if items != [] {
      WithoutNone(items[..|items| - 1], id);
      assert items == items[..|items| - 1] + [items[|items| - 1]];
    }
  }

  /** Taking one request out leaves the others, still distinct. */
  lemma DistinctRest(a: seq<Item>, x: Item, b: seq<Item>)
    requires DistinctItems(a + [x] + b)
    ensures DistinctItems(a + b)
    ensures forall i :: 0 <= i < |a + b| ==> (a + b)[i].token != x.token && (a + b)[i].request.id != x.request.id
  {
    var all, rest := a + [x] + b, a + b;
    assert all[|a|] == x;
    assert forall i :: 0 <= i < |a| ==> rest[i] == all[i];
    assert forall i :: |a| <= i < |rest| ==> rest[i] == all[i + 1];
  }

  /** Deleting one of several requests takes out that one. */
  lemma WithoutMiddle(a: seq<Item>, x: Item, b: seq<Item>)
    requires DistinctItems(a + [x] + b)
    ensures Without(a + [x] + b, x.request.id) == a + b
  {
    DistinctRest(a, x, b);
    assert forall i :: 0 <= i < |a| ==> a[i] == (a + b)[i];
    assert forall i :: 0 <= i < |b| ==> b[i] == (a + b)[|a| + i];
    hide DistinctItems;
    WithoutOne(a, x, b);
  }

  lemma {:induction false} WithoutOne(a: seq<Item>, x: Item, b: seq<Item>)
    requires forall i :: 0 <= i < |a| ==> a[i].request.id != x.request.id
    requires forall i :: 0 <= i < |b| ==> b[i].request.id != x.request.id
    ensures Without(a + [x] + b, x.request.id) == a + b
    decreases |b|
  {
    if b == [] {
      assert (a + [x] + b)[..|a|] == a && a + b == a;
      WithoutNone(a, x.request.id);
    } else {
      var most := b[..|b| - 1];
      assert (a + [x] + b)[..|a + [x] + b| - 1] == a + [x] + most;
      WithoutOne(a, x, most);
      assert a + b == (a + most) + [b[|b| - 1]];
    }
  }

  // ---------------------------------------------------------------- replies and settlements go together, once each

  predicate Ledger(pending: seq<Item>, replies: seq<Replied>, settled: seq<Settled>, issued: nat) {
    && DistinctItems(pending)
    && (forall x :: x in pending ==> x.token < issued && forall i :: 0 <= i < |settled| ==> settled[i].token != x.token)
    && (forall i, k :: 0 <= i < k < |settled| ==> settled[i].token != settled[k].token)
    && (forall i :: 0 <= i < |settled| ==> settled[i].token < issued)
    && |replies| == |settled| && forall i :: 0 <= i < |settled| ==> replies[i].token == settled[i].token
  }

  lemma LedgerSettles(a: seq<Item>, x: Item, b: seq<Item>, replies: seq<Replied>, settled: seq<Settled>, issued: nat,
                      reply: Reply, outcome: Outcome)
    requires Ledger(a + [x] + b, replies, settled, issued)
    ensures Ledger(a + b, replies + Replies([x], reply), settled + Settlements([x], outcome), issued)
  {
    DistinctRest(a, x, b);
    assert x in a + [x] + b;
    assert forall y :: y in a + b ==> y in a + [x] + b;
  }

  lemma LedgerAdmits(pending: seq<Item>, replies: seq<Replied>, settled: seq<Settled>, issued: nat, item: Item)
    requires issued > 0 && Ledger(pending, replies, settled, issued - 1) && item.token == issued - 1
    requires !exists x :: x in pending && x.request.id == item.request.id
    ensures Ledger(pending + [item], replies, settled, issued)
    ensures Without(pending + [item], item.request.id) == pending
  {
    forall i | 0 <= i < |pending| ensures pending[i].token != item.token && pending[i].request.id != item.request.id {
      assert pending[i] in pending;
    }
    assert pending + [item] + [] == pending + [item] && pending + [] == pending;
    WithoutMiddle(pending, item, []);
  }

  lemma LedgerIssues(pending: seq<Item>, replies: seq<Replied>, settled: seq<Settled>, issued: nat)
    requires Ledger(pending, replies, settled, issued)
    ensures Ledger(pending, replies, settled, issued + 1)
  {
  }

  lemma {:induction false} LookupSplits(items: seq<Item>, id: RequestID) returns (i: nat)
    requires exists x :: x in items && x.request.id == id
    ensures i < |items| && items[i].request.id == id && items == items[..i] + [items[i]] + items[i + 1..]
  {
    i :| 0 <= i < |items| && items[i].request.id == id;
  }

  /** The first `i` of a cascade's requests have been looked at. */
  ghost predicate Cascaded(all: seq<Item>, i: nat,
                           hit: Item -> bool, reply: Reply, outcome: Outcome, replies0: seq<Replied>,
                               settled0: seq<Settled>,
                           pending: seq<Item>, replies: seq<Replied>, settled: seq<Settled>)
  {
    && i <= |all|
    && pending == Drop(all[..i], hit) + all[i..]
    && replies == replies0 + Replies(Keep(all[..i], hit), reply)
    && settled == settled0 + Settlements(Keep(all[..i], hit), outcome)
  }

  /** A cascade has looked at nothing at first, and at everything in the end. */
  lemma CascadeEnds(all: seq<Item>, hit: Item -> bool, reply: Reply, outcome: Outcome, replies0: seq<Replied>,
                    settled0: seq<Settled>, pending: seq<Item>, replies: seq<Replied>, settled: seq<Settled>)
    ensures Cascaded(all, 0, hit, reply, outcome, replies0, settled0, all, replies0, settled0)
    ensures Cascaded(all, |all|, hit, reply, outcome, replies0, settled0, pending, replies, settled) ==>
              && pending == Drop(all, hit) && replies == replies0 + Replies(Keep(all, hit), reply)
              && settled == settled0 + Settlements(Keep(all, hit), outcome)
  {
    assert all[..|all|] == all && all[0..] == all && all[..0] == [];
    assert Drop(all[..0], hit) + all[0..] == all;
    assert Drop(all, hit) + all[|all|..] == Drop(all, hit);
    assert replies0 + [] == replies0 && settled0 + [] == settled0;
  }

  lemma CascadeNext(all: seq<Item>, i: nat,
                    hit: Item -> bool, reply: Reply, outcome: Outcome, replies0: seq<Replied>, settled0: seq<Settled>,
                    pending: seq<Item>, replies: seq<Replied>, settled: seq<Settled>)
    requires Cascaded(all, i, hit, reply, outcome, replies0, settled0, pending, replies, settled) && i < |all|
    ensures pending == Drop(all[..i], hit) + [all[i]] + all[i + 1..]
    ensures if hit(all[i])
            then Cascaded(all, i + 1, hit, reply, outcome, replies0, settled0, Drop(all[..i], hit) + all[i + 1..],
                          replies + Replies([all[i]], reply), settled + Settlements([all[i]], outcome))
            else Cascaded(all, i + 1, hit, reply, outcome, replies0, settled0, pending, replies, settled)
  {
    assert all[..i + 1][..i] == all[..i];
    assert all[i..] == [all[i]] + all[i + 1..];
  }

  lemma AbandonKeeps(pending: seq<Item>, replies: seq<Replied>, settled: seq<Settled>, issued: nat, id: RequestID)
    requires Ledger(pending, replies, settled, issued)
    ensures Ledger(Without(pending, id), replies, settled, issued)
    ensures forall x :: x in Without(pending, id) <==> x in pending && x.request.id != id
  {
    forall x ensures x in Without(pending, id) <==> x in pending && x.request.id != id {
      WithoutMembers(pending, id, x);
    }
    if x :| x in pending && x.request.id == id {
      var i := LookupSplits(pending, id);
      WithoutMiddle(pending[..i], pending[i], pending[i + 1..]);
      DistinctRest(pending[..i], pending[i], pending[i + 1..]);
    } else {
      WithoutNone(pending, id);
    }
  }

  class Permissions {
    var pending: seq<Item>
    var saved: seq<Saved>
    var replies: seq<Replied>
    var settled: seq<Settled>
    var issued: nat

    ghost predicate Valid()
      reads this
    {
      Ledger(pending, replies, settled, issued)
    }

    constructor (stored: seq<Saved>)
      ensures Valid() && pending == [] && saved == stored && replies == [] && settled == []
    {
      pending, saved, replies, settled, issued := [], stored, [], [], 0;
    }

    /** Lines 176-188. `published` is whether the request could be announced. */
    method Create(request: Request, agent: Option<string>, published: bool) returns (r: Result<Item, Failure>)
      requires Valid()
      modifies `pending, `issued
      ensures Valid()
      ensures r == if exists x :: x in old(pending) && x.request.id == request.id then Err(Duplicate)
                   else if !published then Err(Unpublished)
                   else Ok(Item(old(issued), request, agent))
      ensures pending == if r.Ok? then old(pending) + [r.value] else old(pending)
    {
      hide Ledger, Without;
      LedgerIssues(pending, replies, settled, issued);
      var token := issued;
      issued := issued + 1;
      if exists x :: x in pending && x.request.id == request.id { return Err(Duplicate); }
      var item := Item(token, request, agent);
      LedgerAdmits(pending, replies, settled, issued, item);
      pending := pending + [item];
      if !published {
        pending := Without(pending, request.id);
        return Err(Unpublished);
      }
      r := Ok(item);
    }

    /** Lines 190-195. */
    method Query(m: Matcher, rules: Ruleset, request: Request, agent: Option<string>,
                 published: bool) returns (effect: Effect, failure: Option<Failure>)
      requires Valid()
      modifies `pending, `issued
      ensures Valid() && effect == Judge(m, request, rules, saved)
      ensures !effect.Ask? ==> pending == old(pending) && failure.None?
      ensures effect.Ask? && failure.None? ==> pending == old(pending) + [Item(old(issued), request, agent)]
      ensures failure.Some? ==> pending == old(pending)
    {
      effect := Judge(m, request, rules, saved);
      failure := None;
      if effect.Ask? {
        var r := Create(request, agent, published);
        if r.Err? { failure := Some(r.error); }
      }
    }

    /** Lines 210-214: whoever waited is gone. */
    method Abandon(id: RequestID)
      requires Valid()
      modifies `pending
      ensures Valid() && pending == Without(old(pending), id)
      ensures forall x :: x in pending <==> x in old(pending) && x.request.id != id
    {
      AbandonKeeps(pending, replies, settled, issued, id);
      hide Ledger;
      pending := Without(pending, id);
    }

    /** Publishes, settles and deletes one request. */
    method Settle(ghost a: seq<Item>, item: Item, ghost b: seq<Item>, reply: Reply, outcome: Outcome)
      requires Valid() && pending == a + [item] + b
      modifies `pending, `replies, `settled
      ensures Valid() && pending == a + b
      ensures replies == old(replies) + Replies([item], reply) && settled == old(settled) + Settlements([item], outcome)
    {
      WithoutMiddle(a, item, b);
      LedgerSettles(a, item, b, replies, settled, issued, reply, outcome);
      replies := replies + [Replied(item.token, item.request.session, item.request.id, reply)];
      settled := settled + [Settled(item.token, outcome)];
      pending := Without(pending, item.request.id);
      assert replies == old(replies) + Replies([item], reply) && settled == old(settled) + Settlements([item], outcome);
    }

    /** The two cascades, lines 237-246 and 262-283: every request that is hit is answered the same way. */
    method Cascade(hit: Item -> bool, reply: Reply, outcome: Outcome)
      requires Valid()
      modifies `pending, `replies, `settled
      ensures Valid() && pending == Drop(old(pending), hit)
      ensures replies == old(replies) + Replies(Keep(old(pending), hit), reply)
      ensures settled == old(settled) + Settlements(Keep(old(pending), hit), outcome)
    {
      hide Ledger, Cascaded, Drop, Keep, Replies, Settlements;
      var all := pending;
      CascadeEnds(all, hit, reply, outcome, replies, settled, pending, replies, settled);
      for i := 0 to |all|
        invariant Valid() &&
                  Cascaded(all, i, hit, reply, outcome, old(replies), old(settled), pending, replies, settled)
      {
        var item := all[i];
        CascadeNext(all, i, hit, reply, outcome, old(replies), old(settled), pending, replies, settled);
        hide *;
        if hit(item) {
          Settle(Drop(all[..i], hit), item, all[i + 1..], reply, outcome);
        }
      }
      CascadeEnds(all, hit, reply, outcome, old(replies), old(settled), pending, replies, settled);
    }

    /**
     * Lines 220-286. An empty `message` is no message. Whatever the reply, the request itself waits no longer. A
     * rejection leaves exactly the requests of other sessions; an approval that is saved leaves, of the requests whose
     * rules can be resolved, exactly those that would still not be allowed; any other reply leaves all others.
     */
    method Answer(m: Matcher, config: Configuration, id: RequestID, reply: Reply,
                  message: string) returns (failure: Option<Failure>)
      requires Valid()
      modifies `pending, `saved, `replies, `settled
      ensures Valid()
      ensures failure == if Lookup(old(pending), id).Some? then None else Some(NotFound)
      ensures failure.Some? ==> unchanged(this)
      ensures failure.None? ==>
                var item, rest := Lookup(old(pending), id).value, Without(old(pending), id);
                if reply.Reject? then
                  && saved == old(saved) && pending == Drop(rest, InSession(item.request.session))
                  && replies == old(replies) + Replies([item], Reject)
                                + Replies(Keep(rest, InSession(item.request.session)), Reject)
                  && settled == old(settled)
                                + Settlements([item], if message == "" then Declined else Corrected(message))
                                + Settlements(Keep(rest, InSession(item.request.session)), Declined)
                else if reply.Always? && item.request.save != [] then
                  && saved == Save(old(saved), item.request.action, item.request.save) &&
                       pending == Drop(rest, Resolving(m, config, saved))
                  && replies == old(replies) + Replies([item], Always)
                                + Replies(Keep(rest, Resolving(m, config, saved)), Always)
                  && settled == old(settled) + Settlements([item], Succeeded)
                                + Settlements(Keep(rest, Resolving(m, config, saved)), Succeeded)
                else
                  && saved == old(saved) && pending == rest
                  && replies == old(replies) + Replies([item], reply)
                  && settled == old(settled) + Settlements([item], Succeeded)
      ensures failure.None? && reply.Reject? ==>
                var session := Lookup(old(pending), id).value.request.session;
                forall x :: x in pending <==> x in old(pending) && x.request.session != session
      ensures failure.None? && !reply.Reject? ==>
                var saves := reply.Always? && Lookup(old(pending), id).value.request.save != [];
                && (forall x :: x in pending ==> x in old(pending) && x.request.id != id)
                && (forall x :: x in old(pending) && x.request.id != id ==>
                      (x in pending <==> !saves || !NowAllowed(m, config, saved, x)))
    {
      hide Ledger, Keep, Drop, Replies, Settlements, Resolves, NowAllowed, Save;
      var found := Lookup(pending, id);
      LookupFinds(pending, id);
      if found.None? { return Some(NotFound); }
      var item := found.value;
      ghost var i := LookupSplits(pending, id);
      OnlyOne(pending, replies, settled, issued, item, i);
      LeavesOthers(pending, item, m, config, Save(saved, item.request.action, item.request.save));
      if reply.Reject? {
        Settle(pending[..i], item, pending[i + 1..], Reject, if message == "" then Declined else Corrected(message));
        Cascade(InSession(item.request.session), Reject, Declined);
        return None;
      }
      if reply.Always? && item.request.save != [] {
        saved := Save(saved, item.request.action, item.request.save);
      }
      Settle(pending[..i], item, pending[i + 1..], reply, Succeeded);
      if !reply.Always? || item.request.save == [] { return None; }
      Cascade(Resolving(m, config, saved), Always, Succeeded);
      return None;
    }
  }

  function Lookup(items: seq<Item>, id: RequestID): Option<Item> {
    if items == [] then None
    else if items[|items| - 1].request.id == id then Some(items[|items| - 1])
    else Lookup(items[..|items| - 1], id)
  }

  lemma {:induction false} LookupFinds(items: seq<Item>, id: RequestID)
    ensures match Lookup(items, id)
            case Some(x) => x in items && x.request.id == id
            case None => forall i :: 0 <= i < |items| ==> items[i].request.id != id
  {
    if items != [] && items[|items| - 1].request.id != id { LookupFinds(items[..|items| - 1], id); }
  }

  lemma OnlyOne(items: seq<Item>, replies: seq<Replied>, settled: seq<Settled>, issued: nat, item: Item, i: nat)
    requires Ledger(items, replies, settled, issued) && i < |items| && item in items &&
               items[i].request.id == item.request.id
    ensures items[i] == item && Without(items, item.request.id) == items[..i] + items[i + 1..]
    ensures DistinctItems(items)
  {
    var k :| 0 <= k < |items| && items[k] == item;
    assert items == items[..i] + [items[i]] + items[i + 1..];
    WithoutMiddle(items[..i], items[i], items[i + 1..]);
  }

  function InSession(session: SessionID): Item -> bool {
    (x: Item) => x.request.session == session
  }

  function Resolving(m: Matcher, config: Configuration, saved: seq<Saved>): Item -> bool {
    (x: Item) => Resolves(m, config, saved, x)
  }

  /** A request whose rules can be resolved and now allow it. */
  predicate NowAllowed(m: Matcher, config: Configuration, saved: seq<Saved>, x: Item) {
    var rules := config(x.request.session, x.agent);
    rules.Some? && Judge(m, x.request, rules.value, saved).Allow?
  }

  /** Whom the two cascades leave among the requests besides the one that is answered. */
  lemma LeavesOthers(items: seq<Item>, item: Item, m: Matcher, config: Configuration, saved: seq<Saved>)
    requires DistinctItems(items) && item in items
    ensures var rest, session := Without(items, item.request.id), item.request.session;
            && (forall x :: x in Drop(rest, InSession(session)) <==> x in items && x.request.session != session)
            && (forall x :: x in rest <==> x in items && x.request.id != item.request.id)
            && (forall x :: x in Drop(rest, Resolving(m, config, saved)) <==>
                  x in items && x.request.id != item.request.id && !NowAllowed(m, config, saved, x))
  {
    var rest := Without(items, item.request.id);
    forall x ensures x in rest <==> x in items && x.request.id != item.request.id {
      WithoutMembers(items, item.request.id, x);
    }
    forall x ensures x in Drop(rest, InSession(item.request.session)) <==>
        x in items && x.request.session != item.request.session {
      RejectionEndsSession(rest, item.request.session, x);
      if x in items && x.request.id == item.request.id { assert x == item; }
    }
    forall x
      ensures x in Drop(rest, Resolving(m, config, saved)) <==>
              x in items && x.request.id != item.request.id && !NowAllowed(m, config, saved, x)
    {
      DropMembers(rest, Resolving(m, config, saved), x);
      var rules := config(x.request.session, x.agent);
      if rules.Some? { DeniedByConfiguration(m, x.request, rules.value, saved); }
    }
  }

  // ---------------------------------------------------------------- what replies promise

  /** After a rejection nothing of the session waits, and every other session's requests wait as before. */
  lemma RejectionEndsSession(rest: seq<Item>, session: SessionID, x: Item)
    ensures x in Drop(rest, InSession(session)) <==> x in rest && x.request.session != session
    ensures x in Keep(rest, InSession(session)) <==> x in rest && x.request.session == session
  {
    DropMembers(rest, InSession(session), x);
    KeepMembers(rest, InSession(session), x);
  }

  /** A request whose rules cannot be resolved is never answered by someone else's always-reply. */
  lemma UnresolvableWaits(m: Matcher, config: Configuration, saved: seq<Saved>, rest: seq<Item>, x: Item)
    requires config(x.request.session, x.agent).None? && x in rest
    ensures x in Drop(rest, Resolving(m, config, saved))
  {
    DropMembers(rest, Resolving(m, config, saved), x);
  }

  /** Every request is settled at most once, exactly when its reply is published, and never while it waits. */
  lemma SettledOnce(p: Permissions, i: nat, k: nat)
    requires p.Valid() && i < |p.settled| && k < |p.settled|
    ensures |p.replies| == |p.settled| && p.replies[i].token == p.settled[i].token
    ensures p.settled[i].token == p.settled[k].token ==> i == k
    ensures forall x :: x in p.pending ==> x.token != p.settled[i].token
  {
  }
}
