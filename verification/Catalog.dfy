/**
 * packages/codemode/src/tool-runtime.ts:495-544: choosing which tool signatures the catalog spells out. The
 * namespaces take turns against one budget, each with its cheapest remaining tool, until none has one that fits.
 */
module Catalog {
  import opened Wrappers

  datatype Tool = Tool(path: string, line: string)

  /** An order on strings, such as `localeCompare`: the position of each string in it. */
  type Collation = string -> real

  /** `estimateTokens`: a quarter of the length, rounded half up. */
  function Cost(tool: Tool): (c: nat)
    ensures 4 * c - 2 <= |tool.line| < 4 * c + 2
  {
    (|tool.line| + 2) / 4
  }

  function Costs(tools: seq<Tool>): (r: seq<nat>)
    ensures |r| == |tools| && forall i :: 0 <= i < |r| ==> r[i] == Cost(tools[i])
  {
    seq(|tools|, i requires 0 <= i < |tools| => Cost(tools[i]))
  }

  function AllCosts(queues: seq<seq<Tool>>): (r: seq<seq<nat>>)
    ensures |r| == |queues| && forall i :: 0 <= i < |r| ==> r[i] == Costs(queues[i])
  {
    seq(|queues|, i requires 0 <= i < |queues| => Costs(queues[i]))
  }

  // ---------------------------------------------------------------- the queues

  predicate NotAfter(collation: Collation, a: Tool, b: Tool) {
    Cost(a) < Cost(b) || (Cost(a) == Cost(b) && collation(a.path) <= collation(b.path))
  }

  predicate Sorted(collation: Collation, tools: seq<Tool>) {
    forall i, k :: 0 <= i < k < |tools| ==> NotAfter(collation, tools[i], tools[k])
  }

  function Insert(collation: Collation, tools: seq<Tool>, tool: Tool): (r: seq<Tool>)
    requires Sorted(collation, tools)
    ensures Sorted(collation, r) && multiset(r) == multiset(tools) + multiset{tool}
    ensures forall t :: t in r <==> t in tools || t == tool
  {
    if tools == [] then [tool]
    else if NotAfter(collation, tools[|tools| - 1], tool) then tools + [tool]
    else
      var last := tools[|tools| - 1];
      assert tools == tools[..|tools| - 1] + [last];
      var r := Insert(collation, tools[..|tools| - 1], tool);
      assert forall t :: t in r ==> NotAfter(collation, t, last);
      r + [last]
  }

  /** Cheapest first, ties by path. */
  function Sort(collation: Collation, tools: seq<Tool>): (r: seq<Tool>)
    ensures Sorted(collation, r) && multiset(r) == multiset(tools) && |r| == |tools|
  {
    if tools == [] then []
    else
      assert tools == tools[..|tools| - 1] + [tools[|tools| - 1]];
      var r := Insert(collation, Sort(collation, tools[..|tools| - 1]), tools[|tools| - 1]);
      assert |multiset(r)| == |multiset(tools)|;
      r
  }

  /** Each queue has the namespace's tools, the cheaper first, and those that cost the same by their paths. */
  lemma SortExactly(collation: Collation, tools: seq<Tool>)
    ensures var r := Sort(collation, tools);
            && multiset(r) == multiset(tools)
            && (forall i, k :: 0 <= i < k < |r| ==> Cost(r[i]) <= Cost(r[k]))
            && (forall i, k :: 0 <= i < k < |r| && Cost(r[i]) == Cost(r[k]) ==>
                  collation(r[i].path) <= collation(r[k].path))
  {
    var r := Sort(collation, tools);
    forall i, k | 0 <= i < k < |r|
      ensures Cost(r[i]) < Cost(r[k]) || (Cost(r[i]) == Cost(r[k]) && collation(r[i].path) <= collation(r[k].path))
    {
      assert NotAfter(collation, r[i], r[k]);
    }
  }

  // ---------------------------------------------------------------- taking turns

  function Sum(xs: seq<nat>): nat {
    if xs == [] then 0 else Sum(xs[..|xs| - 1]) + xs[|xs| - 1]
  }

  /** How much of queue `k` has been taken when namespace `i` has its turn in round `r`. */
  function Taken(picks: seq<nat>, k: nat, r: nat, i: nat): nat
    requires k < |picks|
  {
    Min(picks[k], if k < i then r + 1 else r)
  }

  predicate Counts(costs: seq<seq<nat>>, picks: seq<nat>) {
    |picks| == |costs| && forall i :: 0 <= i < |costs| ==> picks[i] <= |costs[i]|
  }

  /** What the first `n` namespaces have spent when namespace `i` has its turn in round `r`. */
  function SpentBy(costs: seq<seq<nat>>, picks: seq<nat>, r: nat, i: nat, n: nat): nat
    requires Counts(costs, picks) && n <= |costs|
  {
    if n == 0 then 0 else SpentBy(costs, picks, r, i, n - 1) + Sum(costs[n - 1][..Taken(picks, n - 1, r, i)])
  }

  predicate Fits(costs: seq<seq<nat>>, budget: nat, picks: seq<nat>, r: nat, i: nat)
    requires Counts(costs, picks) && i < |costs| && r < |costs[i]|
  {
    SpentBy(costs, picks, r, i, |costs|) + costs[i][r] <= budget
  }

  /** Namespace `i` takes its tool of round `r` exactly when it took all before and this one fits what is left. */
  predicate TookTurns(costs: seq<seq<nat>>, budget: nat, picks: seq<nat>) {
    && Counts(costs, picks)
    && (forall i, r :: 0 <= i < |costs| && 0 <= r < picks[i] ==> Fits(costs, budget, picks, r, i))
    && (forall i :: 0 <= i < |costs| && picks[i] < |costs[i]| ==> !Fits(costs, budget, picks, picks[i], i))
  }

  function Spent(costs: seq<seq<nat>>, picks: seq<nat>, n: nat): nat
    requires Counts(costs, picks) && n <= |costs|
  {
    if n == 0 then 0 else Spent(costs, picks, n - 1) + Sum(costs[n - 1][..picks[n - 1]])
  }

  function Total(costs: seq<seq<nat>>, n: nat): nat
    requires n <= |costs|
  {
    if n == 0 then 0 else Total(costs, n - 1) + Sum(costs[n - 1])
  }

  /** What was spent when a turn came does not change with later turns. */
  lemma {:induction false} SpentByStable(costs: seq<seq<nat>>, picks: seq<nat>, k: nat, r: nat, i: nat, n: nat)
    requires Counts(costs, picks) && n <= |costs| && k < |costs| && picks[k] < |costs[k]|
    requires r < picks[k] || (r == picks[k] && i <= k)
    ensures SpentBy(costs, picks[k := picks[k] + 1], r, i, n) == SpentBy(costs, picks, r, i, n)
  {
    if n > 0 {
      SpentByStable(costs, picks, k, r, i, n - 1);
      assert Taken(picks[k := picks[k] + 1], n - 1, r, i) == Taken(picks, n - 1, r, i);
    }
  }

  /** At namespace `i`'s turn in round `r`, if nobody is ahead of that, everything taken so far is what was spent. */
  lemma {:induction false} SpentNow(costs: seq<seq<nat>>, picks: seq<nat>, r: nat, i: nat, n: nat)
    requires Counts(costs, picks) && n <= |costs|
    requires forall k :: 0 <= k < |costs| ==> picks[k] <= if k < i then r + 1 else r
    ensures SpentBy(costs, picks, r, i, n) == Spent(costs, picks, n)
  {
    if n > 0 { SpentNow(costs, picks, r, i, n - 1); }
  }

  lemma {:induction false} SpentGrows(costs: seq<seq<nat>>, picks: seq<nat>, k: nat, n: nat)
    requires Counts(costs, picks) && n <= |costs| && k < |costs| && picks[k] < |costs[k]|
    ensures Spent(costs, picks[k := picks[k] + 1], n)
            == Spent(costs, picks, n) + (if k < n then costs[k][picks[k]] else 0)
  {
    if n > 0 {
      SpentGrows(costs, picks, k, n - 1);
      if k == n - 1 {
        var taken := costs[k][..picks[k] + 1];
        assert taken[..|taken| - 1] == costs[k][..picks[k]];
      }
    }
  }

  lemma SpentNothing(costs: seq<seq<nat>>, picks: seq<nat>, n: nat)
    requires Counts(costs, picks) && n <= |costs| && forall k :: 0 <= k < |picks| ==> picks[k] == 0
    ensures Spent(costs, picks, n) == 0
  {
  }

  // ---------------------------------------------------------------- what taking turns promises

  lemma {:induction false} SumPrefix(xs: seq<nat>, m: nat, n: nat)
    requires m <= n <= |xs|
    ensures Sum(xs[..m]) <= Sum(xs[..n])
    ensures m < n ==> Sum(xs[..m]) + xs[m] <= Sum(xs[..n])
  {
    if m < n {
      assert xs[..n][..n - 1] == xs[..n - 1];
      SumPrefix(xs, m, n - 1);
    }
  }

  lemma {:induction false} SpentByBounded(costs: seq<seq<nat>>, picks: seq<nat>, r: nat, i: nat, n: nat)
    requires Counts(costs, picks) && n <= |costs|
    ensures SpentBy(costs, picks, r, i, n) <= Spent(costs, picks, n)
  {
    if n > 0 {
      SpentByBounded(costs, picks, r, i, n - 1);
      SumPrefix(costs[n - 1], Taken(picks, n - 1, r, i), picks[n - 1]);
    }
  }

  /** Nothing left out would still fit, since each queue is sorted by cost. */
  lemma NothingElseFits(costs: seq<seq<nat>>, budget: nat, picks: seq<nat>, i: nat, r: nat)
    requires TookTurns(costs, budget, picks) && i < |costs| && picks[i] <= r < |costs[i]|
    requires forall a, b :: 0 <= a <= b < |costs[i]| ==> costs[i][a] <= costs[i][b]
    ensures Spent(costs, picks, |costs|) + costs[i][r] > budget
  {
    SpentByBounded(costs, picks, picks[i], i, |costs|);
  }

  lemma {:induction false} SpentAll(costs: seq<seq<nat>>, picks: seq<nat>, n: nat)
    requires Counts(costs, picks) && n <= |costs|
    ensures Spent(costs, picks, n) <= Total(costs, n)
    ensures (forall i :: 0 <= i < n ==> picks[i] == |costs[i]|) ==> Spent(costs, picks, n) == Total(costs, n)
    ensures forall i ::
              0 <= i < n && picks[i] < |costs[i]| ==> Spent(costs, picks, n) + costs[i][picks[i]] <= Total(costs, n)
  {
    if n > 0 {
      SpentAll(costs, picks, n - 1);
      assert costs[n - 1][..|costs[n - 1]|] == costs[n - 1];
      SumPrefix(costs[n - 1], picks[n - 1], |costs[n - 1]|);
    }
  }

  /** Everything is shown exactly when everything together is within the budget. */
  lemma CompleteIffAffordable(costs: seq<seq<nat>>, budget: nat, picks: seq<nat>)
    requires TookTurns(costs, budget, picks) && Spent(costs, picks, |costs|) <= budget
    ensures (forall i :: 0 <= i < |costs| ==> picks[i] == |costs[i]|) <==> Total(costs, |costs|) <= budget
  {
    SpentAll(costs, picks, |costs|);
    forall i | 0 <= i < |costs| && picks[i] < |costs[i]| ensures Total(costs, |costs|) > budget {
      SpentByBounded(costs, picks, picks[i], i, |costs|);
    }
  }

  predicate Agree(p: seq<nat>, q: seq<nat>, r: nat, i: nat)
    requires |p| == |q|
  {
    forall k :: 0 <= k < |p| ==> Taken(p, k, r, i) == Taken(q, k, r, i)
  }

  lemma {:induction false} SpentByAgrees(costs: seq<seq<nat>>, p: seq<nat>, q: seq<nat>, r: nat, i: nat, n: nat)
    requires Counts(costs, p) && Counts(costs, q) && n <= |costs| && Agree(p, q, r, i)
    ensures SpentBy(costs, p, r, i, n) == SpentBy(costs, q, r, i, n)
  {
    if n > 0 { SpentByAgrees(costs, p, q, r, i, n - 1); }
  }

  /** If two selections agree before a turn, they agree on it. */
  lemma TurnAgrees(costs: seq<seq<nat>>, budget: nat, p: seq<nat>, q: seq<nat>, r: nat, i: nat)
    requires TookTurns(costs, budget, p) && TookTurns(costs, budget, q) && i < |costs| && Agree(p, q, r, i)
    ensures Agree(p, q, r, i + 1)
  {
    SpentByAgrees(costs, p, q, r, i, |costs|);
    assert Taken(p, i, r, i) == Taken(q, i, r, i);
    assert r < p[i] ==> Fits(costs, budget, p, r, i);
    assert r < q[i] ==> Fits(costs, budget, q, r, i);
    hide TookTurns, SpentBy;
    assert Taken(p, i, r, i + 1) == Taken(q, i, r, i + 1);
    var after := i + 1;
    forall k | 0 <= k < |p| ensures Taken(p, k, r, after) == Taken(q, k, r, after) {
      assert Taken(p, k, r, i) == Taken(q, k, r, i);
    }
  }

  lemma {:induction false} TurnsAgree(costs: seq<seq<nat>>, budget: nat, p: seq<nat>, q: seq<nat>, r: nat, i: nat)
    requires TookTurns(costs, budget, p) && TookTurns(costs, budget, q) && i <= |costs|
    ensures Agree(p, q, r, i)
    decreases r, i
  {
    if i > 0 {
      TurnsAgree(costs, budget, p, q, r, i - 1);
      TurnAgrees(costs, budget, p, q, r, i - 1);
    } else if r > 0 {
      TurnsAgree(costs, budget, p, q, r - 1, |costs|);
      forall k | 0 <= k < |p| ensures Taken(p, k, r, i) == Taken(q, k, r, i) {
        assert Taken(p, k, r - 1, |costs|) == Taken(q, k, r - 1, |costs|);
      }
    }
  }

  /** The rule leaves no choice: the selection is the only one that takes turns. */
  lemma TurnsAreDetermined(costs: seq<seq<nat>>, budget: nat, p: seq<nat>, q: seq<nat>)
    requires TookTurns(costs, budget, p) && TookTurns(costs, budget, q)
    ensures p == q
  {
    forall k | 0 <= k < |p| ensures p[k] == q[k] {
      TurnsAgree(costs, budget, p, q, p[k] + q[k], 0);
      assert Taken(p, k, p[k] + q[k], 0) == Taken(q, k, p[k] + q[k], 0);
    }
  }

  // ---------------------------------------------------------------- the selection loop

  predicate Ascending(xs: seq<nat>) {
    forall i, k :: 0 <= i < k < |xs| ==> xs[i] < xs[k]
  }

  /** Turn `i` of round `r` is before namespace `at`'s turn in round `round`. */
  predicate Before(r: nat, i: nat, round: nat, at: nat) {
    r < round || (r == round && i < at)
  }

  /** The loop's state when namespace `at` may have its turn in a round; `open` are the namespaces still active. */
  predicate Turning(costs: seq<seq<nat>>, budget: nat, picks: seq<nat>, round: nat, at: nat, open: seq<nat>) {
    && Counts(costs, picks)
    && Ascending(open)
    && (forall i :: 0 <= i < |costs| ==> picks[i] <= if i < at then round + 1 else round)
    && (forall i ::
          i in open ==> i < |costs| && picks[i] < |costs[i]| && picks[i] == if i < at then round + 1 else round)
    && (forall i, r :: 0 <= i < |costs| && 0 <= r < picks[i] ==> Fits(costs, budget, picks, r, i))
    && (forall i :: 0 <= i < |costs| && i !in open && picks[i] < |costs[i]| ==>
          Before(picks[i], i, round, at) && !Fits(costs, budget, picks, picks[i], i))
  }

  lemma NewRound(costs: seq<seq<nat>>, budget: nat, picks: seq<nat>, round: nat, at: nat, open: seq<nat>)
    requires Turning(costs, budget, picks, round, at, open) && forall i :: i in open ==> i < at
    ensures Turning(costs, budget, picks, round + 1, 0, open)
  {
  }

  lemma SkipTo(costs: seq<seq<nat>>, budget: nat, picks: seq<nat>, round: nat, at: nat, i: nat, open: seq<nat>)
    requires Turning(costs, budget, picks, round, at, open) && at <= i && forall k :: k in open ==> k < at || i <= k
    ensures Turning(costs, budget, picks, round, i, open)
  {
  }

  lemma TurnTaken(costs: seq<seq<nat>>, budget: nat, picks: seq<nat>, round: nat, i: nat, open: seq<nat>,
                  after: seq<nat>)
    requires Turning(costs, budget, picks, round, i, open) && i in open
    requires Spent(costs, picks, |costs|) + costs[i][round] <= budget
    requires Ascending(after) && forall k :: k in after <==> k in open && (k != i || round + 1 < |costs[i]|)
    ensures Turning(costs, budget, picks[i := round + 1], round, i + 1, after)
  {
    var next := picks[i := round + 1];
    SpentNow(costs, picks, round, i, |costs|);
    forall k, r | 0 <= k < |costs| && 0 <= r < next[k] ensures Fits(costs, budget, next, r, k) {
      SpentByStable(costs, picks, i, r, k, |costs|);
      assert r < picks[k] ==> Fits(costs, budget, picks, r, k);
    }
    forall k | 0 <= k < |costs| && k !in after && next[k] < |costs[k]|
      ensures Before(next[k], k, round, i + 1) && !Fits(costs, budget, next, next[k], k)
    {
      SpentByStable(costs, picks, i, picks[k], k, |costs|);
    }
  }

  lemma TurnPassed(costs: seq<seq<nat>>, budget: nat, picks: seq<nat>, round: nat, i: nat, open: seq<nat>,
                   after: seq<nat>)
    requires Turning(costs, budget, picks, round, i, open) && i in open
    requires Spent(costs, picks, |costs|) + costs[i][round] > budget
    requires Ascending(after) && forall k :: k in after <==> k in open && k != i
    ensures Turning(costs, budget, picks, round, i + 1, after)
  {
    SpentNow(costs, picks, round, i, |costs|);
  }

  /** The namespaces among the first `n` that have tools, in order. */
  function Active(queues: seq<seq<Tool>>, n: nat): (r: seq<nat>)
    requires n <= |queues|
    ensures Ascending(r) && forall i: nat :: i in r <==> i < n && queues[i] != []
  {
    if n == 0 then []
    else
      var before := Active(queues, n - 1);
      assert forall k :: 0 <= k < |before| ==> before[k] in before;
      before + if queues[n - 1] != [] then [n - 1] else []
  }

  function Lengths(xss: seq<seq<Tool>>): (r: seq<nat>)
    ensures |r| == |xss| && forall i :: 0 <= i < |r| ==> r[i] == |xss[i]|
  {
    seq(|xss|, i requires 0 <= i < |xss| => |xss[i]|)
  }

  /** Each namespace's tools so far and its remaining queue. */
  predicate Divided(queues: seq<seq<Tool>>, picked: seq<seq<Tool>>, rest: seq<seq<Tool>>) {
    && |picked| == |rest| == |queues|
    && forall i :: 0 <= i < |queues| ==> queues[i] == picked[i] + rest[i]
  }

  lemma Divide(queues: seq<seq<Tool>>, picked: seq<seq<Tool>>, rest: seq<seq<Tool>>, i: nat)
    requires Divided(queues, picked, rest) && i < |queues| && rest[i] != []
    ensures Divided(queues, picked[i := picked[i] + [rest[i][0]]], rest[i := rest[i][1..]])
    ensures Lengths(picked[i := picked[i] + [rest[i][0]]]) == Lengths(picked)[i := |picked[i]| + 1]
    ensures |picked[i]| < |queues[i]| && Cost(rest[i][0]) == AllCosts(queues)[i][|picked[i]|]
  {
    assert picked[i] + rest[i] == (picked[i] + [rest[i][0]]) + rest[i][1..];
  }

  predicate AllBelow(xs: seq<nat>, bound: nat) {
    forall k :: k in xs ==> k < bound
  }

  predicate AllFrom(xs: seq<nat>, bound: nat) {
    forall k :: k in xs ==> bound <= k
  }

  /** Leaving out one element of an ascending sequence. */
  lemma Leave(went: seq<nat>, i: nat, tail: seq<nat>, at: nat)
    requires Ascending(went + [i] + tail) && AllBelow(went, at) && at <= i
    ensures Ascending(went + tail) && AllFrom(tail, i + 1) && AllBelow(went, i + 1) && AllBelow(went + [i], i + 1)
    ensures forall k :: k in went + [i] + tail ==> k < at || i <= k
    ensures forall k :: k in went + tail <==> k in went + [i] + tail && k != i
  {
    var all, w := went + [i] + tail, |went|;
    var without := went + tail;
    assert all[w] == i;
    forall j | 0 <= j < |tail| ensures i < tail[j] { assert all[w + 1 + j] == tail[j]; }
    forall a, b | 0 <= a < b < |without| ensures without[a] < without[b] {
      var a', b' := if a < w then a else a + 1, if b < w then b else b + 1;
      assert all[a'] == without[a] && all[b'] == without[b];
    }
  }

  /** The whole state of the selection when namespace `at` may have its turn in a round. */
  ghost predicate Serving(queues: seq<seq<Tool>>, budget: nat, picked: seq<seq<Tool>>, rest: seq<seq<Tool>>, used: nat,
                          round: nat, at: nat, open: seq<nat>)
  {
    && Divided(queues, picked, rest)
    && Turning(AllCosts(queues), budget, Lengths(picked), round, at, open)
    && used == Spent(AllCosts(queues), Lengths(picked), |queues|) && used <= budget
  }

  lemma MyTurn(queues: seq<seq<Tool>>, budget: nat, picked: seq<seq<Tool>>, rest: seq<seq<Tool>>, used: nat,
               round: nat, at: nat, i: nat, open: seq<nat>)
    requires Serving(queues, budget, picked, rest, used, round, at, open) && i in open
    requires at <= i && forall k :: k in open ==> k < at || i <= k
    ensures Serving(queues, budget, picked, rest, used, round, i, open)
    ensures |picked| == |rest| == |queues| && i < |queues| && |picked[i]| == round < |queues[i]| &&
              queues[i] == picked[i] + rest[i]
  {
    hide Fits, Spent, Cost, Ascending;
    SkipTo(AllCosts(queues), budget, Lengths(picked), round, at, i, open);
  }

  lemma Pass(queues: seq<seq<Tool>>, budget: nat, picked: seq<seq<Tool>>, rest: seq<seq<Tool>>, used: nat,
             round: nat, i: nat, open: seq<nat>, after: seq<nat>)
    requires Serving(queues, budget, picked, rest, used, round, i, open) && i in open && i < |rest| && rest[i] != []
    requires used + Cost(rest[i][0]) > budget
    requires Ascending(after) && forall k :: k in after <==> k in open && k != i
    ensures Serving(queues, budget, picked, rest, used, round, i + 1, after)
  {
    hide Fits, Spent, Cost, Ascending;
    Divide(queues, picked, rest, i);
    TurnPassed(AllCosts(queues), budget, Lengths(picked), round, i, open, after);
  }

  lemma Take(queues: seq<seq<Tool>>, budget: nat, picked: seq<seq<Tool>>, rest: seq<seq<Tool>>, used: nat,
             round: nat, i: nat, open: seq<nat>, after: seq<nat>)
    requires Serving(queues, budget, picked, rest, used, round, i, open) && i in open
    requires |picked| == |rest| && i < |rest| && rest[i] != [] && used + Cost(rest[i][0]) <= budget
    requires Ascending(after) && forall k :: k in after <==> k in open && (k != i || |rest[i]| > 1)
    ensures Serving(queues, budget, picked[i := picked[i] + [rest[i][0]]], rest[i := rest[i][1..]],
              used + Cost(rest[i][0]), round, i + 1, after)
  {
    hide Fits, Spent, Cost, Ascending;
    Divide(queues, picked, rest, i);
    SpentGrows(AllCosts(queues), Lengths(picked), i, |queues|);
    TurnTaken(AllCosts(queues), budget, Lengths(picked), round, i, open, after);
  }

  /** One namespace's turn: lines 530-536. */
  method Turn(queues: seq<seq<Tool>>, budget: nat, i: nat, picked0: seq<seq<Tool>>, rest0: seq<seq<Tool>>, used0: nat,
              went: seq<nat>,
              ghost round: nat, ghost at: nat, ghost tail: seq<nat>)
    returns (picked: seq<seq<Tool>>, rest: seq<seq<Tool>>, used: nat, stillActive: seq<nat>)
    requires Serving(queues, budget, picked0, rest0, used0, round, at, went + [i] + tail)
    requires AllBelow(went, at) && at <= i
    ensures Serving(queues, budget, picked, rest, used, round, i + 1, stillActive + tail)
    ensures AllBelow(stillActive, i + 1) && AllFrom(tail, i + 1)
  {
    hide Serving, Cost, Ascending, AllBelow, AllFrom;
    picked, rest, used, stillActive := picked0, rest0, used0, went;
    ghost var open := went + [i] + tail;
    OpenAscends(queues, budget, picked, rest, used, round, at, open);
    Leave(went, i, tail, at);
    MyTurn(queues, budget, picked, rest, used, round, at, i, open);
    var tool := rest[i][0];
    if used + Cost(tool) > budget {
      Pass(queues, budget, picked, rest, used, round, i, open, went + tail);
      return;
    }
    Take(queues, budget, picked, rest, used, round, i, open, if |rest[i]| > 1 then open else went + tail);
    picked := picked[i := picked[i] + [tool]];
    used := used + Cost(tool);
    rest := rest[i := rest[i][1..]];
    if rest[i] != [] { stillActive := went + [i]; }
  }

  /** One round: lines 528-538. */
  method Round(queues: seq<seq<Tool>>, budget: nat, active: seq<nat>, picked0: seq<seq<Tool>>, rest0: seq<seq<Tool>>,
               used0: nat, ghost round: nat)
    returns (picked: seq<seq<Tool>>, rest: seq<seq<Tool>>, used: nat, stillActive: seq<nat>)
    requires Serving(queues, budget, picked0, rest0, used0, round, 0, active)
    ensures Serving(queues, budget, picked, rest, used, round + 1, 0, stillActive)
  {
    hide Serving;
    ghost var at := 0;
    picked, rest, used, stillActive := picked0, rest0, used0, [];
    var p := 0;
    assert [] + active[0..] == active;
    while p < |active|
      invariant 0 <= p <= |active|
      invariant Serving(queues, budget, picked, rest, used, round, at, stillActive + active[p..])
      invariant AllBelow(stillActive, at) && AllFrom(active[p..], at)
    {
      var i := active[p];
      assert i in active[p..] && at <= i;
      assert stillActive + active[p..] == stillActive + [i] + active[p + 1..];
      ghost var tail := active[p + 1..];
      picked, rest, used, stillActive := Turn(queues, budget, i, picked, rest, used, stillActive, round, at, tail);
      p := p + 1;
      at := i + 1;
    }
    assert stillActive + active[p..] == stillActive;
    EndRound(queues, budget, picked, rest, used, round, at, stillActive);
  }

  lemma EndRound(queues: seq<seq<Tool>>, budget: nat, picked: seq<seq<Tool>>, rest: seq<seq<Tool>>, used: nat,
                 round: nat, at: nat, open: seq<nat>)
    requires Serving(queues, budget, picked, rest, used, round, at, open) && AllBelow(open, at)
    ensures Serving(queues, budget, picked, rest, used, round + 1, 0, open)
  {
    hide Turning, Spent;
    NewRound(AllCosts(queues), budget, Lengths(picked), round, at, open);
  }

  lemma OpenAscends(queues: seq<seq<Tool>>, budget: nat, picked: seq<seq<Tool>>, rest: seq<seq<Tool>>, used: nat,
                    round: nat, at: nat, open: seq<nat>)
    requires Serving(queues, budget, picked, rest, used, round, at, open)
    ensures Ascending(open)
  {
  }

  function SortAll(collation: Collation, groups: seq<seq<Tool>>): (r: seq<seq<Tool>>)
    ensures |r| == |groups| && forall i :: 0 <= i < |r| ==> r[i] == Sort(collation, groups[i])
  {
    seq(|groups|, i requires 0 <= i < |groups| => Sort(collation, groups[i]))
  }

  ghost function Longest(queues: seq<seq<Tool>>): (n: nat)
    ensures forall i :: 0 <= i < |queues| ==> |queues[i]| <= n
  {
    if queues == [] then 0 else Max(Longest(queues[..|queues| - 1]), |queues[|queues| - 1]|)
  }

  /** Lines 517-539. `groups` are the namespaces in order, each with its tools. */
  method Select(collation: Collation, groups: seq<seq<Tool>>, budget: nat) returns (picked: seq<seq<Tool>>, used: nat)
    ensures |picked| == |groups|
    ensures forall i :: 0 <= i < |groups| ==> picked[i] <= Sort(collation, groups[i])
    ensures TookTurns(AllCosts(SortAll(collation, groups)), budget, Lengths(picked))
    ensures used == Spent(AllCosts(SortAll(collation, groups)), Lengths(picked), |groups|) <= budget
  {
    hide Serving, TookTurns, Fits, Spent, Sort, Active, Cost, NotAfter, Longest;
    var queues := SortAll(collation, groups);
    ghost var round := 0;
    picked := seq(|groups|, _ => []);
    var rest := queues;
    used := 0;
    var active := Active(queues, |queues|);
    StartServing(queues, budget, picked);
    while |active| > 0
      invariant Serving(queues, budget, picked, rest, used, round, 0, active)
      decreases Longest(queues) - round
    {
      assert active[0] in active;
      OpenRemains(queues, budget, picked, rest, used, round, active, active[0]);
      picked, rest, used, active := Round(queues, budget, active, picked, rest, used, round);
      round := round + 1;
    }
    FinallyTookTurns(queues, budget, picked, rest, used, round);
  }

  lemma StartTurning(costs: seq<seq<nat>>, budget: nat, picks: seq<nat>, open: seq<nat>)
    requires |picks| == |costs| && forall i :: 0 <= i < |picks| ==> picks[i] == 0
    requires Ascending(open) && forall i: nat :: i in open <==> i < |costs| && |costs[i]| > 0
    ensures Turning(costs, budget, picks, 0, 0, open)
  {
    hide Fits, Ascending;
  }

  lemma StartServing(queues: seq<seq<Tool>>, budget: nat, picked: seq<seq<Tool>>)
    requires |picked| == |queues| && forall i :: 0 <= i < |picked| ==> picked[i] == []
    ensures Serving(queues, budget, picked, queues, 0, 0, 0, Active(queues, |queues|))
  {
    hide Turning, Fits, Active, Ascending, Cost;
    SpentNothing(AllCosts(queues), Lengths(picked), |queues|);
    StartTurning(AllCosts(queues), budget, Lengths(picked), Active(queues, |queues|));
    hide Spent;
  }

  lemma OpenRemains(queues: seq<seq<Tool>>, budget: nat, picked: seq<seq<Tool>>, rest: seq<seq<Tool>>, used: nat,
                    round: nat, open: seq<nat>, i: nat)
    requires Serving(queues, budget, picked, rest, used, round, 0, open) && i in open
    ensures i < |queues| && round < |queues[i]|
  {
  }

  lemma FinallyTookTurns(queues: seq<seq<Tool>>, budget: nat, picked: seq<seq<Tool>>, rest: seq<seq<Tool>>, used: nat,
                         round: nat)
    requires Serving(queues, budget, picked, rest, used, round, 0, [])
    ensures |picked| == |queues| && TookTurns(AllCosts(queues), budget, Lengths(picked))
    ensures forall i :: 0 <= i < |queues| ==> picked[i] <= queues[i]
    ensures used == Spent(AllCosts(queues), Lengths(picked), |queues|) <= budget
  {
    hide Fits, Spent;
  }

  /** What the selection means for the tools themselves. */
  lemma SelectionIsGreedy(collation: Collation, groups: seq<seq<Tool>>, budget: nat, picked: seq<seq<Tool>>, i: nat,
                          tool: Tool)
    requires |picked| == |groups| && i < |groups| && picked[i] <= Sort(collation, groups[i])
    requires TookTurns(AllCosts(SortAll(collation, groups)), budget, Lengths(picked))
    requires tool in Sort(collation, groups[i])[|picked[i]|..]
    ensures Spent(AllCosts(SortAll(collation, groups)), Lengths(picked), |groups|) + Cost(tool) > budget
    ensures forall t :: t in picked[i] ==> NotAfter(collation, t, tool)
  {
    hide Fits, Spent, NotAfter, Cost, Sort, TookTurns;
    var queue := Sort(collation, groups[i]);
    var r :| |picked[i]| <= r < |queue| && queue[r] == tool;
    var costs := AllCosts(SortAll(collation, groups));
    assert costs[i] == Costs(queue);
    SortedCosts(collation, queue);
    NothingElseFits(costs, budget, Lengths(picked), i, r);
    forall t | t in picked[i] ensures NotAfter(collation, t, tool) {
      var k :| 0 <= k < |picked[i]| && picked[i][k] == t;
      assert queue[k] == t;
    }
  }

  lemma SortedCosts(collation: Collation, tools: seq<Tool>)
    requires Sorted(collation, tools)
    ensures forall a, b :: 0 <= a <= b < |tools| ==> Costs(tools)[a] <= Costs(tools)[b]
  {
    forall a, b | 0 <= a <= b < |tools| ensures Costs(tools)[a] <= Costs(tools)[b] {
      assert a < b ==> NotAfter(collation, tools[a], tools[b]);
    }
  }
}
