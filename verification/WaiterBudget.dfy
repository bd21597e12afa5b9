// The waiter budget of a test body (frontend/scripts/test-budget.ts): the sum
// of its waiters' timeouts, following each call into the helper it names, with
// a guard against recursion and a memo of the helpers already read.
module WaiterBudget {
  import opened Basics

  type Helper = nat

  // The timeout argument of one waiter: none (or the literal undefined), an
  // argument nobody can see inside, an expression that folds, or one that
  // does not.
  datatype Timeout = Unstated | Opaque(text: string) | Folds(value: int) | Unfoldable(text: string)

  // What a body does, in the order it is visited.
  datatype Item = Waiter(timeout: Timeout) | Call(helper: Helper)

  // The helpers with a body. A call of anything else is not followed.
  type Graph = map<Helper, seq<Item>>

  datatype Reading = Reading(ms: int, unresolved: seq<string>)

  type Memo = map<Helper, Reading>

  const DEFAULT_WAITER_MS := 2782
  const NOTHING := Reading(0, [])

  function TakeWaiter(r: Reading, timeout: Timeout): Reading {
    match timeout
    case Unstated => r.(ms := r.ms + DEFAULT_WAITER_MS)
    case Opaque(text) => r.(unresolved := r.unresolved + [text])
    case Folds(value) => r.(ms := r.ms + value)
    case Unfoldable(text) => r.(unresolved := r.unresolved + [text])
  }

  function Joined(mine: seq<string>, theirs: seq<string>): seq<string> {
    if theirs == [] then mine
    else
      var before, last := Joined(mine, theirs[..|theirs| - 1]), theirs[|theirs| - 1];
      if last in before then before else before + [last]
  }

  function TakeHelper(r: Reading, helper: Reading): Reading {
    Reading(r.ms + helper.ms, Joined(r.unresolved, helper.unresolved))
  }

  /* ----- the reader, as a function of its path and its memo ----- */

  function ReadItems(g: Graph, items: seq<Item>, path: set<Helper>, memo: Memo): (Reading, Memo)
    decreases g.Keys - path, 1, |items|
  {
    if items == [] then (NOTHING, memo)
    else
      var (before, memo') := ReadItems(g, items[..|items| - 1], path, memo);
      ReadItem(g, before, items[|items| - 1], path, memo')
  }

  function ReadItem(g: Graph, before: Reading, item: Item, path: set<Helper>, memo: Memo): (Reading, Memo)
    decreases g.Keys - path, 0, 1
  {
    match item
    case Waiter(timeout) => (TakeWaiter(before, timeout), memo)
    case Call(helper) =>
      if helper !in g then (before, memo)
      else
        var (reading, memo') := ReadHelper(g, helper, path, memo);
        (TakeHelper(before, reading), memo')
  }

  function ReadHelper(g: Graph, helper: Helper, path: set<Helper>, memo: Memo): (Reading, Memo)
    requires helper in g
    decreases g.Keys - path, 0, 0
  {
    if helper in memo then (memo[helper], memo)
    else if helper in path then (NOTHING, memo)
    else
      var (reading, memo') := ReadItems(g, g[helper], path + {helper}, memo);
      (reading, if path == {} then memo'[helper := reading] else memo')
  }

  lemma OneMoreItem(g: Graph, items: seq<Item>, i: nat, path: set<Helper>, memo: Memo)
    requires i < |items|
    ensures var (before, memo') := ReadItems(g, items[..i], path, memo);
            ReadItems(g, items[..i + 1], path, memo) == ReadItem(g, before, items[i], path, memo')
  {
    assert items[..i + 1][..i] == items[..i];
  }

  // Reads in place. The guard makes every call of BudgetOf run with a strictly
  // larger path, so it comes back on every finite graph, cyclic or not.
  class Reader {
    const g: Graph
    var path: set<Helper>
    var memo: Memo

    constructor (g: Graph)
      ensures this.g == g && path == {} && memo == map[]
    {
      this.g, path, memo := g, {}, map[];
    }

    method HelperCost(body: Helper) returns (reading: Reading)
      requires body in g
      modifies this
      ensures path == old(path)
      ensures (reading, memo) == ReadHelper(g, body, path, old(memo))
      decreases g.Keys - path, 0
    {
      if body in memo {
        return memo[body];
      }
      if body in path {
        return NOTHING;
      }
      var outermost := path == {};
      ghost var entered := path;
      path := path + {body};
      reading := BudgetOf(g[body]);
      path := path - {body};
      assert path == entered;
      if outermost {
        memo := memo[body := reading];
      }
    }

    method BudgetOf(items: seq<Item>) returns (reading: Reading)
      modifies this
      ensures path == old(path)
      ensures (reading, memo) == ReadItems(g, items, path, old(memo))
      decreases g.Keys - path, 1
    {
      var ms := 0;
      var unresolved: seq<string> := [];
      for i := 0 to |items|
        invariant path == old(path)
        invariant (Reading(ms, unresolved), memo) == ReadItems(g, items[..i], path, old(memo))
      {
        OneMoreItem(g, items, i, path, old(memo));
        match items[i] {
          case Waiter(timeout) => ms, unresolved := Waited(ms, unresolved, timeout);
          case Call(helper) =>
            if helper in g {
              var cost := HelperCost(helper);
              ms := ms + cost.ms;
              unresolved := Join(unresolved, cost.unresolved);
            }
        }
      }
      assert items[..|items|] == items;
      return Reading(ms, unresolved);
    }
  }

  method Waited(ms: int, unresolved: seq<string>, timeout: Timeout) returns (ms': int, unresolved': seq<string>)
    ensures Reading(ms', unresolved') == TakeWaiter(Reading(ms, unresolved), timeout)
    // A timeout that folds counts what it says, one that is not stated the
    // library's own, and one that cannot be read is named and never guessed.
    ensures ms' == ms + if timeout == Unstated then 2782 else if timeout.Folds? then timeout.value else 0
    ensures unresolved' == unresolved + if timeout == Unstated || timeout.Folds? then [] else [timeout.text]
    ensures forall t :: Unread([Waiter(timeout)], t) ==> unresolved' == unresolved + [t]
    ensures unresolved' != unresolved ==> Unread([Waiter(timeout)], unresolved'[|unresolved|])
  {
    match timeout {
      case Unstated => return ms + DEFAULT_WAITER_MS, unresolved;
      case Opaque(text) =>
        assert Waiter(timeout) in [Waiter(timeout)];
        return ms, unresolved + [text];
      case Folds(value) => return ms + value, unresolved;
      case Unfoldable(text) =>
        assert Waiter(timeout) in [Waiter(timeout)];
        return ms, unresolved + [text];
    }
  }

  method Join(mine: seq<string>, theirs: seq<string>) returns (joined: seq<string>)
    ensures joined == Joined(mine, theirs)
    ensures forall t :: t in joined <==> t in mine || t in theirs
    // What was there stays as it was, and what is added is added once.
    ensures mine <= joined
    ensures forall i, j :: 0 <= i < j < |joined| && |mine| <= j ==> joined[i] != joined[j]
  {
    joined := mine;
    for i := 0 to |theirs|
      invariant mine <= joined
      invariant forall i, j :: 0 <= i < j < |joined| && |mine| <= j ==> joined[i] != joined[j]
      invariant joined == Joined(mine, theirs[..i])
      invariant forall t :: t in joined <==> t in mine || t in theirs[..i]
    {
      assert theirs[..i + 1][..i] == theirs[..i];
      if theirs[i] !in joined {
        joined := joined + [theirs[i]];
      }
    }
    assert theirs[..|theirs|] == theirs;
  }

  lemma {:induction false} JoiningKeepsEveryText(mine: seq<string>, theirs: seq<string>)
    ensures forall t :: t in Joined(mine, theirs) <==> t in mine || t in theirs
  {
    if theirs != [] {
      JoiningKeepsEveryText(mine, theirs[..|theirs| - 1]);
      assert theirs == theirs[..|theirs| - 1] + [theirs[|theirs| - 1]];
    }
  }

  /* ----- who reaches whom ----- */

  predicate Calls(g: Graph, a: Helper, b: Helper) {
    a in g && b in g && Call(b) in g[a]
  }

  predicate IsWalk(g: Graph, p: seq<Helper>) {
    p != [] && forall i :: 0 < i < |p| ==> Calls(g, p[i - 1], p[i])
  }

  ghost predicate Reaches(g: Graph, a: Helper, b: Helper) {
    exists p :: IsWalk(g, p) && |p| > 1 && p[0] == a && p[|p| - 1] == b
  }

  ghost predicate Acyclic(g: Graph) {
    forall a :: a in g ==> !Reaches(g, a, a)
  }

  ghost function Below(g: Graph, a: Helper): set<Helper> {
    set b | b in g && Reaches(g, a, b)
  }

  lemma CallThenReach(g: Graph, a: Helper, b: Helper, c: Helper)
    requires Calls(g, a, b) && Reaches(g, b, c)
    ensures Reaches(g, a, c)
  {
    var p :| IsWalk(g, p) && |p| > 1 && p[0] == b && p[|p| - 1] == c;
    assert IsWalk(g, [a] + p);
  }

  lemma ReachThenCall(g: Graph, a: Helper, b: Helper, c: Helper)
    requires Reaches(g, a, b) && Calls(g, b, c)
    ensures Reaches(g, a, c)
  {
    var p :| IsWalk(g, p) && |p| > 1 && p[0] == a && p[|p| - 1] == b;
    assert IsWalk(g, p + [c]);
  }

  lemma ACallReaches(g: Graph, a: Helper, b: Helper)
    requires Calls(g, a, b)
    ensures Reaches(g, a, b)
  {
    assert IsWalk(g, [a, b]);
  }

  // Where nothing reaches itself, a call goes to strictly fewer helpers.
  lemma ACallGoesDown(g: Graph, a: Helper, b: Helper)
    requires Acyclic(g) && Calls(g, a, b)
    ensures Below(g, b) < Below(g, a)
  {
    forall c | c in Below(g, b) ensures c in Below(g, a) {
      CallThenReach(g, a, b, c);
    }
    ACallReaches(g, a, b);
    assert b in Below(g, a) && b !in Below(g, b);
  }

  /* ----- the memo agrees with plain recursion ----- */

  // Plain recursion needs no guard and no memo where nothing reaches itself:
  // bound stays above every helper the items may call.
  ghost predicate Bounds(g: Graph, items: seq<Item>, bound: nat) {
    forall b :: b in g && Call(b) in items ==> |Below(g, b)| < bound
  }

  lemma ABodyIsBounded(g: Graph, a: Helper)
    requires Acyclic(g) && a in g
    ensures Bounds(g, g[a], |Below(g, a)|)
  {
    forall b | b in g && Call(b) in g[a] ensures |Below(g, b)| < |Below(g, a)| {
      ACallGoesDown(g, a, b);
      SubsetSize(Below(g, b), Below(g, a));
    }
  }

  // Each call costs its helper's whole body again.
  ghost function Plain(g: Graph, items: seq<Item>, bound: nat): Reading
    requires Acyclic(g) && Bounds(g, items, bound)
    decreases bound, |items|
  {
    if items == [] then NOTHING
    else
      var before, last := Plain(g, items[..|items| - 1], bound), items[|items| - 1];
      match last
      case Waiter(timeout) => TakeWaiter(before, timeout)
      case Call(helper) =>
        assert last in items;
        if helper !in g then before else TakeHelper(before, Cost(g, helper))
  }

  ghost function Cost(g: Graph, helper: Helper): Reading
    requires Acyclic(g) && helper in g
    decreases |Below(g, helper)|, |g[helper]| + 1
  {
    ABodyIsBounded(g, helper);
    Plain(g, g[helper], |Below(g, helper)|)
  }

  ghost predicate MemoAgrees(g: Graph, memo: Memo)
    requires Acyclic(g)
  {
    forall h :: h in memo ==> h in g && memo[h] == Cost(g, h)
  }

  ghost predicate LeadsTo(g: Graph, path: set<Helper>, h: Helper) {
    forall p :: p in path ==> Reaches(g, p, h)
  }

  lemma {:induction false} ItemsAgree(g: Graph, items: seq<Item>, path: set<Helper>, memo: Memo, bound: nat)
    requires Acyclic(g) && Bounds(g, items, bound) && MemoAgrees(g, memo)
    requires forall b :: b in g && Call(b) in items ==> LeadsTo(g, path, b)
    ensures ReadItems(g, items, path, memo).0 == Plain(g, items, bound)
    ensures MemoAgrees(g, ReadItems(g, items, path, memo).1)
    decreases g.Keys - path, 1, |items|
  {
    if items != [] {
      var init, last := items[..|items| - 1], items[|items| - 1];
      ItemsAgree(g, init, path, memo, bound);
      if last.Call? && last.helper in g {
        assert last in items;
        HelperAgrees(g, last.helper, path, ReadItems(g, init, path, memo).1);
      }
    }
  }

  lemma {:induction false} HelperAgrees(g: Graph, helper: Helper, path: set<Helper>, memo: Memo)
    requires Acyclic(g) && helper in g && MemoAgrees(g, memo) && LeadsTo(g, path, helper)
    ensures ReadHelper(g, helper, path, memo).0 == Cost(g, helper)
    ensures MemoAgrees(g, ReadHelper(g, helper, path, memo).1)
    decreases g.Keys - path, 0, 0
  {
    if helper !in memo {
      assert helper !in path;
      ABodyIsBounded(g, helper);
      forall b | b in g && Call(b) in g[helper] ensures LeadsTo(g, path + {helper}, b) {
        forall p | p in path + {helper} ensures Reaches(g, p, b) {
          if p == helper { ACallReaches(g, helper, b); } else { ReachThenCall(g, p, helper, b); }
        }
      }
      ItemsAgree(g, g[helper], path + {helper}, memo, |Below(g, helper)|);
    }
  }

  // A test body read from an empty path and an empty memo, over helpers none
  // of which reaches itself: milliseconds and unresolved timeouts alike are
  // what plain recursion counts.
  lemma TheMemoAgreesWithPlainRecursion(g: Graph, body: seq<Item>, bound: nat)
    requires Acyclic(g) && Bounds(g, body, bound)
    ensures ReadItems(g, body, {}, map[]).0 == Plain(g, body, bound)
  {
    ItemsAgree(g, body, {}, map[], bound);
  }

  // Plain recursion counts every call: two bodies one after the other cost the
  // sum of both, so a helper awaited four times costs four times.
  lemma {:induction false} CostsAdd(g: Graph, first: seq<Item>, second: seq<Item>, bound: nat)
    requires Acyclic(g) && Bounds(g, first + second, bound) && Bounds(g, first, bound) && Bounds(g, second, bound)
    ensures Plain(g, first + second, bound).ms == Plain(g, first, bound).ms + Plain(g, second, bound).ms
    decreases |second|
  {
    if second == [] {
      assert first + second == first;
    } else {
      var init := second[..|second| - 1];
      assert (first + second)[..|first + second| - 1] == first + init;
      assert forall b :: Call(b) in first + init ==> Call(b) in first + second;
      CostsAdd(g, first, init, bound);
    }
  }

  // And one call costs what the body it names does.
  lemma ACallCostsItsBody(g: Graph, helper: Helper, bound: nat)
    requires Acyclic(g) && helper in g && Bounds(g, [Call(helper)], bound)
    requires Bounds(g, g[helper], |Below(g, helper)|)
    ensures Plain(g, [Call(helper)], bound).ms == Plain(g, g[helper], |Below(g, helper)|).ms
  {
    assert [Call(helper)][..0] == [];
    assert Plain(g, [Call(helper)], bound) == TakeHelper(NOTHING, Cost(g, helper));
  }

  // With mutual recursion the guard truncates, and the total depends on which
  // helper the body calls first.
  lemma MutualRecursionCountsByCallOrder()
    ensures exists g: Graph, a, b ::
              ReadItems(g, [Call(a), Call(b)], {}, map[]).0.ms != ReadItems(g, [Call(b), Call(a)], {}, map[]).0.ms
  {
    var one, two := Waiter(Folds(1)), Waiter(Folds(2));
    var g: Graph := map[0 := [one, Call(1)], 1 := [two, Call(0)]];
    FirstThenSecond(g, 0, 1, 1, 2);
    FirstThenSecond(g, 1, 0, 2, 1);
  }

  lemma FirstThenSecond(g: Graph, a: Helper, b: Helper, x: int, y: int)
    requires a != b && g.Keys == {a, b} && g[a] == [Waiter(Folds(x)), Call(b)] && g[b] == [Waiter(Folds(y)), Call(a)]
    ensures ReadItems(g, [Call(a), Call(b)], {}, map[]).0.ms == 2 * x + 3 * y
  {
    var none: set<Helper> := {};
    Truncated(g, b, a, y, none + {a}, map[]);
    TwoItems(g, a, b, x, {}, map[]);
    var first := ReadHelper(g, a, {}, map[]);
    assert first == (Reading(x + y, []), map[a := Reading(x + y, [])]);
    TwoItems(g, b, a, y, {}, first.1);
    assert ReadHelper(g, b, {}, first.1).0 == Reading(x + 2 * y, []);
    assert [Call(a), Call(b)][..1] == [Call(a)] && [Call(a)][..0] == [];
    assert ReadItems(g, [Call(a)], {}, map[]) == first;
  }

  // A body of one waiter and one call.
  lemma TwoItems(g: Graph, a: Helper, b: Helper, x: int, path: set<Helper>, memo: Memo)
    requires a in g && b in g && g[a] == [Waiter(Folds(x)), Call(b)]
    ensures var (reading, memo') := ReadHelper(g, b, path + {a}, memo);
            ReadItems(g, g[a], path + {a}, memo) == (TakeHelper(Reading(x, []), reading), memo')
  {
    assert g[a][..1] == [Waiter(Folds(x))] && g[a][..1][..0] == [];
    assert ReadItems(g, g[a][..1], path + {a}, memo) == (Reading(x, []), memo);
  }

  // The second helper of a cycle, met while the first is being read.
  lemma Truncated(g: Graph, a: Helper, b: Helper, x: int, path: set<Helper>, memo: Memo)
    requires a in g && b in g && g[a] == [Waiter(Folds(x)), Call(b)]
    requires a !in path && b in path && a !in memo && b !in memo
    ensures ReadHelper(g, a, path, memo) == (Reading(x, []), memo)
  {
    TwoItems(g, a, b, x, path, memo);
  }

  /* ----- no unread timeout is hidden ----- */

  // A waiter of these items whose timeout the reader could not read.
  predicate Unread(items: seq<Item>, t: string) {
    Waiter(Opaque(t)) in items || Waiter(Unfoldable(t)) in items
  }

  predicate Clear(p: seq<Helper>, path: set<Helper>) {
    forall i :: 0 <= i < |p| ==> p[i] !in path
  }

  // One is in the body of this helper, or of a helper it reaches without
  // entering the path.
  ghost predicate Hides(g: Graph, h: Helper, path: set<Helper>, t: string) {
    exists p :: HidesAlong(g, p, h, path, t)
  }

  predicate HidesAlong(g: Graph, p: seq<Helper>, h: Helper, path: set<Helper>, t: string) {
    IsWalk(g, p) && p[0] == h && Clear(p, path) && p[|p| - 1] in g && Unread(g[p[|p| - 1]], t)
  }

  ghost predicate ItemsHide(g: Graph, items: seq<Item>, path: set<Helper>, t: string) {
    Unread(items, t) || exists b :: b in g && Call(b) in items && Hides(g, b, path, t)
  }

  lemma {:induction false} ABodyHidesAsMuch(g: Graph, h: Helper, path: set<Helper>, t: string, p: seq<Helper>)
    requires HidesAlong(g, p, h, path, t)
    ensures h in g && ItemsHide(g, g[h], path + {h}, t)
    decreases |p|
  {
    if i :| 1 <= i < |p| && p[i] == h {
      ABodyHidesAsMuch(g, h, path, t, p[i..]);
    } else if |p| > 1 {
      assert Calls(g, p[0], p[1]);
      assert HidesAlong(g, p[1..], p[1], path + {h}, t);
    }
  }

  lemma ABodyHidesNoMore(g: Graph, h: Helper, t: string)
    requires h in g && ItemsHide(g, g[h], {}, t)
    ensures Hides(g, h, {}, t)
  {
    if Unread(g[h], t) {
      assert HidesAlong(g, [h], h, {}, t);
    } else {
      var b :| b in g && Call(b) in g[h] && Hides(g, b, {}, t);
      var p :| HidesAlong(g, p, b, {}, t);
      assert Calls(g, h, b);
      assert HidesAlong(g, [h] + p, h, {}, t);
    }
  }

  lemma AWiderPathHidesNoMore(g: Graph, h: Helper, path: set<Helper>, t: string)
    requires Hides(g, h, path, t)
    ensures Hides(g, h, {}, t)
  {
    var p :| HidesAlong(g, p, h, path, t);
    assert HidesAlong(g, p, h, {}, t);
  }

  ghost predicate MemoReports(g: Graph, memo: Memo, t: string) {
    forall h :: h in memo ==> h in g && (t in memo[h].unresolved <==> Hides(g, h, {}, t))
  }

  // Within a path nothing is missed that can be reached without re-entering
  // it, and nothing is made up.
  lemma {:induction false} ItemsReport(g: Graph, items: seq<Item>, path: set<Helper>, memo: Memo, t: string)
    requires MemoReports(g, memo, t)
    ensures ItemsHide(g, items, path, t) ==> t in ReadItems(g, items, path, memo).0.unresolved
    ensures t in ReadItems(g, items, path, memo).0.unresolved ==> ItemsHide(g, items, {}, t)
    ensures MemoReports(g, ReadItems(g, items, path, memo).1, t)
    decreases g.Keys - path, 1, |items|
  {
    if items != [] {
      var init, last := items[..|items| - 1], items[|items| - 1];
      var (before, memo') := ReadItems(g, init, path, memo);
      assert items == init + [last];
      ItemsReport(g, init, path, memo, t);
      OneMoreItemHides(g, init, last, path, t);
      OneMoreItemHides(g, init, last, {}, t);
      if last.Call? && last.helper in g {
        HelperReports(g, last.helper, path, memo', t);
        JoiningKeepsEveryText(before.unresolved, ReadHelper(g, last.helper, path, memo').0.unresolved);
      }
    }
  }

  lemma OneMoreItemHides(g: Graph, init: seq<Item>, last: Item, path: set<Helper>, t: string)
    ensures ItemsHide(g, init + [last], path, t) <==>
              ItemsHide(g, init, path, t) || last == Waiter(Opaque(t)) || last == Waiter(Unfoldable(t))
              || (last.Call? && last.helper in g && Hides(g, last.helper, path, t))
  {
    assert forall item :: item in init + [last] <==> item in init || item == last;
  }

  lemma {:induction false} HelperReports(g: Graph, helper: Helper, path: set<Helper>, memo: Memo, t: string)
    requires helper in g && MemoReports(g, memo, t)
    ensures Hides(g, helper, path, t) ==> t in ReadHelper(g, helper, path, memo).0.unresolved
    ensures t in ReadHelper(g, helper, path, memo).0.unresolved ==> Hides(g, helper, {}, t)
    ensures MemoReports(g, ReadHelper(g, helper, path, memo).1, t)
    decreases g.Keys - path, 0, 0
  {
    if Hides(g, helper, path, t) {
      AWiderPathHidesNoMore(g, helper, path, t);
      var p :| HidesAlong(g, p, helper, path, t);
      ABodyHidesAsMuch(g, helper, path, t, p);
    }
    if helper !in memo && helper !in path {
      ItemsReport(g, g[helper], path + {helper}, memo, t);
      if ItemsHide(g, g[helper], {}, t) {
        ABodyHidesNoMore(g, helper, t);
      }
    }
  }

  // On every finite graph, cyclic or not, the reading of a test body lists
  // exactly the unread timeouts of the waiters it can reach.
  lemma EveryUnreadTimeoutIsReported(g: Graph, body: seq<Item>, t: string)
    ensures t in ReadItems(g, body, {}, map[]).0.unresolved <==> ItemsHide(g, body, {}, t)
  {
    ItemsReport(g, body, {}, map[], t);
  }
}
