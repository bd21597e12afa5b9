// When the memo of the waiter budget counts what the recursion guard alone
// would, and when the order of the calls is free: exactly when no two
// different helpers reach each other.
module WaiterMemo {
  import opened Basics
  import opened WaiterBudget

  /* ----- the reading with the guard alone ----- */

  function GuardedItems(g: Graph, items: seq<Item>, path: set<Helper>): Reading
    decreases g.Keys - path, 1, |items|
  {
    if items == [] then NOTHING
    else GuardedItem(g, GuardedItems(g, items[..|items| - 1], path), items[|items| - 1], path)
  }

  function GuardedItem(g: Graph, before: Reading, item: Item, path: set<Helper>): Reading
    decreases g.Keys - path, 0, 1
  {
    match item
    case Waiter(timeout) => TakeWaiter(before, timeout)
    case Call(helper) => if helper !in g then before else TakeHelper(before, GuardedHelper(g, helper, path))
  }

  function GuardedHelper(g: Graph, helper: Helper, path: set<Helper>): Reading
    requires helper in g
    decreases g.Keys - path, 0, 0
  {
    if helper in path then NOTHING else GuardedItems(g, g[helper], path + {helper})
  }

  // No two different helpers reach each other. A helper may call itself.
  ghost predicate Untangled(g: Graph) {
    forall a, b :: Reaches(g, a, b) && Reaches(g, b, a) ==> a == b
  }

  lemma NoCycleIsNoTangle(g: Graph)
    requires Acyclic(g)
    ensures Untangled(g)
  {
    if a, b :| Reaches(g, a, b) && Reaches(g, b, a) && a != b {
      ReachThenReach(g, a, b, a);
      OnlyHelpersReach(g, a, b);
      assert false;
    }
  }

  lemma OnlyHelpersReach(g: Graph, a: Helper, b: Helper)
    requires Reaches(g, a, b)
    ensures a in g
  {
    var p :| IsWalk(g, p) && |p| > 1 && p[0] == a && p[|p| - 1] == b;
    assert Calls(g, p[0], p[1]);
  }

  lemma ReachThenReach(g: Graph, a: Helper, b: Helper, c: Helper)
    requires Reaches(g, a, b) && Reaches(g, b, c)
    ensures Reaches(g, a, c)
  {
    var p :| IsWalk(g, p) && |p| > 1 && p[0] == a && p[|p| - 1] == b;
    var q :| IsWalk(g, q) && |q| > 1 && q[0] == b && q[|q| - 1] == c;
    assert IsWalk(g, p + q[1..]);
  }

  /* ----- enough: nothing on the path is reached again ----- */

  // Two paths that hold the same of what is reached from here.
  ghost predicate SameOnwards(g: Graph, h: Helper, p: set<Helper>, q: set<Helper>) {
    (h in p <==> h in q) && forall m :: Reaches(g, h, m) ==> (m in p <==> m in q)
  }

  ghost predicate SameForAll(g: Graph, items: seq<Item>, p: set<Helper>, q: set<Helper>) {
    forall b :: b in g && Call(b) in items ==> SameOnwards(g, b, p, q)
  }

  lemma {:induction false} OnlyWhatIsReachedMatters(g: Graph, items: seq<Item>, p: set<Helper>, q: set<Helper>)
    requires SameForAll(g, items, p, q)
    ensures GuardedItems(g, items, p) == GuardedItems(g, items, q)
    decreases g.Keys - p, 1, |items|
  {
    if items != [] {
      var init, last := items[..|items| - 1], items[|items| - 1];
      assert items == init + [last];
      OnlyWhatIsReachedMatters(g, init, p, q);
      if last.Call? && last.helper in g {
        assert SameOnwards(g, last.helper, p, q);
        OnlyWhatAHelperReachesMatters(g, last.helper, p, q);
      }
    }
  }

  lemma {:induction false} OnlyWhatAHelperReachesMatters(g: Graph, h: Helper, p: set<Helper>, q: set<Helper>)
    requires h in g && SameOnwards(g, h, p, q)
    ensures GuardedHelper(g, h, p) == GuardedHelper(g, h, q)
    decreases g.Keys - p, 0, 0
  {
    if h !in p {
      forall b | b in g && Call(b) in g[h] ensures SameOnwards(g, b, p + {h}, q + {h}) {
        ACallReaches(g, h, b);
        forall m | Reaches(g, b, m) ensures m in p + {h} <==> m in q + {h} {
          CallThenReach(g, h, b, m);
        }
      }
      OnlyWhatIsReachedMatters(g, g[h], p + {h}, q + {h});
    }
  }

  // Nothing but h itself is both on a path to h and reached from it.
  lemma ThePathIsBehind(g: Graph, h: Helper, path: set<Helper>)
    requires Untangled(g) && h in g && h !in path && LeadsTo(g, path, h)
    ensures GuardedHelper(g, h, path) == GuardedHelper(g, h, {})
  {
    forall b | b in g && Call(b) in g[h] ensures SameOnwards(g, b, path + {h}, {} + {h}) {
      ACallReaches(g, h, b);
      forall m | Reaches(g, b, m) ensures m in path + {h} <==> m in {h} {
        CallThenReach(g, h, b, m);
      }
    }
    OnlyWhatIsReachedMatters(g, g[h], path + {h}, {} + {h});
  }

  ghost predicate MemoIsGuarded(g: Graph, memo: Memo) {
    forall h :: h in memo ==> h in g && memo[h] == GuardedHelper(g, h, {})
  }

  // Inside a helper the memo is read and never written.
  lemma {:induction false} InsideNothingIsWritten(g: Graph, items: seq<Item>, path: set<Helper>, memo: Memo)
    requires path != {}
    ensures ReadItems(g, items, path, memo).1 == memo
    decreases g.Keys - path, 1, |items|
  {
    if items != [] {
      var last := items[|items| - 1];
      InsideNothingIsWritten(g, items[..|items| - 1], path, memo);
      if last.Call? && last.helper in g {
        if last.helper !in memo && last.helper !in path {
          InsideNothingIsWritten(g, g[last.helper], path + {last.helper}, memo);
        }
        assert ReadHelper(g, last.helper, path, memo).1 == memo;
      }
    }
  }

  lemma {:induction false} ItemsMatch(g: Graph, items: seq<Item>, path: set<Helper>, memo: Memo)
    requires Untangled(g) && MemoIsGuarded(g, memo) && path !! memo.Keys
    requires forall b :: b in g && Call(b) in items ==> LeadsTo(g, path, b)
    ensures ReadItems(g, items, path, memo).0 == GuardedItems(g, items, path)
    ensures MemoIsGuarded(g, ReadItems(g, items, path, memo).1)
    decreases g.Keys - path, 1, |items|
  {
    if items != [] {
      var init, last := items[..|items| - 1], items[|items| - 1];
      assert items == init + [last];
      ItemsMatch(g, init, path, memo);
      if path != {} {
        InsideNothingIsWritten(g, init, path, memo);
      }
      if last.Call? && last.helper in g {
        HelperMatches(g, last.helper, path, ReadItems(g, init, path, memo).1);
      }
    }
  }

  lemma {:induction false} HelperMatches(g: Graph, h: Helper, path: set<Helper>, memo: Memo)
    requires Untangled(g) && h in g && MemoIsGuarded(g, memo) && path !! memo.Keys && LeadsTo(g, path, h)
    ensures ReadHelper(g, h, path, memo).0 == GuardedHelper(g, h, path)
    ensures MemoIsGuarded(g, ReadHelper(g, h, path, memo).1)
    decreases g.Keys - path, 0, 0
  {
    if h in memo {
      ThePathIsBehind(g, h, path);
    } else if h !in path {
      forall b | b in g && Call(b) in g[h] ensures LeadsTo(g, path + {h}, b) {
        ACallReaches(g, h, b);
        forall p | p in path ensures Reaches(g, p, b) {
          ReachThenCall(g, p, h, b);
        }
      }
      ItemsMatch(g, g[h], path + {h}, memo);
      assert {} + {h} == {h};
    }
  }

  /* ----- needed: a tangle is counted twice ----- */

  predicate Spends(item: Item) {
    item == Waiter(Unstated) || (item.Waiter? && item.timeout.Folds? && item.timeout.value > 0)
  }

  predicate NoneNegative(items: seq<Item>) {
    forall item :: item in items && item.Waiter? && item.timeout.Folds? ==> item.timeout.value >= 0
  }

  // Every helper waits for some time itself, and nobody for less than none.
  ghost predicate Costly(g: Graph) {
    forall h :: h in g ==> NoneNegative(g[h]) && exists i :: 0 <= i < |g[h]| && Spends(g[h][i])
  }

  lemma {:induction false} NothingCostsLessThanNone(g: Graph, items: seq<Item>, path: set<Helper>)
    requires Costly(g) && NoneNegative(items)
    ensures GuardedItems(g, items, path).ms >= 0
    ensures (exists i :: 0 <= i < |items| && Spends(items[i])) ==> GuardedItems(g, items, path).ms > 0
    decreases g.Keys - path, 1, |items|
  {
    if items != [] {
      var init, last := items[..|items| - 1], items[|items| - 1];
      assert items == init + [last];
      NothingCostsLessThanNone(g, init, path);
      if last.Call? && last.helper in g {
        if last.helper !in path {
          NothingCostsLessThanNone(g, g[last.helper], path + {last.helper});
        }
        assert GuardedHelper(g, last.helper, path).ms >= 0;
      }
      if i :| 0 <= i < |items| && Spends(items[i]) {
        assert i < |init| ==> Spends(init[i]);
      }
    }
  }

  lemma AHelperCosts(g: Graph, h: Helper, path: set<Helper>)
    requires Costly(g) && h in g
    ensures GuardedHelper(g, h, path).ms >= 0
    ensures h !in path ==> GuardedHelper(g, h, path).ms > 0
  {
    NothingCostsLessThanNone(g, g[h], path + {h});
  }

  // On a wider path no more is counted.
  lemma {:induction false} AWiderPathCountsNoMore(g: Graph, items: seq<Item>, p: set<Helper>, q: set<Helper>)
    requires Costly(g) && p <= q
    ensures GuardedItems(g, items, p).ms >= GuardedItems(g, items, q).ms
    decreases g.Keys - p, 1, |items|
  {
    if items != [] {
      var last := items[|items| - 1];
      AWiderPathCountsNoMore(g, items[..|items| - 1], p, q);
      if last.Call? && last.helper in g {
        AWiderPathCountsAHelperNoMore(g, last.helper, p, q);
      }
    }
  }

  lemma {:induction false} AWiderPathCountsAHelperNoMore(g: Graph, h: Helper, p: set<Helper>, q: set<Helper>)
    requires Costly(g) && h in g && p <= q
    ensures GuardedHelper(g, h, p).ms >= GuardedHelper(g, h, q).ms
    decreases g.Keys - p, 0, 0
  {
    AHelperCosts(g, h, p);
    if h !in q {
      AWiderPathCountsNoMore(g, g[h], p + {h}, q + {h});
    }
  }

  // And less, where one helper called counts less.
  lemma {:induction false} OneCallCountsLess(g: Graph, items: seq<Item>, i: nat, p: set<Helper>, q: set<Helper>)
    requires Costly(g) && p <= q && i < |items| && items[i].Call? && items[i].helper in g
    requires GuardedHelper(g, items[i].helper, p).ms > GuardedHelper(g, items[i].helper, q).ms
    ensures GuardedItems(g, items, p).ms > GuardedItems(g, items, q).ms
    decreases |items|
  {
    var init, last := items[..|items| - 1], items[|items| - 1];
    if i < |init| {
      OneCallCountsLess(g, init, i, p, q);
    } else {
      AWiderPathCountsNoMore(g, init, p, q);
    }
    if last.Call? && last.helper in g {
      AWiderPathCountsAHelperNoMore(g, last.helper, p, q);
    }
  }

  // A helper that reaches c counts less once c is on the path.
  lemma {:induction false} AnEnteredHelperIsMissed(g: Graph, walk: seq<Helper>, p: set<Helper>, q: set<Helper>)
    requires Costly(g) && IsWalk(g, walk) && walk[0] in g && Clear(walk, p)
    requires p <= q && walk[|walk| - 1] in q
    ensures GuardedHelper(g, walk[0], p).ms > GuardedHelper(g, walk[0], q).ms
    decreases |walk|
  {
    var h := walk[0];
    if h in q {
      AHelperCosts(g, h, p);
    } else if i :| 1 <= i < |walk| && walk[i] == h {
      AnEnteredHelperIsMissed(g, walk[i..], p, q);
    } else {
      assert Calls(g, walk[0], walk[1]);
      AnEnteredHelperIsMissed(g, walk[1..], p + {h}, q + {h});
      var call :| 0 <= call < |g[h]| && g[h][call] == Call(walk[1]);
      OneCallCountsLess(g, g[h], call, p + {h}, q + {h});
    }
  }

  // With one helper in the memo, read first from outside, no call counts less
  // than the guard alone would, and a call of it inside may count more.
  lemma {:induction false} TheMemoCountsNoLess(g: Graph, items: seq<Item>, path: set<Helper>, a: Helper)
    requires Costly(g) && a in g && path != {} && a !in path
    ensures var read := ReadItems(g, items, path, map[a := GuardedHelper(g, a, {})]).0;
            && read.ms >= GuardedItems(g, items, path).ms
            && (Call(a) in items && GuardedHelper(g, a, {}).ms > GuardedHelper(g, a, path).ms ==>
                  read.ms > GuardedItems(g, items, path).ms)
    decreases g.Keys - path, 1, |items|
  {
    if items != [] {
      var memo: Memo := map[a := GuardedHelper(g, a, {})];
      var init, last := items[..|items| - 1], items[|items| - 1];
      assert items == init + [last];
      TheMemoCountsNoLess(g, init, path, a);
      InsideNothingIsWritten(g, init, path, memo);
      AWiderPathCountsAHelperNoMore(g, a, {}, path);
      if last.Call? && last.helper in g {
        if last.helper != a && last.helper !in path {
          TheMemoCountsNoLess(g, g[last.helper], path + {last.helper}, a);
        }
        assert ReadHelper(g, last.helper, path, memo).0.ms >= GuardedHelper(g, last.helper, path).ms;
      }
    }
  }

  // The last helper before a on a walk back to it.
  lemma {:induction false} TheLastCallBack(g: Graph, walk: seq<Helper>, a: Helper) returns (c: Helper)
    requires IsWalk(g, walk) && |walk| > 1 && walk[0] != a && walk[|walk| - 1] == a
    ensures c != a && Calls(g, c, a) && (c == walk[0] || Reaches(g, walk[0], c))
    decreases |walk|
  {
    assert Calls(g, walk[0], walk[1]);
    if walk[1] == a {
      c := walk[0];
    } else {
      c := TheLastCallBack(g, walk[1..], a);
      if c == walk[1] { ACallReaches(g, walk[0], c); } else { CallThenReach(g, walk[0], walk[1], c); }
    }
  }

  lemma ATangleCloses(g: Graph) returns (a: Helper, c: Helper)
    requires !Untangled(g)
    ensures c != a && Calls(g, c, a) && Reaches(g, a, c)
  {
    var b: Helper;
    a, b :| Reaches(g, a, b) && Reaches(g, b, a) && a != b;
    var walk :| IsWalk(g, walk) && |walk| > 1 && walk[0] == b && walk[|walk| - 1] == a;
    c := TheLastCallBack(g, walk, a);
    if c != b {
      ReachThenReach(g, a, b, c);
    }
  }

  // What c counts once a was read before it.
  function After(g: Graph, a: Helper, c: Helper): Reading
    requires a in g && c in g
  {
    ReadHelper(g, c, {}, map[a := GuardedHelper(g, a, {})]).0
  }

  lemma ATangleCountsMore(g: Graph, a: Helper, c: Helper)
    requires Costly(g) && c != a && Calls(g, c, a) && Reaches(g, a, c)
    ensures After(g, a, c).ms > GuardedHelper(g, c, {}).ms
  {
    var walk :| IsWalk(g, walk) && |walk| > 1 && walk[0] == a && walk[|walk| - 1] == c;
    AnEnteredHelperIsMissed(g, walk, {}, {} + {c});
    TheMemoCountsNoLess(g, g[c], {} + {c}, a);
  }

  lemma {:induction false} WithoutAMemo(g: Graph, items: seq<Item>, path: set<Helper>)
    requires path != {}
    ensures ReadItems(g, items, path, map[]).0 == GuardedItems(g, items, path)
    decreases g.Keys - path, 1, |items|
  {
    if items != [] {
      var last := items[|items| - 1];
      WithoutAMemo(g, items[..|items| - 1], path);
      InsideNothingIsWritten(g, items[..|items| - 1], path, map[]);
      if last.Call? && last.helper in g {
        if last.helper !in path {
          WithoutAMemo(g, g[last.helper], path + {last.helper});
        }
        assert ReadHelper(g, last.helper, path, map[]).0 == GuardedHelper(g, last.helper, path);
      }
    }
  }

  /* ----- the exact condition ----- */

  function Read(g: Graph, body: seq<Item>): Reading {
    ReadItems(g, body, {}, map[]).0
  }

  ghost predicate TheMemoIsTheGuard(g: Graph) {
    forall body :: Read(g, body) == GuardedItems(g, body, {})
  }

  ghost predicate OrderIsFree(g: Graph) {
    forall body, other :: multiset(body) == multiset(other) ==> Read(g, body).ms == Read(g, other).ms
  }

  lemma TheFirstIsGuarded(g: Graph, a: Helper)
    requires a in g
    ensures ReadHelper(g, a, {}, map[]) == (GuardedHelper(g, a, {}), map[a := GuardedHelper(g, a, {})])
  {
    WithoutAMemo(g, g[a], {} + {a});
    InsideNothingIsWritten(g, g[a], {} + {a}, map[]);
  }

  lemma OneMoreCall(g: Graph, body: seq<Item>, h: Helper, before: Reading, memo: Memo, reading: Reading, memo': Memo)
    requires h in g && ReadItems(g, body, {}, map[]) == (before, memo) && ReadHelper(g, h, {}, memo) == (reading, memo')
    ensures ReadItems(g, body + [Call(h)], {}, map[]) == (TakeHelper(before, reading), memo')
  {
    assert (body + [Call(h)])[..|body|] == body;
  }

  lemma TwoCalls(g: Graph, a: Helper, c: Helper)
    requires a in g && c in g && a != c
    ensures var first, second := GuardedHelper(g, a, {}), After(g, a, c);
            ReadItems(g, [Call(a)] + [Call(c)], {}, map[])
            == (TakeHelper(TakeHelper(NOTHING, first), second), map[a := first][c := second])
  {
    var first, second := GuardedHelper(g, a, {}), After(g, a, c);
    TheFirstIsGuarded(g, a);
    InsideNothingIsWritten(g, g[c], {} + {c}, map[a := first]);
    assert [] + [Call(a)] == [Call(a)];
    OneMoreCall(g, [], a, NOTHING, map[], first, map[a := first]);
    OneMoreCall(g, [Call(a)], c, TakeHelper(NOTHING, first), map[a := first], second, map[a := first][c := second]);
  }

  // Two helpers, and the second again, which the memo then answers.
  lemma CallsInARow(g: Graph, a: Helper, c: Helper)
    requires a in g && c in g && a != c
    ensures var first, second := GuardedHelper(g, a, {}).ms, After(g, a, c).ms;
            && Read(g, [Call(a)] + [Call(c)]).ms == first + second
            && Read(g, [Call(a)] + [Call(c)] + [Call(a)]).ms == 2 * first + second
            && Read(g, [Call(a)] + [Call(c)] + [Call(c)]).ms == first + 2 * second
  {
    var first, second := GuardedHelper(g, a, {}), After(g, a, c);
    var memo: Memo, before := map[a := first][c := second], TakeHelper(TakeHelper(NOTHING, first), second);
    TwoCalls(g, a, c);
    OneMoreCall(g, [Call(a)] + [Call(c)], a, before, memo, first, memo);
    OneMoreCall(g, [Call(a)] + [Call(c)], c, before, memo, second, memo);
  }

  lemma TheGuardCountsLess(g: Graph, a: Helper, c: Helper)
    requires a in g && c in g && a != c && After(g, a, c).ms > GuardedHelper(g, c, {}).ms
    ensures Read(g, [Call(a)] + [Call(c)]) != GuardedItems(g, [Call(a)] + [Call(c)], {})
  {
    CallsInARow(g, a, c);
    GuardedCallsAdd(g, [Call(a)], [Call(c)], {});
    assert [Call(a)][..0] == [] && [Call(c)][..0] == [];
  }

  lemma TheSameCalls(g: Graph, body: seq<Item>, other: seq<Item>)
    requires OrderIsFree(g) && multiset(body) == multiset(other)
    ensures Read(g, body).ms == Read(g, other).ms
  {
  }

  lemma AFreeOrderCountsTheGuard(g: Graph, a: Helper, c: Helper)
    requires a in g && c in g && a != c && OrderIsFree(g)
    ensures After(g, a, c).ms == GuardedHelper(g, c, {}).ms
  {
    CallsInARow(g, a, c);
    CallsInARow(g, c, a);
    TheSameCalls(g, [Call(a)] + [Call(c)], [Call(c)] + [Call(a)]);
    TheSameCalls(g, [Call(a)] + [Call(c)] + [Call(c)], [Call(c)] + [Call(a)] + [Call(c)]);
  }

  lemma ATangleIsSeen(g: Graph)
    requires Costly(g) && !Untangled(g)
    ensures !TheMemoIsTheGuard(g) && !OrderIsFree(g)
  {
    var a, c := ATangleCloses(g);
    ATangleCountsMore(g, a, c);
    TheGuardCountsLess(g, a, c);
    if OrderIsFree(g) {
      AFreeOrderCountsTheGuard(g, a, c);
    }
  }

  lemma {:induction false} GuardedCallsAdd(g: Graph, first: seq<Item>, second: seq<Item>, path: set<Helper>)
    ensures GuardedItems(g, first + second, path).ms
         == GuardedItems(g, first, path).ms + GuardedItems(g, second, path).ms
    decreases |second|
  {
    if second == [] {
      assert first + second == first;
    } else {
      var init := second[..|second| - 1];
      assert (first + second)[..|first + second| - 1] == first + init;
      GuardedCallsAdd(g, first, init, path);
    }
  }

  lemma OneTakenOut(items: seq<Item>, i: nat)
    requires i < |items|
    ensures multiset(items[..i] + items[i + 1..]) == multiset(items) - multiset{items[i]}
  {
    assert items == items[..i] + [items[i]] + items[i + 1..];
  }

  lemma TheSameTakenOut(body: seq<Item>, other: seq<Item>) returns (i: nat)
    requires body != [] && multiset(body) == multiset(other)
    ensures i < |other| && other[i] == body[0]
    ensures multiset(body[..0] + body[1..]) == multiset(other[..i] + other[i + 1..])
  {
    assert body[0] in multiset(other);
    i :| 0 <= i < |other| && other[i] == body[0];
    OneTakenOut(body, 0);
    OneTakenOut(other, i);
  }

  lemma OneItemAdds(g: Graph, items: seq<Item>, i: nat, path: set<Helper>)
    requires i < |items|
    ensures GuardedItems(g, items, path).ms
         == GuardedItems(g, [items[i]], path).ms + GuardedItems(g, items[..i] + items[i + 1..], path).ms
  {
    GuardedCallsAdd(g, items[..i], items[i + 1..], path);
    GuardedCallsAdd(g, items[..i], [items[i]], path);
    GuardedCallsAdd(g, items[..i] + [items[i]], items[i + 1..], path);
    assert items == items[..i] + [items[i]] + items[i + 1..];
  }

  lemma {:induction false} GuardedOrderIsFree(g: Graph, body: seq<Item>, other: seq<Item>, path: set<Helper>)
    requires multiset(body) == multiset(other)
    ensures GuardedItems(g, body, path).ms == GuardedItems(g, other, path).ms
    decreases |body|
  {
    if body == [] {
      assert |multiset(other)| == |other|;
    } else {
      var i := TheSameTakenOut(body, other);
      GuardedOrderIsFree(g, body[..0] + body[1..], other[..i] + other[i + 1..], path);
      OneItemAdds(g, body, 0, path);
      OneItemAdds(g, other, i, path);
    }
  }

  // Where no two different helpers reach each other, whatever they cost: the
  // memo counts what the guard alone would, and the total is that of the calls
  // in any order.
  lemma UntangledIsEnough(g: Graph)
    requires Untangled(g)
    ensures TheMemoIsTheGuard(g) && OrderIsFree(g)
  {
    forall body ensures Read(g, body) == GuardedItems(g, body, {}) {
      ItemsMatch(g, body, {}, map[]);
    }
    forall body, other | multiset(body) == multiset(other) ensures Read(g, body).ms == Read(g, other).ms {
      GuardedOrderIsFree(g, body, other, {});
    }
  }

  // And where every helper waits for some time itself, exactly there.
  lemma TheOrderIsFreeExactlyWhenUntangled(g: Graph)
    requires Costly(g)
    ensures TheMemoIsTheGuard(g) <==> Untangled(g)
    ensures OrderIsFree(g) <==> Untangled(g)
  {
    if Untangled(g) { UntangledIsEnough(g); } else { ATangleIsSeen(g); }
  }
}
