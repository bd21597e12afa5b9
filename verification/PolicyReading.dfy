// What a consumer reads in the stream of a policy, in its own words
// (tools/gitleakspolicy/main.go:127-176): the fields of each allowlist under
// that allowlist's number, and three facts about the file under zero.
module PolicyReading {
  import opened Basics
  import opened PolicyStream

  // One field each, for the values that are not empty.
  function Rows(index: string, word: string, values: seq<string>): seq<seq<string>> {
    if values == [] then []
    else
      var last := values[|values| - 1];
      Rows(index, word, values[..|values| - 1]) + (if last == "" then [] else [[index, word, last]])
  }

  // What decimal digits stand for.
  function NumberOf(digits: string): int {
    if digits == "" then 0
    else NumberOf(digits[..|digits| - 1]) * 10 + (digits[|digits| - 1] as int - '0' as int)
  }

  lemma {:induction false} DecimalReadsBack(n: nat)
    ensures NumberOf(Decimal(n)) == n
  {
    var digits := Decimal(n);
    if n < 10 {
      assert digits[..0] == "" && NumberOf(digits[..0]) == 0;
    } else {
      DecimalReadsBack(n / 10);
      assert digits[..|digits| - 1] == Decimal(n / 10);
    }
  }

  function TriplesHeld(records: seq<Record>): seq<seq<string>> {
    Triples(Held(records))
  }

  lemma OneMoreTriple(records: seq<Record>, last: Record)
    ensures TriplesHeld(records + [last]) == TriplesHeld(records) + if last.value == "" then [] else [Triple(last)]
  {
    HeldGrows(records, last);
    if last.value == "" {
      assert Held(records) + [] == Held(records);
    } else {
      OneMoreHeld(Held(records), last);
    }
  }

  lemma {:induction false} TriplesInTwo(first: seq<Record>, second: seq<Record>)
    ensures TriplesHeld(first + second) == TriplesHeld(first) + TriplesHeld(second)
    decreases |second|
  {
    if second == [] {
      assert first + second == first;
    } else {
      var init, last := second[..|second| - 1], second[|second| - 1];
      assert second == init + [last];
      Regroup(first, init, [last]);
      TriplesInTwo(first, init);
      OneMoreTriple(first + init, last);
      OneMoreTriple(init, last);
      Regroup(TriplesHeld(first), TriplesHeld(init), if last.value == "" then [] else [Triple(last)]);
    }
  }

  lemma {:induction false} ValuesAreRows(k: nat, kind: Kind, word: string, values: seq<string>)
    requires word == KindName(kind)
    ensures TriplesHeld(Values(k, kind, values)) == Rows(Decimal(k), word, values)
  {
    if values != [] {
      var init, last := values[..|values| - 1], values[|values| - 1];
      ValuesAreRows(k, kind, word, init);
      assert Values(k, kind, values) == Values(k, kind, init) + [Record(k, kind, last)];
      OneMoreTriple(Values(k, kind, init), Record(k, kind, last));
    }
  }

  // What stands under the number of one allowlist.
  function RowsOf(index: string, a: Allowlist): seq<seq<string>> {
    Rows(index, "desc", [a.description]) + Rows(index, "rule", a.targetRules) + Rows(index, "path", a.paths)
    + Rows(index, "regex", a.regexes)
  }

  lemma AListIsRead(k: nat, a: Allowlist)
    ensures TriplesHeld(FieldsOf(k, a)) == RowsOf(Decimal(k), a)
  {
    var desc := Values(k, Desc, [a.description]);
    var rules, paths := Values(k, Rule, a.targetRules), Values(k, Path, a.paths);
    var regexes := Values(k, Regex, a.regexes);
    assert desc == [Record(k, Desc, a.description)];
    ValuesAreRows(k, Desc, "desc", [a.description]);
    ValuesAreRows(k, Rule, "rule", a.targetRules);
    ValuesAreRows(k, Path, "path", a.paths);
    ValuesAreRows(k, Regex, "regex", a.regexes);
    TriplesInTwo(desc, rules);
    TriplesInTwo(desc + rules, paths);
    TriplesInTwo(desc + rules + paths, regexes);
  }

  /* ----- which number is whose ----- */

  // The allowlists in the first r rules.
  function InRules(rules: seq<seq<Allowlist>>, r: nat): nat
    requires r <= |rules|
  {
    if r == 0 then 0 else InRules(rules, r - 1) + |rules[r - 1]|
  }

  predicate StandsAt(lists: seq<Allowlist>, at: nat, part: seq<Allowlist>) {
    at + |part| <= |lists| && forall j :: 0 <= j < |part| ==> lists[at + j] == part[j]
  }

  lemma {:induction false} ARuleStandsInItsPlace(rules: seq<seq<Allowlist>>, n: nat, r: nat)
    requires r < n <= |rules|
    ensures StandsAt(Flat(rules[..n]), InRules(rules, r), rules[r])
  {
    FlatIsAsLong(rules, n - 1);
    assert rules[..n][..n - 1] == rules[..n - 1];
    if r < n - 1 {
      ARuleStandsInItsPlace(rules, n - 1, r);
    }
  }

  lemma {:induction false} FlatIsAsLong(rules: seq<seq<Allowlist>>, n: nat)
    requires n <= |rules|
    ensures |Flat(rules[..n])| == InRules(rules, n)
  {
    if n > 0 {
      FlatIsAsLong(rules, n - 1);
      assert rules[..n][..n - 1] == rules[..n - 1];
    }
  }

  lemma StandsAfter(front: seq<Allowlist>, lists: seq<Allowlist>, at: nat, part: seq<Allowlist>)
    requires StandsAt(lists, at, part)
    ensures StandsAt(front + lists, |front| + at, part)
  {
    forall j | 0 <= j < |part| ensures (front + lists)[|front| + at + j] == part[j] {
      assert (front + lists)[|front| + (at + j)] == lists[at + j];
    }
  }

  // The allowlists of the file count first, then those of each rule.
  lemma EachRuleHasItsNumbers(p: Policy, r: nat)
    requires r < |p.rules|
    ensures StandsAt(AllLists(p), |p.allowlists| + InRules(p.rules, r), p.rules[r])
  {
    ARuleStandsInItsPlace(p.rules, |p.rules|, r);
    assert p.rules[..|p.rules|] == p.rules;
    StandsAfter(p.allowlists, Flat(p.rules), InRules(p.rules, r), p.rules[r]);
  }

  /* ----- what is read ----- */

  // Under the k-th allowlist's number stand its own fields, each under its
  // word and in file order, and nothing of another's.
  lemma WhatIsReadOfAList(p: Policy, k: nat)
    requires Rendered(p).Ok? && 0 < k
    ensures Under(ReadBack(Rendered(p).value), Decimal(k))
         == if k <= |AllLists(p)| then RowsOf(Decimal(k), AllLists(p)[k - 1]) else []
  {
    TheStreamReadsBackIndexByIndex(p, k);
    if k <= |AllLists(p)| {
      AListIsRead(k, AllLists(p)[k - 1]);
    }
  }

  // The file's own allowlists are numbered first, from one;
  lemma WhatIsReadOfATopLevelList(p: Policy, i: nat)
    requires Rendered(p).Ok? && i < |p.allowlists|
    ensures Under(ReadBack(Rendered(p).value), Decimal(i + 1)) == RowsOf(Decimal(i + 1), p.allowlists[i])
  {
    WhatIsReadOfAList(p, i + 1);
  }

  // then those of each rule, never starting over;
  lemma WhatIsReadOfARulesList(p: Policy, r: nat, j: nat)
    requires Rendered(p).Ok? && r < |p.rules| && j < |p.rules[r]|
    ensures var index := Decimal(|p.allowlists| + InRules(p.rules, r) + j + 1);
            Under(ReadBack(Rendered(p).value), index) == RowsOf(index, p.rules[r][j])
  {
    EachRuleHasItsNumbers(p, r);
    WhatIsReadOfAList(p, |p.allowlists| + InRules(p.rules, r) + j + 1);
  }

  // and nothing stands under any number after the last.
  lemma NothingIsReadOfAnotherNumber(p: Policy, k: nat)
    requires Rendered(p).Ok? && k > |p.allowlists| + InRules(p.rules, |p.rules|)
    ensures Under(ReadBack(Rendered(p).value), Decimal(k)) == []
  {
    FlatIsAsLong(p.rules, |p.rules|);
    assert p.rules[..|p.rules|] == p.rules;
    WhatIsReadOfAList(p, k);
  }

  // Every stopword of the file: its own, its allowlists' and its rules'.
  function StopwordsIn(lists: seq<Allowlist>): nat {
    if lists == [] then 0 else |lists[0].stopwords| + StopwordsIn(lists[1..])
  }

  function StopwordsInRules(rules: seq<seq<Allowlist>>): nat {
    if rules == [] then 0 else StopwordsIn(rules[0]) + StopwordsInRules(rules[1..])
  }

  lemma {:induction false} StopwordsInTwo(first: seq<Allowlist>, second: seq<Allowlist>)
    ensures StopwordsOf(first + second) == StopwordsOf(first) + StopwordsIn(second)
    decreases |second|
  {
    if second == [] {
      assert first + second == first;
    } else {
      assert first + second == first + [second[0]] + second[1..];
      OneMoreList(first, second[0]);
      StopwordsInTwo(first + [second[0]], second[1..]);
    }
  }

  lemma {:induction false} StopwordsRuleByRule(lists: seq<Allowlist>, rules: seq<seq<Allowlist>>, r: nat)
    requires r <= |rules|
    ensures StopwordsOf(lists + Flat(rules)) == StopwordsOf(lists + Flat(rules[..r])) + StopwordsInRules(rules[r..])
    decreases |rules| - r
  {
    if r == |rules| {
      assert rules[..r] == rules;
    } else {
      StopwordsRuleByRule(lists, rules, r + 1);
      assert rules[..r + 1][..r] == rules[..r] && rules[r..][0] == rules[r] && rules[r..][1..] == rules[r + 1..];
      assert lists + Flat(rules[..r + 1]) == lists + Flat(rules[..r]) + rules[r];
      StopwordsInTwo(lists + Flat(rules[..r]), rules[r]);
    }
  }

  lemma EveryStopwordCounts(p: Policy)
    ensures StopwordsOf(AllLists(p)) == StopwordsIn(p.allowlists) + StopwordsInRules(p.rules)
  {
    StopwordsRuleByRule(p.allowlists, p.rules, 0);
    assert p.rules[0..] == p.rules && p.allowlists + Flat(p.rules[..0]) == p.allowlists;
    StopwordsInTwo([], p.allowlists);
    assert [] + p.allowlists == p.allowlists;
  }

  // The three facts, under zero.
  predicate SaysOfTheFile(rows: seq<seq<string>>, default: string, disabled: string, stopwords: string) {
    rows == [["0", "use_default", default], ["0", "disabled_rules", disabled], ["0", "stopwords", stopwords]]
  }

  lemma TheHeaderSays(p: Policy)
    ensures SaysOfTheFile(Triples(Header(p)), if p.useDefault then "true" else "false", Decimal(|p.disabledRules|),
                          Decimal(|p.stopwords| + StopwordsOf(AllLists(p))))
  {
    ThreeTriples(Header(p)[0], Header(p)[1], Header(p)[2]);
    assert Decimal(0) == "0";
  }

  // Whether the default rules are in use, how many of them are disabled, and
  // how many stopwords the file has in all three places.
  lemma WhatIsReadOfTheFile(p: Policy) returns (disabled: string, stopwords: string)
    requires Rendered(p).Ok?
    ensures SaysOfTheFile(Under(ReadBack(Rendered(p).value), "0"), if p.useDefault then "true" else "false",
                          disabled, stopwords)
    ensures NumberOf(disabled) == |p.disabledRules|
    ensures NumberOf(stopwords) == |p.stopwords| + StopwordsIn(p.allowlists) + StopwordsInRules(p.rules)
  {
    disabled, stopwords := Decimal(|p.disabledRules|), Decimal(|p.stopwords| + StopwordsOf(AllLists(p)));
    TheStreamReadsBackIndexByIndex(p, 0);
    assert Decimal(0) == "0";
    TheHeaderSays(p);
    EveryStopwordCounts(p);
    DecimalReadsBack(|p.disabledRules|);
    DecimalReadsBack(|p.stopwords| + StopwordsOf(AllLists(p)));
  }

  lemma ThreeTriples(a: Record, b: Record, c: Record)
    ensures Triples([a, b, c]) == [Triple(a), Triple(b), Triple(c)]
  {
    var none: seq<Record> := [];
    OneMoreHeld(none, a);
    OneMoreHeld(none + [a], b);
    OneMoreHeld(none + [a] + [b], c);
    assert none + [a] + [b] + [c] == [a, b, c];
  }
}
