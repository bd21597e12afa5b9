// The record stream printed from a secret-scan policy, one field per line
// (tools/gitleakspolicy/main.go), and the splitter that reads it back.
module PolicyStream {
  import opened Basics
  import opened Texts

  datatype Allowlist = Allowlist(
    description: string, targetRules: seq<string>, paths: seq<string>, regexes: seq<string>, stopwords: seq<string>)

  // rules holds each rule's own allowlists.
  datatype Policy = Policy(
    useDefault: bool,
    disabledRules: seq<string>,
    stopwords: seq<string>,
    allowlists: seq<Allowlist>,
    rules: seq<seq<Allowlist>>)

  datatype Kind = UseDefault | DisabledRules | Stopwords | Desc | Rule | Path | Regex

  datatype Record = Record(index: nat, kind: Kind, value: string)

  const FIELD_SEP := 0x1F as char

  function KindName(kind: Kind): string {
    match kind
    case UseDefault => "use_default"
    case DisabledRules => "disabled_rules"
    case Stopwords => "stopwords"
    case Desc => "desc"
    case Rule => "rule"
    case Path => "path"
    case Regex => "regex"
  }

  function Decimal(n: nat): string {
    if n < 10 then [('0' as int + n) as char] else Decimal(n / 10) + [('0' as int + n % 10) as char]
  }

  function BoolName(b: bool): string {
    if b then "true" else "false"
  }

  /* ----- what the policy holds, in file order ----- */

  function Flat(rules: seq<seq<Allowlist>>): seq<Allowlist> {
    if rules == [] then [] else Flat(rules[..|rules| - 1]) + rules[|rules| - 1]
  }

  function AllLists(p: Policy): seq<Allowlist> {
    p.allowlists + Flat(p.rules)
  }

  function StopwordsOf(lists: seq<Allowlist>): nat {
    if lists == [] then 0 else StopwordsOf(lists[..|lists| - 1]) + |lists[|lists| - 1].stopwords|
  }

  function Values(index: nat, kind: Kind, values: seq<string>): seq<Record> {
    seq(|values|, i requires 0 <= i < |values| => Record(index, kind, values[i]))
  }

  function FieldsOf(index: nat, a: Allowlist): seq<Record> {
    [Record(index, Desc, a.description)] + Values(index, Rule, a.targetRules) + Values(index, Path, a.paths)
    + Values(index, Regex, a.regexes)
  }

  // Allowlists count from one, across the whole file.
  function Numbered(lists: seq<Allowlist>): seq<Record> {
    if lists == [] then [] else Numbered(lists[..|lists| - 1]) + FieldsOf(|lists|, lists[|lists| - 1])
  }

  function Header(p: Policy): seq<Record> {
    [Record(0, UseDefault, BoolName(p.useDefault)),
     Record(0, DisabledRules, Decimal(|p.disabledRules|)),
     Record(0, Stopwords, Decimal(|p.stopwords| + StopwordsOf(AllLists(p))))]
  }

  function RecordsOf(p: Policy): seq<Record> {
    Header(p) + Numbered(AllLists(p))
  }

  /* ----- writing ----- */

  // The builder, and the first record the stream could not express.
  datatype Stream = Stream(out: string, refusal: Option<Record>)

  predicate Inexpressible(value: string) {
    FIELD_SEP in value || '\n' in value
  }

  function LineOf(r: Record): string {
    Join([Decimal(r.index), KindName(r.kind), r.value], FIELD_SEP)
  }

  function Wrote(s: Stream, r: Record): Stream {
    if r.value == "" then s
    else if Inexpressible(r.value) then s.(refusal := if s.refusal == None then Some(r) else s.refusal)
    else s.(out := s.out + LineOf(r) + "\n")
  }

  function WroteAll(s: Stream, records: seq<Record>): Stream {
    if records == [] then s else Wrote(WroteAll(s, records[..|records| - 1]), records[|records| - 1])
  }

  const BLANK := Stream("", None)

  lemma {:induction false} WroteInTwo(s: Stream, first: seq<Record>, second: seq<Record>)
    ensures WroteAll(s, first + second) == WroteAll(WroteAll(s, first), second)
    decreases |second|
  {
    if second == [] {
      assert first + second == first;
    } else {
      assert (first + second)[..|first + second| - 1] == first + second[..|second| - 1];
      WroteInTwo(s, first, second[..|second| - 1]);
    }
  }

  function Rendered(p: Policy): Result<string, Record> {
    var all := WroteAll(BLANK, RecordsOf(p));
    if all.refusal.Some? then Err(all.refusal.value) else Ok(all.out)
  }

  // The stream once these allowlists, and no more, are emitted.
  function Emitted(head: seq<Record>, lists: seq<Allowlist>): Stream {
    WroteAll(BLANK, head + Numbered(lists))
  }

  class Renderer {
    var out: string
    var refusal: Option<Record>
    var index: nat

    function Written(): Stream
      reads this
    {
      Stream(out, refusal)
    }

    constructor ()
      ensures Written() == BLANK && index == 0
    {
      out, refusal, index := "", None, 0;
    }

    method WriteRecord(i: nat, kind: Kind, value: string) returns (refused: bool)
      modifies this`out
      ensures refused <==> exists k :: 0 <= k < |value| && (value[k] == '\U{1F}' || value[k] == '\n')
      ensures refused || value == "" ==> out == old(out)
      ensures !refused && value != "" ==> out == old(out) + LineOf(Record(i, kind, value)) + "\n"
      ensures out == Wrote(old(Written()), Record(i, kind, value)).out
    {
      if value == "" {
        return false;
      }
      if FIELD_SEP in value || '\n' in value {
        return true;
      }
      LineInThree(Record(i, kind, value));
      out := out + (Decimal(i) + [FIELD_SEP] + (KindName(kind) + [FIELD_SEP] + value)) + "\n";
      return false;
    }

    method Write(i: nat, kind: Kind, value: string)
      modifies this`out, this`refusal
      ensures Written() == Wrote(old(Written()), Record(i, kind, value))
    {
      var refused := WriteRecord(i, kind, value);
      if refused && refusal == None {
        refusal := Some(Record(i, kind, value));
      }
    }

    method WriteEach(i: nat, kind: Kind, values: seq<string>)
      modifies this`out, this`refusal
      ensures Written() == WroteAll(old(Written()), Values(i, kind, values))
    {
      for k := 0 to |values|
        invariant Written() == WroteAll(old(Written()), Values(i, kind, values[..k]))
      {
        assert Values(i, kind, values[..k + 1]) == Values(i, kind, values[..k]) + [Record(i, kind, values[k])];
        Write(i, kind, values[k]);
      }
      assert values[..|values|] == values;
    }

    method Emit(a: Allowlist)
      modifies this
      ensures index == old(index) + 1
      ensures Written() == WroteAll(old(Written()), FieldsOf(index, a))
    {
      index := index + 1;
      ghost var desc := [Record(index, Desc, a.description)];
      ghost var rules, paths := Values(index, Rule, a.targetRules), Values(index, Path, a.paths);
      ghost var regexes := Values(index, Regex, a.regexes);
      WroteInTwo(Written(), desc, rules);
      WroteInTwo(Written(), desc + rules, paths);
      WroteInTwo(Written(), desc + rules + paths, regexes);
      assert desc[..0] == [];
      Write(index, Desc, a.description);
      WriteEach(index, Rule, a.targetRules);
      WriteEach(index, Path, a.paths);
      WriteEach(index, Regex, a.regexes);
    }

    // The next allowlists of the file, after those already emitted.
    method EmitEach(ghost head: seq<Record>, ghost before: seq<Allowlist>, lists: seq<Allowlist>)
      requires index == |before| && Written() == Emitted(head, before)
      modifies this
      ensures index == |before + lists| && Written() == Emitted(head, before + lists)
    {
      assert before + lists[..0] == before;
      for k := 0 to |lists|
        invariant index == |before| + k && Written() == Emitted(head, before + lists[..k])
      {
        TakeOneMore(head, before, lists, k);
        Emit(lists[k]);
      }
      assert lists[..|lists|] == lists;
    }

    method Render(p: Policy) returns (records: Result<string, Record>)
      requires Written() == BLANK && index == 0
      modifies this
      ensures records == Rendered(p)
    {
      ghost var head := Header(p);
      var stopwords := StopwordCount(p);
      ThreeWrites(BLANK, head[0], head[1], head[2]);
      Write(0, UseDefault, BoolName(p.useDefault));
      Write(0, DisabledRules, Decimal(|p.disabledRules|));
      Write(0, Stopwords, Decimal(stopwords));
      assert head + Numbered([]) == head;
      EmitEach(head, [], p.allowlists);
      assert [] + p.allowlists == Upto(p, 0);
      for i := 0 to |p.rules|
        invariant index == |Upto(p, i)| && Written() == Emitted(head, Upto(p, i))
      {
        OneMoreRule(p, i);
        EmitEach(head, Upto(p, i), p.rules[i]);
      }
      assert p.rules[..|p.rules|] == p.rules;
      return if refusal.Some? then Err(refusal.value) else Ok(out);
    }
  }

  // The stopwords of the extend table, of every top-level allowlist, and of
  // every allowlist in a rule.
  method StopwordCount(p: Policy) returns (n: nat)
    ensures n == |p.stopwords| + StopwordsOf(AllLists(p))
  {
    n := |p.stopwords|;
    for i := 0 to |p.allowlists|
      invariant n == |p.stopwords| + StopwordsOf(p.allowlists[..i])
    {
      assert p.allowlists[..i + 1] == p.allowlists[..i] + [p.allowlists[i]];
      OneMoreList(p.allowlists[..i], p.allowlists[i]);
      n := n + |p.allowlists[i].stopwords|;
    }
    assert p.allowlists[..|p.allowlists|] == Upto(p, 0);
    for i := 0 to |p.rules|
      invariant n == |p.stopwords| + StopwordsOf(Upto(p, i))
    {
      ghost var done := Upto(p, i);
      var lists := p.rules[i];
      assert done + lists[..0] == done;
      for k := 0 to |lists|
        invariant n == |p.stopwords| + StopwordsOf(done + lists[..k])
      {
        assert done + lists[..k + 1] == done + lists[..k] + [lists[k]];
        OneMoreList(done + lists[..k], lists[k]);
        n := n + |lists[k].stopwords|;
      }
      assert lists[..|lists|] == lists;
      OneMoreRule(p, i);
    }
    assert p.rules[..|p.rules|] == p.rules;
  }

  // The allowlists of the file up to its i-th rule.
  function Upto(p: Policy, i: nat): seq<Allowlist>
    requires i <= |p.rules|
  {
    p.allowlists + Flat(p.rules[..i])
  }

  lemma OneMoreRule(p: Policy, i: nat)
    requires i < |p.rules|
    ensures Upto(p, i + 1) == Upto(p, i) + p.rules[i]
  {
    assert p.rules[..i + 1][..i] == p.rules[..i];
  }

  lemma LineInThree(r: Record)
    ensures LineOf(r) == Decimal(r.index) + [FIELD_SEP] + (KindName(r.kind) + [FIELD_SEP] + r.value)
  {
    var parts := [Decimal(r.index), KindName(r.kind), r.value];
    assert parts[1..] == [KindName(r.kind), r.value] && parts[1..][1..] == [r.value];
    assert Join([r.value], FIELD_SEP) == r.value;
    assert Join(parts[1..], FIELD_SEP) == KindName(r.kind) + [FIELD_SEP] + r.value;
  }

  lemma ThreeWrites(s: Stream, a: Record, b: Record, c: Record)
    ensures WroteAll(s, [a, b, c]) == Wrote(Wrote(Wrote(s, a), b), c)
  {
    var three := [a, b, c];
    assert three[..2] == [a, b] && [a, b][..1] == [a] && [a][..0] == [];
    assert WroteAll(s, [a]) == Wrote(s, a);
    assert WroteAll(s, [a, b]) == Wrote(Wrote(s, a), b);
  }

  lemma OneMoreList(lists: seq<Allowlist>, a: Allowlist)
    ensures Numbered(lists + [a]) == Numbered(lists) + FieldsOf(|lists| + 1, a)
    ensures StopwordsOf(lists + [a]) == StopwordsOf(lists) + |a.stopwords|
  {
    assert (lists + [a])[..|lists|] == lists;
  }

  lemma WroteAfter(s: Stream, head: seq<Record>, before: seq<Record>, more: seq<Record>)
    ensures WroteAll(WroteAll(s, head + before), more) == WroteAll(s, head + (before + more))
  {
    Regroup(head, before, more);
    WroteInTwo(s, head + before, more);
  }

  lemma OneMoreEmitted(head: seq<Record>, lists: seq<Allowlist>, a: Allowlist)
    ensures WroteAll(Emitted(head, lists), FieldsOf(|lists| + 1, a)) == Emitted(head, lists + [a])
  {
    OneMoreList(lists, a);
    WroteAfter(BLANK, head, Numbered(lists), FieldsOf(|lists| + 1, a));
  }

  lemma TakeOneMore(head: seq<Record>, before: seq<Allowlist>, lists: seq<Allowlist>, k: nat)
    requires k < |lists|
    ensures WroteAll(Emitted(head, before + lists[..k]), FieldsOf(|before| + k + 1, lists[k]))
         == Emitted(head, before + lists[..k + 1])
  {
    OneMoreEmitted(head, before + lists[..k], lists[k]);
    assert before + lists[..k + 1] == before + lists[..k] + [lists[k]];
  }

  /* ----- reading back ----- */

  // What a consumer makes of the stream: lines, and the fields of each. What
  // follows the last newline is not a line.
  function ReadBack(text: string): seq<seq<string>> {
    var lines := Split(text, '\n');
    seq(|lines| - 1, i requires 0 <= i < |lines| - 1 => Split(lines[i], FIELD_SEP))
  }

  function Held(records: seq<Record>): seq<Record> {
    if records == [] then []
    else Held(records[..|records| - 1]) + (if records[|records| - 1].value == "" then [] else records[|records| - 1..])
  }

  function Triple(r: Record): seq<string> {
    [Decimal(r.index), KindName(r.kind), r.value]
  }

  function Triples(records: seq<Record>): seq<seq<string>> {
    if records == [] then [] else Triples(records[..|records| - 1]) + [Triple(records[|records| - 1])]
  }

  // The first record that cannot be expressed.
  function FirstRefused(records: seq<Record>): Option<Record> {
    if records == [] then None
    else
      var before, last := FirstRefused(records[..|records| - 1]), records[|records| - 1];
      if before.Some? then before else if Inexpressible(last.value) then Some(last) else None
  }

  lemma {:induction false} DecimalIsPlain(n: nat)
    ensures Decimal(n) != "" && forall c :: c in Decimal(n) ==> '0' <= c <= '9'
  {
    if n >= 10 {
      DecimalIsPlain(n / 10);
    }
  }

  lemma ALineSplits(r: Record)
    requires !Inexpressible(r.value)
    ensures '\n' !in LineOf(r) && Split(LineOf(r), FIELD_SEP) == Triple(r)
  {
    DecimalIsPlain(r.index);
    assert FIELD_SEP !in KindName(r.kind) && '\n' !in KindName(r.kind);
    SplitUndoesJoin(Triple(r), FIELD_SEP);
    LineInThree(r);
  }

  lemma {:induction false} SplitAppendsALine(text: string, line: string)
    requires '\n' !in line && Split(text, '\n')[|Split(text, '\n')| - 1] == ""
    ensures Split(text + line + "\n", '\n') == Split(text, '\n')[..|Split(text, '\n')| - 1] + [line, ""]
  {
    if text == "" {
      SplitAtFirst(line, "", '\n');
      assert text + line + "\n" == line + ['\n'] + "";
    } else {
      var longer, rest := text + line + "\n", Split(text[1..], '\n');
      assert longer[1..] == text[1..] + line + "\n";
      assert text[0] != '\n' ==> |rest| > 1 by {
        assert Split(text, '\n')[0] != "" || text[0] == '\n';
      }
      SplitAppendsALine(text[1..], line);
    }
  }

  // The stream without its latch: the lines of what can be written.
  function Lines(records: seq<Record>): string {
    if records == [] then ""
    else
      var last := records[|records| - 1];
      Lines(records[..|records| - 1])
      + (if last.value == "" || Inexpressible(last.value) then "" else LineOf(last) + "\n")
  }

  lemma {:induction false} TheLatchKeepsTheFirst(s: Stream, records: seq<Record>)
    requires s == BLANK
    ensures WroteAll(s, records) == Stream(Lines(records), FirstRefused(records))
  {
    if records != [] {
      TheLatchKeepsTheFirst(s, records[..|records| - 1]);
    }
  }

  predicate EndsInANewline(text: string) {
    Split(text, '\n')[|Split(text, '\n')| - 1] == ""
  }

  lemma OneMoreLineReadsBack(text: string, r: Record)
    requires EndsInANewline(text) && !Inexpressible(r.value)
    ensures EndsInANewline(text + LineOf(r) + "\n")
    ensures ReadBack(text + LineOf(r) + "\n") == ReadBack(text) + [Triple(r)]
  {
    ALineSplits(r);
    SplitAppendsALine(text, LineOf(r));
  }

  lemma LinesGrow(records: seq<Record>, last: Record)
    requires !Inexpressible(last.value)
    ensures Lines(records + [last]) == if last.value == "" then Lines(records) else Lines(records) + LineOf(last) + "\n"
    ensures FirstRefused(records + [last]) == FirstRefused(records)
  {
    assert (records + [last])[..|records|] == records;
    if last.value == "" {
      assert Lines(records) + "" == Lines(records);
    } else {
      assert Lines(records) + (LineOf(last) + "\n") == Lines(records) + LineOf(last) + "\n";
    }
  }

  predicate ReadsBack(records: seq<Record>) {
    EndsInANewline(Lines(records)) && ReadBack(Lines(records)) == Triples(Held(records))
  }

  lemma OneMoreReadsBack(init: seq<Record>, last: Record)
    requires ReadsBack(init) && !Inexpressible(last.value)
    ensures ReadsBack(init + [last])
  {
    LinesGrow(init, last);
    HeldGrows(init, last);
    if last.value != "" {
      OneMoreLineReadsBack(Lines(init), last);
      OneMoreHeld(Held(init), last);
    } else {
      assert Held(init) + [] == Held(init);
    }
  }

  lemma {:induction false} TheLinesReadBack(records: seq<Record>, n: nat)
    requires n <= |records| && FirstRefused(records) == None
    ensures ReadsBack(records[..n])
  {
    if n > 0 {
      TheLinesReadBack(records, n - 1);
      assert records[..n] == records[..n - 1] + [records[n - 1]];
      RefusedExactlyWhen(records);
      OneMoreReadsBack(records[..n - 1], records[n - 1]);
    }
  }

  lemma OneMoreHeld(held: seq<Record>, last: Record)
    ensures Triples(held + [last]) == Triples(held) + [Triple(last)]
  {
    assert (held + [last])[..|held|] == held;
  }

  /* ----- refusal ----- */

  predicate AnyInexpressible(values: seq<string>) {
    exists i :: 0 <= i < |values| && Inexpressible(values[i])
  }

  lemma {:induction false} RefusedExactlyWhen(records: seq<Record>)
    ensures FirstRefused(records) == None <==> forall i :: 0 <= i < |records| ==> !Inexpressible(records[i].value)
  {
    if records != [] {
      RefusedExactlyWhen(records[..|records| - 1]);
    }
  }

  predicate CannotExpress(a: Allowlist) {
    Inexpressible(a.description) || AnyInexpressible(a.targetRules) || AnyInexpressible(a.paths)
    || AnyInexpressible(a.regexes)
  }

  lemma RefusedInTwo(first: seq<Record>, second: seq<Record>)
    ensures FirstRefused(first + second) == None <==> FirstRefused(first) == None && FirstRefused(second) == None
  {
    RefusedExactlyWhen(first);
    RefusedExactlyWhen(second);
    RefusedExactlyWhen(first + second);
    var both := first + second;
    assert forall i :: 0 <= i < |first| ==> both[i] == first[i];
    assert forall i :: 0 <= i < |second| ==> both[|first| + i] == second[i];
  }

  lemma ValuesRefused(index: nat, kind: Kind, values: seq<string>)
    ensures FirstRefused(Values(index, kind, values)) == None <==> !AnyInexpressible(values)
  {
    var records := Values(index, kind, values);
    RefusedExactlyWhen(records);
    assert forall i :: 0 <= i < |values| ==> records[i].value == values[i];
  }

  lemma AListIsRefusedExactlyWhen(index: nat, a: Allowlist)
    ensures FirstRefused(FieldsOf(index, a)) == None <==> !CannotExpress(a)
  {
    var desc := [Record(index, Desc, a.description)];
    var rules, paths := Values(index, Rule, a.targetRules), Values(index, Path, a.paths);
    var regexes := Values(index, Regex, a.regexes);
    RefusedExactlyWhen(desc);
    ValuesRefused(index, Rule, a.targetRules);
    ValuesRefused(index, Path, a.paths);
    ValuesRefused(index, Regex, a.regexes);
    RefusedInTwo(desc, rules);
    RefusedInTwo(desc + rules, paths);
    RefusedInTwo(desc + rules + paths, regexes);
  }

  lemma OneMoreListRefused(lists: seq<Allowlist>, a: Allowlist)
    ensures FirstRefused(Numbered(lists + [a])) == None <==> FirstRefused(Numbered(lists)) == None && !CannotExpress(a)
  {
    OneMoreList(lists, a);
    AListIsRefusedExactlyWhen(|lists| + 1, a);
    RefusedInTwo(Numbered(lists), FieldsOf(|lists| + 1, a));
  }

  predicate AllExpressible(lists: seq<Allowlist>) {
    forall i :: 0 <= i < |lists| ==> !CannotExpress(lists[i])
  }

  lemma {:induction false} ListsAreRefusedExactlyWhen(lists: seq<Allowlist>, n: nat)
    requires n <= |lists|
    ensures FirstRefused(Numbered(lists[..n])) == None <==> AllExpressible(lists[..n])
  {
    if n > 0 {
      ListsAreRefusedExactlyWhen(lists, n - 1);
      assert lists[..n] == lists[..n - 1] + [lists[n - 1]];
      OneMoreListRefused(lists[..n - 1], lists[n - 1]);
    }
  }

  lemma TheHeaderIsNeverRefused(p: Policy)
    ensures FirstRefused(Header(p)) == None && Held(Header(p)) == Header(p)
  {
    var head := Header(p);
    DecimalIsPlain(|p.disabledRules|);
    DecimalIsPlain(|p.stopwords| + StopwordsOf(AllLists(p)));
    RefusedExactlyWhen(head);
    AllHeld(head);
  }

  lemma {:induction false} AllHeld(records: seq<Record>)
    requires forall i :: 0 <= i < |records| ==> records[i].value != ""
    ensures Held(records) == records
  {
    if records != [] {
      AllHeld(records[..|records| - 1]);
      assert records == records[..|records| - 1] + records[|records| - 1..];
    }
  }

  // The stream is refused exactly when some allowlist holds a value with the
  // separator or a newline in it.
  lemma RenderRefusesExactlyWhen(p: Policy)
    ensures Rendered(p).Err? <==> exists i :: 0 <= i < |AllLists(p)| && CannotExpress(AllLists(p)[i])
  {
    TheLatchKeepsTheFirst(BLANK, RecordsOf(p));
    TheHeaderIsNeverRefused(p);
    ListsAreRefusedExactlyWhen(AllLists(p), |AllLists(p)|);
    assert AllLists(p)[..|AllLists(p)|] == AllLists(p);
    RefusedInTwo(Header(p), Numbered(AllLists(p)));
  }

  lemma {:induction false} TheRefusedIsTheFirst(records: seq<Record>) returns (i: nat)
    requires FirstRefused(records).Some?
    ensures i < |records| && Some(records[i]) == FirstRefused(records) && Inexpressible(records[i].value)
    ensures forall j :: 0 <= j < i ==> !Inexpressible(records[j].value)
  {
    var init := records[..|records| - 1];
    if FirstRefused(init).Some? {
      i := TheRefusedIsTheFirst(init);
    } else {
      i := |records| - 1;
      RefusedExactlyWhen(init);
      forall j | 0 <= j < i ensures !Inexpressible(records[j].value) {
        assert init[j] == records[j];
      }
    }
  }

  // And what it is refused for is the first such value in file order.
  lemma ARefusalNamesTheFirst(p: Policy) returns (i: nat)
    requires Rendered(p).Err?
    ensures i < |RecordsOf(p)| && Rendered(p) == Err(RecordsOf(p)[i]) && Inexpressible(RecordsOf(p)[i].value)
    ensures forall j :: 0 <= j < i ==> !Inexpressible(RecordsOf(p)[j].value)
  {
    TheLatchKeepsTheFirst(BLANK, RecordsOf(p));
    i := TheRefusedIsTheFirst(RecordsOf(p));
  }

  /* ----- index by index ----- */

  function Under(rows: seq<seq<string>>, index: string): seq<seq<string>> {
    if rows == [] then []
    else
      var last := rows[|rows| - 1];
      Under(rows[..|rows| - 1], index) + (if last != [] && last[0] == index then [last] else [])
  }

  function Only(records: seq<Record>, index: nat): seq<Record> {
    if records == [] then []
    else
      var last := records[|records| - 1];
      Only(records[..|records| - 1], index) + (if last.index == index then [last] else [])
  }

  lemma {:induction false} DecimalTellsApart(m: nat, n: nat)
    ensures Decimal(m) == Decimal(n) <==> m == n
  {
    if m >= 10 {
      DecimalIsPlain(m / 10);
    }
    if n >= 10 {
      DecimalIsPlain(n / 10);
    }
    if m >= 10 && n >= 10 {
      DecimalTellsApart(m / 10, n / 10);
      assert Decimal(m)[..|Decimal(m)| - 1] == Decimal(m / 10) && Decimal(n)[..|Decimal(n)| - 1] == Decimal(n / 10);
    }
  }

  lemma HeldOnlyOneMore(init: seq<Record>, last: Record, index: nat)
    requires Under(Triples(Held(init)), Decimal(index)) == Triples(Held(Only(init, index)))
    ensures Under(Triples(Held(init + [last])), Decimal(index)) == Triples(Held(Only(init + [last], index)))
  {
    var held, mine := Held(init), Only(init, index);
    HeldGrows(init, last);
    OnlyGrows(init, last, index);
    DecimalTellsApart(last.index, index);
    if last.value != "" {
      OneMoreHeld(held, last);
      OneMoreUnder(Triples(held), Triple(last), Decimal(index));
    } else {
      assert held + [] == held;
    }
    if last.index == index {
      HeldGrows(mine, last);
      if last.value != "" { OneMoreHeld(Held(mine), last); } else { assert Held(mine) + [] == Held(mine); }
    } else {
      assert mine + [] == mine;
    }
  }

  lemma {:induction false} HeldOnly(records: seq<Record>, index: nat)
    ensures Under(Triples(Held(records)), Decimal(index)) == Triples(Held(Only(records, index)))
  {
    if records != [] {
      var init, last := records[..|records| - 1], records[|records| - 1];
      HeldOnly(init, index);
      HeldOnlyOneMore(init, last, index);
      assert records == init + [last];
    }
  }

  lemma OnlyGrows(records: seq<Record>, last: Record, index: nat)
    ensures Only(records + [last], index) == Only(records, index) + if last.index == index then [last] else []
  {
    assert (records + [last])[..|records|] == records && (records + [last])[|records|..] == [last];
  }

  lemma OneMoreUnder(rows: seq<seq<string>>, row: seq<string>, index: string)
    ensures Under(rows + [row], index) == Under(rows, index) + (if row != [] && row[0] == index then [row] else [])
  {
    assert (rows + [row])[..|rows|] == rows;
  }

  lemma HeldGrows(records: seq<Record>, last: Record)
    ensures Held(records + [last]) == Held(records) + if last.value == "" then [] else [last]
  {
    assert (records + [last])[..|records|] == records && (records + [last])[|records|..] == [last];
  }

  lemma {:induction false} OnlyInTwo(first: seq<Record>, second: seq<Record>, index: nat)
    ensures Only(first + second, index) == Only(first, index) + Only(second, index)
    decreases |second|
  {
    if second == [] {
      assert first + second == first;
      assert Only(first, index) + [] == Only(first, index);
    } else {
      var both := first + second;
      assert both[..|both| - 1] == first + second[..|second| - 1];
      assert both[|both| - 1..] == second[|second| - 1..];
      OnlyInTwo(first, second[..|second| - 1], index);
    }
  }

  lemma {:induction false} OnlyOfOneIndex(records: seq<Record>, index: nat, k: nat)
    requires forall i :: 0 <= i < |records| ==> records[i].index == index
    ensures Only(records, k) == if k == index then records else []
  {
    if records != [] {
      OnlyOfOneIndex(records[..|records| - 1], index, k);
      assert records == records[..|records| - 1] + records[|records| - 1..];
    }
  }

  lemma OnlyFields(n: nat, a: Allowlist, k: nat)
    ensures Only(FieldsOf(n, a), k) == if k == n then FieldsOf(n, a) else []
  {
    OnlyOfOneIndex(FieldsOf(n, a), n, k);
  }

  // The records of the k-th allowlist, and none for any other number.
  function FieldsAt(lists: seq<Allowlist>, k: nat): seq<Record> {
    if 1 <= k <= |lists| then FieldsOf(k, lists[k - 1]) else []
  }

  lemma {:induction false} OnlyNumbered(lists: seq<Allowlist>, k: nat)
    ensures Only(Numbered(lists), k) == FieldsAt(lists, k)
  {
    if lists != [] {
      var init, last := lists[..|lists| - 1], lists[|lists| - 1];
      OnlyNumbered(init, k);
      OnlyInTwo(Numbered(init), FieldsOf(|lists|, last), k);
      OnlyFields(|lists|, last, k);
      assert FieldsAt(init, k) + (if k == |lists| then FieldsOf(|lists|, last) else []) == FieldsAt(lists, k);
    }
  }

  lemma OnlyHeader(p: Policy, k: nat)
    ensures Only(Header(p), k) == if k == 0 then Header(p) else []
  {
    OnlyOfOneIndex(Header(p), 0, k);
  }

  lemma OnlyRecords(p: Policy, k: nat)
    ensures Only(RecordsOf(p), k) == if k == 0 then Header(p) else FieldsAt(AllLists(p), k)
  {
    OnlyInTwo(Header(p), Numbered(AllLists(p)), k);
    OnlyHeader(p, k);
    OnlyNumbered(AllLists(p), k);
  }

  lemma RenderedIsItsLines(p: Policy)
    requires Rendered(p).Ok?
    ensures Rendered(p).value == Lines(RecordsOf(p)) && FirstRefused(RecordsOf(p)) == None
  {
    TheLatchKeepsTheFirst(BLANK, RecordsOf(p));
  }

  // What a consumer reads under each index of a stream that was not refused:
  // under zero the three facts about the file, the stopwords counted over all
  // three places; under k, the fields of the k-th allowlist that are not
  // empty, in file order, and those of no other; past the last, nothing.
  lemma TheStreamReadsBackIndexByIndex(p: Policy, k: nat)
    requires Rendered(p).Ok?
    ensures ReadBack(Rendered(p).value) == Triples(Held(RecordsOf(p)))
    ensures Under(ReadBack(Rendered(p).value), Decimal(k))
         == if k == 0 then Triples(Header(p)) else Triples(Held(FieldsAt(AllLists(p), k)))
  {
    RenderedIsItsLines(p);
    TheLinesReadBack(RecordsOf(p), |RecordsOf(p)|);
    assert RecordsOf(p)[..|RecordsOf(p)|] == RecordsOf(p);
    HeldOnly(RecordsOf(p), k);
    OnlyRecords(p, k);
    TheHeaderIsNeverRefused(p);
  }
}
