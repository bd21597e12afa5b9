// The runs in which ticks overlap and a request is parked twice, or spends its
// fifth attempt and still waits: each from the empty tables, each with two
// ticks that read the request before either moved it.
module OverlappingTicks {
  import opened Basics
  import opened Records
  import opened DrainFailure
  import opened Inbound
  import opened QueueMachine
  import opened AttemptBudget

  const NOBODY := Party("", "", "")
  const MESSAGE := Arrival("m", "", None, "", "", NOBODY, NOBODY, [])

  // One request, waiting with k attempts spent and nothing recorded of it, and
  // no tick in flight.
  ghost predicate OneWaiting(w: World, k: nat) {
    && w.ticks == map[] && w.q.rows.Keys == {0} && StillUnspent(w.q, 0, k)
    && w.q.rows[0].owner == 0 && w.q.rows[0].doc == Some(MESSAGE) && 0 in w.q.edges && w.q.trail == []
  }

  lemma Then(run: seq<Action>, act: Action) returns (longer: seq<Action>, w: World)
    requires ValidRun(EMPTY, run) && Enabled(After(EMPTY, run), act)
    ensures longer == run + [act] && ValidRun(EMPTY, longer)
    ensures w == After(EMPTY, longer) == Step(After(EMPTY, run), act)
  {
    OneMoreStep(EMPTY, run, act);
    longer, w := run + [act], After(EMPTY, run + [act]);
  }

  lemma OneArrival() returns (run: seq<Action>)
    ensures ValidRun(EMPTY, run) && OneWaiting(After(EMPTY, run), 0)
  {
    var w: World;
    run, w := Then([], Open(0, "r"));
    assert Accepting(w.q, "r") == Some(0);
    run, w := Then(run, Resolve(0, "r"));
    run, w := Then(run, Count(0));
    assert w.arriving == map[0 := Counted(0)];
    run, w := Then(run, InsertRow(0, 0, "n", Some(MESSAGE), 0, 0));
  }

  function TheRequest(w: World): Queued
    requires 0 in w.q.rows && w.q.rows[0].owner in w.q.edges
  {
    AsQueued(w.q, 0)
  }

  lemma TheBatchIsTheRequest(w: World, k: nat)
    requires OneWaiting(w, k)
    ensures IsBatch(w.q, [TheRequest(w)]) && NaturalKeyOf(TheRequest(w)).Some? && TheRequest(w).attempts == k
  {
    var batch := [TheRequest(w)];
    assert batch[0].id in Ids(batch);
    assert TrimSpace("m") == "m";
  }

  lemma OneTickReads(run: seq<Action>, k: nat) returns (longer: seq<Action>)
    requires ValidRun(EMPTY, run) && OneWaiting(After(EMPTY, run), k)
    ensures ValidRun(EMPTY, longer)
    ensures var w := After(EMPTY, longer);
            && OneWaiting(w.(ticks := map[]), k)
            && w.ticks == map[0 := Answered([TheRequest(w)], 0, 0, [], Refused({Forbidden}))]
  {
    var w := After(EMPTY, run);
    TheBatchIsTheRequest(w, k);
    var req := TheRequest(w);
    longer, w := Then(run, StartTick(0, [req]));
    assert w.ticks == map[0 := Taking([req], 0, 0, [])];
    longer, w := Then(longer, Ingest(0, Refused({Forbidden}), None));
  }

  // One tick alone: the request is refused for its member's authority, spends
  // an attempt, and waits.
  lemma OneStall(run: seq<Action>, k: nat) returns (longer: seq<Action>)
    requires ValidRun(EMPTY, run) && OneWaiting(After(EMPTY, run), k) && k < MAX_DRAIN_ATTEMPTS - 1
    ensures ValidRun(EMPTY, longer) && OneWaiting(After(EMPTY, longer), k + 1)
  {
    longer := OneTickReads(run, k);
    var w: World;
    longer, w := Then(longer, MoveRow(0));
    longer, w := Then(longer, Crash(0));
  }

  // Two ticks hold the request as it was read, and the same answer for it.
  ghost predicate BothAnswered(w: World, k: nat, cause: Cause) {
    && OneWaiting(w.(ticks := map[]), k)
    && var answered := Answered([TheRequest(w).(attempts := k)], 0, 0, [], Refused(cause));
       w.ticks == map[0 := answered, 1 := answered]
  }

  lemma TwoTicksRead(run: seq<Action>, k: nat, cause: Cause) returns (longer: seq<Action>)
    requires ValidRun(EMPTY, run) && OneWaiting(After(EMPTY, run), k)
    ensures ValidRun(EMPTY, longer) && BothAnswered(After(EMPTY, longer), k, cause)
  {
    var w := After(EMPTY, run);
    TheBatchIsTheRequest(w, k);
    var req := TheRequest(w);
    longer, w := Then(run, StartTick(0, [req]));
    longer, w := Then(longer, StartTick(1, [req]));
    assert w.ticks == map[0 := Taking([req], 0, 0, []), 1 := Taking([req], 0, 0, [])];
    longer, w := Then(longer, Ingest(0, Refused(cause), None));
    longer, w := Then(longer, Ingest(1, Refused(cause), None));
    assert w.ticks == map[0 := Answered([req], 0, 0, [], Refused(cause)),
                          1 := Answered([req], 0, 0, [], Refused(cause))];
  }

  lemma BothMoves(run: seq<Action>, k: nat, cause: Cause) returns (longer: seq<Action>)
    requires ValidRun(EMPTY, run) && BothAnswered(After(EMPTY, run), k, cause)
    ensures ValidRun(EMPTY, longer)
    ensures var w := After(EMPTY, run);
            After(EMPTY, longer).q
            == Mark(Mark(w.q, TheRequest(w), Refused(cause), w.now), TheRequest(w), Refused(cause), w.now)
  {
    var w := After(EMPTY, run);
    var req := TheRequest(w);
    longer, w := Then(run, MoveRow(0));
    assert w.ticks[1] == Answered([req], 0, 0, [], Refused(cause));
    longer, w := Then(longer, MoveRow(1));
  }

  // From the empty tables, two ticks park one request twice: the second finds
  // it decided and records it again.
  lemma OverlappingTicksParkTwice()
    ensures exists run :: ValidRun(EMPTY, run) && ParkedEntries(After(EMPTY, run).q.trail, 0) == 2
  {
    var run := OneArrival();
    run := TwoTicksRead(run, 0, {Invalid});
    var w := After(EMPTY, run);
    run := BothMoves(run, 0, {Invalid});
    var e := RequestParked(0, RefusedByTheCore, 1, "");
    assert After(EMPTY, run).q.trail == [] + [e] + [e];
    AttemptBudget.OneMoreEntry([], e, 0);
    AttemptBudget.OneMoreEntry([] + [e], e, 0);
  }

  // And a request at three attempts, read by two ticks, spends its fifth and
  // goes on waiting.
  lemma OverlappingTicksOverspend()
    ensures exists run :: ValidRun(EMPTY, run) && StillUnspent(After(EMPTY, run).q, 0, MAX_DRAIN_ATTEMPTS)
  {
    var run := OneArrival();
    run := OneStall(run, 0);
    run := OneStall(run, 1);
    run := OneStall(run, 2);
    run := TwoTicksRead(run, 3, {Forbidden});
    run := BothMoves(run, 3, {Forbidden});
    assert StillUnspent(After(EMPTY, run).q, 0, 5);
  }
}
