// The tick that InboundStore.Drain performs is one run of the queue's
// transition system, with nobody else moving: what the other modules prove of
// every run, they prove of it. The lemmas about `turns` opt out of automatic
// induction, which has nothing to go on in a function.
module DrainRun {
  import opened Basics
  import opened Records
  import opened DrainFailure
  import opened Inbound
  import opened QueueMachine

  // What the core holds after answering the first i requests, each entry
  // committed as its answer says.
  function CoreAfter(core: map<string, Activity>, batch: seq<Queued>, turns: Queued -> Turn, i: nat)
    : map<string, Activity>
    requires i <= |batch|
  {
    if i == 0 then core
    else Committing(CoreAfter(core, batch, turns, i - 1), NaturalKeyOf(batch[i - 1]), CommittedBy(batch[i - 1], turns))
  }

  function CommittedBy(req: Queued, turns: Queued -> Turn): Option<Activity> {
    if NaturalKeyOf(req).Some? then ActivityOf(turns(req).core) else None
  }

  // The instant the tick has got to once i requests are moved.
  function Clock(w: World, batch: seq<Queued>, turns: Queued -> Turn, i: nat): Time
    requires i <= |batch|
  {
    if i == 0 then w.now else turns(batch[i - 1]).now
  }

  // The i-th row move comes no earlier than the one before it.
  predicate OnTime(w: World, batch: seq<Queued>, turns: Queued -> Turn, i: nat)
    requires i < |batch|
  {
    Clock(w, batch, turns, i) <= turns(batch[i]).now
  }

  // The i-th answer is one the core can give.
  predicate Allowed(w: World, batch: seq<Queued>, turns: Queued -> Turn, i: nat)
    requires i < |batch|
  {
    CoreAllows(CoreAfter(w.core, batch, turns, i), w.h.delivered, NaturalKeyOf(batch[i]), turns(batch[i]).core,
               CommittedBy(batch[i], turns))
  }

  // As far as the n-th request the tick's answers are ones the core can give,
  // and its moves are in order.
  predicate Answerable(w: World, batch: seq<Queued>, turns: Queued -> Turn, n: nat) {
    && (forall i :: 0 <= i < |batch| && i <= n ==> Allowed(w, batch, turns, i))
    && (forall i :: 0 <= i < |batch| && i <= n ==> OnTime(w, batch, turns, i))
  }

  function WithTick(w: World, t: TickId, q: Queue, core: map<string, Activity>, now: Time, tick: Tick): World {
    w.(q := q, core := core, now := now, ticks := w.ticks[t := tick])
  }

  lemma WaitFrom(w: World, t: TickId, q: Queue, core: map<string, Activity>, now: Time, later: Time, tick: Tick)
    requires now <= later
    ensures var before := WithTick(w, t, q, core, now, tick);
            && Enabled(before, Wait(later - now))
            && Step(before, Wait(later - now)) == WithTick(w, t, q, core, later, tick)
  {
  }

  lemma IngestFrom(w: World, t: TickId, q: Queue, core: map<string, Activity>, now: Time, batch: seq<Queued>, i: nat,
                   landed: nat, stalled: seq<Class>, answer: Answer, committed: Option<Activity>)
    requires i < |batch| && CoreAllows(core, w.h.delivered, NaturalKeyOf(batch[i]), answer, committed)
    ensures var before := WithTick(w, t, q, core, now, Taking(batch, i, landed, stalled));
            && Enabled(before, Ingest(t, answer, committed))
            && Step(before, Ingest(t, answer, committed))
               == WithTick(w, t, q, Committing(core, NaturalKeyOf(batch[i]), committed), now,
                           Answered(batch, i, landed, stalled, IngestOne(batch[i], answer)))
  {
  }

  lemma MoveFrom(w: World, t: TickId, q: Queue, core: map<string, Activity>, now: Time, batch: seq<Queued>, i: nat,
                 landed: nat, stalled: seq<Class>, answer: Answer)
    requires i < |batch|
    ensures var before := WithTick(w, t, q, core, now, Answered(batch, i, landed, stalled, answer));
            && Enabled(before, MoveRow(t))
            && Step(before, MoveRow(t))
               == WithTick(w, t, Mark(q, batch[i], answer, now), core, now,
                           Taking(batch, i + 1, landed + (if OutcomeOf(answer).Landing? then 1 else 0),
                                  stalled + StalledOnly(OutcomeOf(answer))))
  {
  }

  // A tick stopped for good keeps what it moved and is no longer in flight.
  lemma StopFrom(w: World, t: TickId, q: Queue, core: map<string, Activity>, now: Time, tick: Tick)
    requires t !in w.ticks
    ensures var before := WithTick(w, t, q, core, now, tick);
            Enabled(before, Crash(t)) && Step(before, Crash(t)) == w.(q := q, core := core, now := now)
  {
  }

  // The tables once i requests are moved, and what the tick then holds.
  function TablesAt(q: Queue, batch: seq<Queued>, turns: Queued -> Turn, i: nat): Queue
    requires i <= |batch|
  {
    if i == 0 then q
    else Mark(TablesAt(q, batch, turns, i - 1), batch[i - 1], AnswerTo(batch[i - 1], turns), turns(batch[i - 1]).now)
  }

  function TallyAt(batch: seq<Queued>, turns: Queued -> Turn, i: nat): (tick: Tick)
    requires i <= |batch|
    ensures tick.Taking? && tick.batch == batch && tick.next == i
  {
    if i == 0 then Taking(batch, 0, 0, [])
    else OneMoreTallied(TallyAt(batch, turns, i - 1), OutcomeOf(AnswerTo(batch[i - 1], turns)))
  }

  function OneMoreTallied(tick: Tick, o: Outcome): Tick
    requires tick.Taking?
  {
    Taking(tick.batch, tick.next + 1, tick.landed + (if o.Landing? then 1 else 0), tick.stalled + StalledOnly(o))
  }

  // They are what LandAll is specified by.
  lemma {:induction false} TablesAsLandAllHasThem(q: Queue, batch: seq<Queued>, turns: Queued -> Turn, i: nat)
    requires i <= |batch|
    ensures TablesAt(q, batch, turns, i) == AfterLanding(q, batch[..i], turns)
  {
    if i > 0 {
      TablesAsLandAllHasThem(q, batch, turns, i - 1);
      OneMoreMove(q, batch, turns, i - 1);
    }
  }

  predicate Tallies(tick: Tick, read: seq<Outcome>) {
    tick.Taking? && tick.landed == LandedCount(read) && tick.stalled == Stalled(read)
  }

  lemma {:induction false} TallyAsLandAllHasIt(batch: seq<Queued>, turns: Queued -> Turn, i: nat)
    requires i <= |batch|
    ensures Tallies(TallyAt(batch, turns, i), Outcomes(batch[..i], turns))
  {
    if i > 0 {
      TallyAsLandAllHasIt(batch, turns, i - 1);
      OneMoreOutcome(batch, turns, i - 1);
    }
  }

  function Midway(w: World, t: TickId, batch: seq<Queued>, turns: Queued -> Turn, i: nat): World
    requires i <= |batch|
  {
    WithTick(w, t, TablesAt(w.q, batch, turns, i), CoreAfter(w.core, batch, turns, i), Clock(w, batch, turns, i),
             TallyAt(batch, turns, i))
  }

  function AskFor(t: TickId, req: Queued, turns: Queued -> Turn): Action {
    Ingest(t, turns(req).core, CommittedBy(req, turns))
  }

  // Waiting out the time the i-th request takes.
  function Pause(w: World, batch: seq<Queued>, turns: Queued -> Turn, i: nat): Action
    requires i < |batch| && OnTime(w, batch, turns, i)
  {
    Wait(turns(batch[i]).now - Clock(w, batch, turns, i))
  }

  function Steps(w: World, t: TickId, batch: seq<Queued>, turns: Queued -> Turn, i: nat): seq<Action>
    requires i <= |batch| && InOrder(w, batch, turns, i)
  {
    if i == 0 then [StartTick(t, batch)]
    else Steps(w, t, batch, turns, i - 1) + TurnOf(w, t, batch, turns, i - 1)
  }

  predicate InOrder(w: World, batch: seq<Queued>, turns: Queued -> Turn, n: nat)
    requires n <= |batch|
  {
    forall i :: 0 <= i < n ==> OnTime(w, batch, turns, i)
  }

  // A run from w whose last state is to.
  ghost predicate Reaches(w: World, run: seq<Action>, to: World) {
    ValidRun(w, run) && After(w, run) == to
  }

  lemma ReachesInTwo(w: World, first: seq<Action>, middle: World, second: seq<Action>, to: World)
    requires Reaches(w, first, middle) && Reaches(middle, second, to)
    ensures Reaches(w, first + second, to)
  {
    RunInTwo(w, first, second);
  }

  lemma OneReaches(from: World, a: Action)
    requires Enabled(from, a)
    ensures Reaches(from, [a], Step(from, a))
  {
    OneMoreStep(from, [], a);
    assert [] + [a] == [a];
  }

  lemma ThreeReach(from: World, a: Action, b: Action, c: Action)
    requires Enabled(from, a) && Enabled(Step(from, a), b) && Enabled(Step(Step(from, a), b), c)
    ensures Reaches(from, [a, b, c], Step(Step(Step(from, a), b), c))
  {
    OneMoreStep(from, [], a);
    OneMoreStep(from, [] + [a], b);
    OneMoreStep(from, [] + [a] + [b], c);
    assert [] + [a] + [b] + [c] == [a, b, c];
  }

  lemma WaitAskAndMove(w: World, t: TickId, q: Queue, core: map<string, Activity>, now: Time, later: Time, tick: Tick,
                       answer: Answer, committed: Option<Activity>)
    requires tick.Taking? && tick.next < |tick.batch| && now <= later
    requires CoreAllows(core, w.h.delivered, NaturalKeyOf(tick.batch[tick.next]), answer, committed)
    ensures var req := tick.batch[tick.next];
            var moved := IngestOne(req, answer);
            Reaches(WithTick(w, t, q, core, now, tick), [Wait(later - now), Ingest(t, answer, committed), MoveRow(t)],
                    WithTick(w, t, Mark(q, req, moved, later), Committing(core, NaturalKeyOf(req), committed), later,
                             OneMoreTallied(tick, OutcomeOf(moved))))
  {
    var Taking(batch, i, landed, stalled) := tick;
    WaitFrom(w, t, q, core, now, later, tick);
    IngestFrom(w, t, q, core, later, batch, i, landed, stalled, answer, committed);
    MoveFrom(w, t, q, Committing(core, NaturalKeyOf(batch[i]), committed), later, batch, i, landed, stalled,
             IngestOne(batch[i], answer));
    ThreeReach(WithTick(w, t, q, core, now, tick), Wait(later - now), Ingest(t, answer, committed), MoveRow(t));
  }

  lemma WaitAskAndStop(w: World, t: TickId, q: Queue, core: map<string, Activity>, now: Time, later: Time, tick: Tick,
                       answer: Answer, committed: Option<Activity>)
    requires tick.Taking? && tick.next < |tick.batch| && now <= later && t !in w.ticks
    requires CoreAllows(core, w.h.delivered, NaturalKeyOf(tick.batch[tick.next]), answer, committed)
    ensures Reaches(WithTick(w, t, q, core, now, tick), [Wait(later - now), Ingest(t, answer, committed), Crash(t)],
                    w.(q := q, core := Committing(core, NaturalKeyOf(tick.batch[tick.next]), committed), now := later))
  {
    var Taking(batch, i, landed, stalled) := tick;
    WaitFrom(w, t, q, core, now, later, tick);
    IngestFrom(w, t, q, core, later, batch, i, landed, stalled, answer, committed);
    StopFrom(w, t, q, Committing(core, NaturalKeyOf(batch[i]), committed), later,
             Answered(batch, i, landed, stalled, IngestOne(batch[i], answer)));
    ThreeReach(WithTick(w, t, q, core, now, tick), Wait(later - now), Ingest(t, answer, committed), Crash(t));
  }

  // One turn as actions.
  function TurnOf(w: World, t: TickId, batch: seq<Queued>, turns: Queued -> Turn, i: nat): seq<Action>
    requires i < |batch| && OnTime(w, batch, turns, i)
  {
    [Pause(w, batch, turns, i), AskFor(t, batch[i], turns), MoveRow(t)]
  }

  lemma {:induction false} OneTurn(w: World, t: TickId, batch: seq<Queued>, turns: Queued -> Turn, i: nat)
    requires i < |batch| && Allowed(w, batch, turns, i) && OnTime(w, batch, turns, i)
    ensures Reaches(Midway(w, t, batch, turns, i), TurnOf(w, t, batch, turns, i), Midway(w, t, batch, turns, i + 1))
  {
    WaitAskAndMove(w, t, TablesAt(w.q, batch, turns, i), CoreAfter(w.core, batch, turns, i), Clock(w, batch, turns, i),
                   turns(batch[i]).now, TallyAt(batch, turns, i), turns(batch[i]).core, CommittedBy(batch[i], turns));
  }

  ghost predicate ReachesMidway(w: World, t: TickId, batch: seq<Queued>, turns: Queued -> Turn, i: nat)
    requires i <= |batch|
  {
    InOrder(w, batch, turns, i) && Reaches(w, Steps(w, t, batch, turns, i), Midway(w, t, batch, turns, i))
  }

  lemma {:induction false} OneMoreTurn(w: World, t: TickId, batch: seq<Queued>, turns: Queued -> Turn, n: nat, i: nat)
    requires i < |batch| && i <= n && Answerable(w, batch, turns, n) && ReachesMidway(w, t, batch, turns, i)
    ensures ReachesMidway(w, t, batch, turns, i + 1)
  {
    assert Allowed(w, batch, turns, i) && OnTime(w, batch, turns, i);
    OneTurn(w, t, batch, turns, i);
    ReachesInTwo(w, Steps(w, t, batch, turns, i), Midway(w, t, batch, turns, i),
                 TurnOf(w, t, batch, turns, i), Midway(w, t, batch, turns, i + 1));
  }

  lemma {:induction false} TurnByTurn(w: World, t: TickId, batch: seq<Queued>, turns: Queued -> Turn, n: nat)
    requires Answerable(w, batch, turns, n) && n <= |batch| && ReachesMidway(w, t, batch, turns, 0)
    ensures ReachesMidway(w, t, batch, turns, n)
  {
    for i := 0 to n
      invariant ReachesMidway(w, t, batch, turns, i)
    {
      OneMoreTurn(w, t, batch, turns, n, i);
    }
  }

  lemma {:induction false} NothingYet(w: World, t: TickId, batch: seq<Queued>, turns: Queued -> Turn)
    requires t !in w.ticks && IsBatch(w.q, batch)
    ensures ReachesMidway(w, t, batch, turns, 0)
  {
    OneReaches(w, StartTick(t, batch));
  }

  /* ----- how a tick ends ----- */

  // At a row write storage refuses, the answer in hand and the core's entry
  // committed.
  lemma {:induction false} AStoppedTickIsARun(w: World, t: TickId, batch: seq<Queued>, turns: Queued -> Turn, n: nat)
    requires t !in w.ticks && IsBatch(w.q, batch) && Answerable(w, batch, turns, n) && n < |batch|
    ensures InOrder(w, batch, turns, n) && OnTime(w, batch, turns, n)
    ensures Reaches(w, Steps(w, t, batch, turns, n) + [Pause(w, batch, turns, n), AskFor(t, batch[n], turns), Crash(t)],
                    w.(q := TablesAt(w.q, batch, turns, n), core := CoreAfter(w.core, batch, turns, n + 1),
                       now := turns(batch[n]).now))
  {
    NothingYet(w, t, batch, turns);
    TurnByTurn(w, t, batch, turns, n);
    assert Allowed(w, batch, turns, n) && OnTime(w, batch, turns, n);
    var q, core := TablesAt(w.q, batch, turns, n), CoreAfter(w.core, batch, turns, n);
    WaitAskAndStop(w, t, q, core, Clock(w, batch, turns, n), turns(batch[n]).now, TallyAt(batch, turns, n),
                   turns(batch[n]).core, CommittedBy(batch[n], turns));
    ReachesInTwo(w, Steps(w, t, batch, turns, n), Midway(w, t, batch, turns, n),
                 [Pause(w, batch, turns, n), AskFor(t, batch[n], turns), Crash(t)],
                 w.(q := q, core := CoreAfter(w.core, batch, turns, n + 1), now := turns(batch[n]).now));
  }

  lemma ReportFrom(w: World, t: TickId, q: Queue, core: map<string, Activity>, now: Time, batch: seq<Queued>,
                   landed: nat, stalled: seq<Class>, live: bool)
    requires t !in w.ticks
    ensures var before := WithTick(w, t, q, core, now, Taking(batch, |batch|, landed, stalled));
            && Enabled(before, Report(t, live))
            && Step(before, Report(t, live))
               == if Judge(live, landed, stalled) == Done then WithTick(w, t, q, core, now, Deleting)
                  else w.(q := q, core := core, now := now)
  {
  }

  lemma SweepFrom(w: World, t: TickId, q: Queue, core: map<string, Activity>, now: Time)
    requires t !in w.ticks
    ensures var before := WithTick(w, t, q, core, now, Deleting);
            && Enabled(before, SweepTables(t))
            && Step(before, SweepTables(t)).q == Sweep(q, now) && Step(before, SweepTables(t)).ticks == w.ticks
  {
  }

  // The whole batch moved, the tick reports; done, it sweeps when the sweep's
  // time has come, or stops there if storage refuses the sweep.
  function Ending(t: TickId, verdict: Verdict, live: bool, at: Time, now: Time, swept: bool): seq<Action>
    requires at <= now
  {
    if verdict != Done then [Report(t, live)]
    else [Report(t, live), Wait(now - at), if swept then SweepTables(t) else Crash(t)]
  }

  lemma EndsAsItsVerdictSays(w: World, t: TickId, q: Queue, core: map<string, Activity>, at: Time, now: Time,
                             batch: seq<Queued>,
                             landed: nat, stalled: seq<Class>, live: bool, swept: bool) returns (to: World)
    requires t !in w.ticks && at <= now
    ensures var verdict := Judge(live, landed, stalled);
            && Reaches(WithTick(w, t, q, core, at, Taking(batch, |batch|, landed, stalled)),
                       Ending(t, verdict, live, at, now, swept), to)
            && to.ticks == w.ticks && to.q == if verdict == Done && swept then Sweep(q, now) else q
  {
    var from := WithTick(w, t, q, core, at, Taking(batch, |batch|, landed, stalled));
    ReportFrom(w, t, q, core, at, batch, landed, stalled, live);
    if Judge(live, landed, stalled) != Done {
      OneReaches(from, Report(t, live));
      return Step(from, Report(t, live));
    }
    WaitFrom(w, t, q, core, at, now, Deleting);
    SweepFrom(w, t, q, core, now);
    StopFrom(w, t, q, core, now, Deleting);
    var last := if swept then SweepTables(t) else Crash(t);
    ThreeReach(from, Report(t, live), Wait(now - at), last);
    to := Step(WithTick(w, t, q, core, now, Deleting), last);
  }

  lemma {:induction false} AnEndedTickIsARun(w: World, t: TickId, batch: seq<Queued>, turns: Queued -> Turn, live: bool,
                                             now: Time, swept: bool)
    requires t !in w.ticks && IsBatch(w.q, batch) && Answerable(w, batch, turns, |batch|)
    requires Reached(batch, turns) == |batch|
    requires Clock(w, batch, turns, |batch|) <= now
    ensures InOrder(w, batch, turns, |batch|)
    ensures var at := Clock(w, batch, turns, |batch|);
            var run := Steps(w, t, batch, turns, |batch|)
                       + Ending(t, TickVerdict(live, Outcomes(batch, turns)), live, at, now, swept);
            && ValidRun(w, run) && After(w, run).ticks == w.ticks
            && After(w, run).q == Drained(w.q, batch, turns, live, now, swept).0
  {
    NothingYet(w, t, batch, turns);
    TurnByTurn(w, t, batch, turns, |batch|);
    assert batch[..|batch|] == batch;
    var read, at := Outcomes(batch, turns), Clock(w, batch, turns, |batch|);
    TablesAsLandAllHasThem(w.q, batch, turns, |batch|);
    TallyAsLandAllHasIt(batch, turns, |batch|);
    var to := EndsAsItsVerdictSays(w, t, AfterLanding(w.q, batch, turns), CoreAfter(w.core, batch, turns, |batch|), at,
                                   now, batch, LandedCount(read), Stalled(read), live, swept);
    ReachesInTwo(w, Steps(w, t, batch, turns, |batch|), Midway(w, t, batch, turns, |batch|),
                 Ending(t, TickVerdict(live, read), live, at, now, swept), to);
  }

  // Every outcome InboundStore.Drain specifies of a batch it read, the clock
  // moving as it goes, is the outcome of a run of the machine that ends with
  // the tick no longer in flight. A batch it could not read is no run at all.
  lemma {:induction false} ATickIsARunOfTheMachine(w: World, t: TickId, batch: seq<Queued>, turns: Queued -> Turn,
                                                   live: bool, now: Time, swept: bool)
    requires t !in w.ticks && IsBatch(w.q, batch) && Answerable(w, batch, turns, Reached(batch, turns))
    requires Reached(batch, turns) == |batch| ==> Clock(w, batch, turns, |batch|) <= now
    ensures exists run :: ValidRun(w, run) && After(w, run).q == Drained(w.q, batch, turns, live, now, swept).0
                          && After(w, run).ticks == w.ticks
  {
    if Reached(batch, turns) < |batch| {
      TablesAsLandAllHasThem(w.q, batch, turns, Reached(batch, turns));
      AStoppedTickIsARun(w, t, batch, turns, Reached(batch, turns));
    } else {
      AnEndedTickIsARun(w, t, batch, turns, live, now, swept);
    }
  }
}
