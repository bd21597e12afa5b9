// How long an accepted request can wait (extensions/openchannel/drain.go:43-55,
// 82-172, 253-289): a request with p waiting ahead of it is decided within
// 5 * (p / 100 + 1) completed ticks, whatever keeps arriving.
module Progress {
  import opened Basics
  import opened Records
  import opened DrainFailure
  import opened Inbound
  import opened QueueMachine
  import opened AttemptBudget

  /* ----- what a bound can be promised under ----- */

  // One tick in flight, no outage answer, and each new arrival sorting after
  // what already waits. A tick may stop part-way.
  ghost predicate Smooth(w: World, act: Action) {
    && OneTick(w, act)
    && (act.MoveRow? && Enabled(w, act) ==> OutcomeOf(w.ticks[act.t].answer) != Stall(CaptureUnavailable, false))
    && (act.InsertRow? ==> forall id :: IsWaiting(w.q, id) ==> SortsAfter(w.q.rows[id], id, act.stamp, act.id))
  }

  predicate SortsAfter(row: Request, id: RequestId, stamp: Time, later: RequestId) {
    row.receivedAt < stamp || (row.receivedAt == stamp && id < later)
  }

  // A run that ends as a tick reports, with no other tick reporting in it,
  // however many stopped before they could.
  ghost predicate CompletesATick(w: World, run: seq<Action>)
    decreases |run|
  {
    && run != [] && Enabled(w, run[0]) && Smooth(w, run[0])
    && if run[0].Report? then |run| == 1 else CompletesATick(Step(w, run[0]), run[1..])
  }

  ghost function AfterTick(w: World, run: seq<Action>): World
    requires CompletesATick(w, run)
    decreases |run|
  {
    if run[0].Report? then Step(w, run[0]) else AfterTick(Step(w, run[0]), run[1..])
  }

  lemma {:induction false} ACompletedTickIsARun(w: World, run: seq<Action>)
    requires CompletesATick(w, run)
    ensures ValidRun(w, run) && After(w, run) == AfterTick(w, run)
    decreases |run|
  {
    if run[0].Report? {
      assert run[1..] == [];
    } else {
      ACompletedTickIsARun(Step(w, run[0]), run[1..]);
    }
  }

  // No batch is half moved.
  ghost predicate BetweenTicks(w: World) {
    forall t :: t in w.ticks ==> w.ticks[t].Deleting?
  }

  /* ----- order and rank ----- */

  function Under(q: Queue, ids: set<RequestId>, x: RequestId): set<RequestId>
    requires ids <= q.rows.Keys && x in q.rows
  {
    set y | y in ids && Before(q, y, x)
  }

  lemma {:induction false} AllButOneUnder(q: Queue, ids: set<RequestId>) returns (last: RequestId)
    requires ids <= q.rows.Keys && ids != {}
    ensures last in ids && forall y :: y in ids && y != last ==> Before(q, y, last)
  {
    var x :| x in ids;
    if ids == {x} {
      return x;
    }
    var other := AllButOneUnder(q, ids - {x});
    last := if Before(q, x, other) then other else x;
    forall y | y in ids && y != last ensures Before(q, y, last) {
      assert y == x || y in ids - {x};
    }
  }

  // Of n or more ids, at least n have fewer than n of them in front.
  lemma {:induction false} TheFirstN(q: Queue, ids: set<RequestId>, n: nat) returns (first: set<RequestId>)
    requires ids <= q.rows.Keys && |ids| >= n
    ensures first <= ids && |first| == n
    ensures forall x :: x in first ==> |Under(q, ids, x)| < n
    decreases |ids|
  {
    if |ids| == n {
      first := ids;
      forall x | x in first ensures |Under(q, ids, x)| < n {
        assert Under(q, ids, x) <= ids - {x};
        SubsetSize(Under(q, ids, x), ids - {x});
      }
    } else {
      var last := AllButOneUnder(q, ids);
      first := TheFirstN(q, ids - {last}, n);
      forall x | x in first ensures |Under(q, ids, x)| < n {
        assert Under(q, ids, x) == Under(q, ids - {last}, x);
      }
    }
  }

  lemma {:induction false} IdsAreCounted(q: Queue, batch: seq<Queued>)
    requires forall i :: 0 <= i < |batch| ==> batch[i].id in q.rows
    requires forall i, j :: 0 <= i < j < |batch| ==> Before(q, batch[i].id, batch[j].id)
    ensures |Ids(batch)| == |batch|
  {
    if batch != [] {
      var n := |batch| - 1;
      IdsAreCounted(q, batch[..n]);
      IdsOfAppended(batch[..n], batch[n]);
      assert batch == batch[..n] + [batch[n]];
      assert batch[n].id !in Ids(batch[..n]);
    }
  }

  // A batch holds every request with fewer than a hundred in front of it.
  lemma ABatchHoldsTheFront(q: Queue, batch: seq<Queued>, x: RequestId)
    requires IsBatch(q, batch) && IsWaiting(q, x) && |Ahead(q, x)| < DRAIN_BATCH
    ensures x in Ids(batch)
  {
    if x !in Ids(batch) {
      IdsAreCounted(q, batch);
      assert Ids(batch) <= Ahead(q, x);
      SubsetSize(Ids(batch), Ahead(q, x));
      assert false;
    }
  }

  /* ----- what one completed tick does ----- */

  // Nobody joins the queue in front of anybody who waited in u and still does.
  ghost predicate Queues(u: World, w: World) {
    && Follows(u, w)
    && (forall x, y :: IsWaiting(w.q, x) && x !in u.h.accepted && IsWaiting(u.q, y) && IsWaiting(w.q, y) ==>
          SortsAfter(u.q.rows[y], y, w.q.rows[x].receivedAt, x))
  }

  ghost predicate Round(u: World, v: World) {
    && Queues(u, v)
    && (forall x :: IsWaiting(u.q, x) && |Ahead(u.q, x)| < DRAIN_BATCH && IsWaiting(v.q, x) ==>
          v.q.rows[x].attempts >= u.q.rows[x].attempts + 1)
  }

  lemma FewerAndFewerAreAhead(u: World, w: World, x: RequestId)
    requires Partition(u.q, u.h) && Partition(w.q, w.h) && Queues(u, w)
    requires IsWaiting(u.q, x) && IsWaiting(w.q, x)
    ensures Ahead(w.q, x) <= Ahead(u.q, x)
  {
    forall y | y in Ahead(w.q, x) ensures y in Ahead(u.q, x) {
      assert y !in u.h.accepted ==> SortsAfter(u.q.rows[x], x, w.q.rows[y].receivedAt, y);
    }
  }

  // A batch next moved of whose requests are moved holds x, which has spent
  // an attempt since u if it is one of those.
  ghost predicate Charged(u: World, w: World, batch: seq<Queued>, next: nat, x: RequestId)
    requires x in u.q.rows && x in w.q.rows
  {
    exists i :: 0 <= i < |batch| && batch[i].id == x
      && w.q.rows[x].attempts >= u.q.rows[x].attempts + if i < next then 1 else 0
  }

  // Where the batch of a tick in flight stands against the state u the tick's
  // run began in.
  ghost predicate Advances(u: World, w: World, tick: Tick) {
    !tick.Deleting? ==>
      forall x :: IsWaiting(u.q, x) && |Ahead(u.q, x)| < DRAIN_BATCH && IsWaiting(w.q, x) ==>
        Charged(u, w, tick.batch, tick.next, x)
  }

  ghost predicate Ongoing(u: World, w: World) {
    && Budgeted(w) && Queues(u, w)
    && (forall t :: t in w.ticks ==> Advances(u, w, w.ticks[t]))
  }

  lemma InTheBatchUncharged(u: World, w: World, batch: seq<Queued>, x: RequestId)
    requires Partition(u.q, u.h) && Partition(w.q, w.h) && Queues(u, w) && IsBatch(w.q, batch)
    requires IsWaiting(u.q, x) && |Ahead(u.q, x)| < DRAIN_BATCH && IsWaiting(w.q, x)
    ensures Charged(u, w, batch, 0, x)
  {
    FewerAndFewerAreAhead(u, w, x);
    SubsetSize(Ahead(w.q, x), Ahead(u.q, x));
    ABatchHoldsTheFront(w.q, batch, x);
    assert RowFollows(u.q.rows[x], w.q.rows[x]);
  }

  lemma StartingAdvances(u: World, w: World, act: Action)
    requires Partition(u.q, u.h) && Ongoing(u, w) && act.StartTick? && Enabled(w, act)
    ensures Advances(u, Step(w, act), Taking(act.batch, 0, 0, []))
  {
    var w' := Step(w, act);
    forall x | IsWaiting(u.q, x) && |Ahead(u.q, x)| < DRAIN_BATCH && IsWaiting(w'.q, x)
      ensures Charged(u, w', act.batch, 0, x)
    {
      InTheBatchUncharged(u, w, act.batch, x);
      var i :| 0 <= i < |act.batch| && act.batch[i].id == x;
      assert w'.q.rows[x] == w.q.rows[x];
    }
  }

  lemma MarkingAdvances(u: World, w: World, w': World, tick: Tick, landed: nat, stalled: seq<Class>, now: Time)
    requires Advances(u, w, tick) && tick.Answered? && tick.next < |tick.batch|
    requires w'.q == Mark(w.q, tick.batch[tick.next], tick.answer, now)
    requires OutcomeOf(tick.answer) != Stall(CaptureUnavailable, false)
    requires forall x :: IsWaiting(w'.q, x) ==> IsWaiting(w.q, x)
    ensures Advances(u, w', Taking(tick.batch, tick.next + 1, landed, stalled))
  {
    forall x | IsWaiting(u.q, x) && |Ahead(u.q, x)| < DRAIN_BATCH && IsWaiting(w'.q, x)
      ensures Charged(u, w', tick.batch, tick.next + 1, x)
    {
      assert Charged(u, w, tick.batch, tick.next, x);
      var i :| 0 <= i < |tick.batch| && tick.batch[i].id == x
        && w.q.rows[x].attempts >= u.q.rows[x].attempts + if i < tick.next then 1 else 0;
      assert w'.q.rows[x].attempts
          == w.q.rows[x].attempts + if x == tick.batch[tick.next].id then 1 else 0;
    }
  }

  lemma NothingElseJoins(w: World, act: Action, x: RequestId)
    requires Enabled(w, act) && !act.InsertRow? && IsWaiting(Step(w, act).q, x)
    ensures x in w.q.rows
  {
    match act {
      case MoveRow(t) => MarkKeepsTheBooks(w.q, w.ticks[t].batch[w.ticks[t].next], w.ticks[t].answer, w.now);
      case Archive(a, order, cause, event) => DeliverKeepsTheBooks(w.q, a, order, cause, event, w.now);
      case SweepTables(_) =>
      case Open(_, _) =>
      case SetEnabled(_, _) =>
      case _ => QuietActionsMoveNoTable(w, act);
    }
  }

  lemma OnlyAnInsertJoins(w: World, act: Action, x: RequestId)
    requires Partition(w.q, w.h) && Enabled(w, act) && Smooth(w, act)
    requires IsWaiting(Step(w, act).q, x) && !IsWaiting(w.q, x)
    ensures x !in w.h.accepted
    ensures forall y :: IsWaiting(w.q, y) ==> SortsAfter(w.q.rows[y], y, Step(w, act).q.rows[x].receivedAt, x)
  {
    StepFollows(w, act);
    assert x in w.q.rows ==> RowFollows(w.q.rows[x], Step(w, act).q.rows[x]);
    if !act.InsertRow? {
      NothingElseJoins(w, act, x);
    }
  }

  lemma StepQueues(u: World, w: World, act: Action)
    requires Partition(u.q, u.h) && Partition(w.q, w.h) && Queues(u, w) && Enabled(w, act) && Smooth(w, act)
    ensures Queues(u, Step(w, act))
  {
    var w' := Step(w, act);
    StepFollows(w, act);
    FollowsIsTransitive(u, w, w');
    forall x, y | IsWaiting(w'.q, x) && x !in u.h.accepted && IsWaiting(u.q, y) && IsWaiting(w'.q, y)
      ensures SortsAfter(u.q.rows[y], y, w'.q.rows[x].receivedAt, x)
    {
      StillWaiting(w, act, y);
      if IsWaiting(w.q, x) {
        assert RowFollows(w.q.rows[x], w'.q.rows[x]);
      } else {
        OnlyAnInsertJoins(w, act, x);
        assert RowFollows(u.q.rows[y], w.q.rows[y]);
      }
    }
  }

  lemma StillWaiting(w: World, act: Action, y: RequestId)
    requires Partition(w.q, w.h) && Enabled(w, act) && IsWaiting(Step(w, act).q, y) && y in w.h.accepted
    ensures IsWaiting(w.q, y)
  {
    StepFollows(w, act);
    assert RowFollows(w.q.rows[y], Step(w, act).q.rows[y]);
  }

  lemma OthersAdvance(u: World, w: World, act: Action, tick: Tick, tick': Tick)
    requires Partition(u.q, u.h) && Partition(w.q, w.h) && Queues(u, w) && Enabled(w, act)
    requires Advances(u, w, tick) && !tick.Deleting?
    requires !tick'.Deleting? && tick'.batch == tick.batch && tick'.next == tick.next
    ensures Advances(u, Step(w, act), tick')
  {
    var w' := Step(w, act);
    StepFollows(w, act);
    forall x | IsWaiting(u.q, x) && |Ahead(u.q, x)| < DRAIN_BATCH && IsWaiting(w'.q, x)
      ensures Charged(u, w', tick.batch, tick.next, x)
    {
      assert x in u.h.accepted;
      StillWaiting(w, act, x);
      assert Charged(u, w, tick.batch, tick.next, x);
      assert RowFollows(w.q.rows[x], w'.q.rows[x]);
    }
  }

  lemma AMoveOnlyEndsWaiting(q: Queue, req: Queued, answer: Answer, now: Time)
    ensures forall x :: IsWaiting(Mark(q, req, answer, now), x) ==> IsWaiting(q, x)
  {
  }

  lemma MovingIsOngoing(u: World, w: World, act: Action)
    requires Partition(u.q, u.h) && Ongoing(u, w) && Enabled(w, act) && Smooth(w, act) && act.MoveRow?
    ensures forall t :: t in Step(w, act).ticks ==> Advances(u, Step(w, act), Step(w, act).ticks[t])
  {
    var w', tick := Step(w, act), w.ticks[act.t];
    AMoveOnlyEndsWaiting(w.q, tick.batch[tick.next], tick.answer, w.now);
    TheOnlyTickMoves(w, act);
    MarkingAdvances(u, w, w', tick, w'.ticks[act.t].landed, w'.ticks[act.t].stalled, w.now);
  }

  lemma TheOnlyTickMoves(w: World, act: Action)
    requires act.MoveRow? && Enabled(w, act) && Budgeted(w)
    ensures var tick, w' := w.ticks[act.t], Step(w, act);
            && act.t in w'.ticks
            && w'.ticks[act.t]
               == Taking(tick.batch, tick.next + 1, w'.ticks[act.t].landed, w'.ticks[act.t].stalled)
            && forall t :: t in w'.ticks ==> t == act.t
  {
  }

  lemma TicksStay(u: World, w: World, act: Action)
    requires Partition(u.q, u.h) && Ongoing(u, w) && Enabled(w, act)
    requires !act.MoveRow? && !act.StartTick? && !act.Report?
    ensures forall t :: t in Step(w, act).ticks ==> Advances(u, Step(w, act), Step(w, act).ticks[t])
  {
    var w' := Step(w, act);
    TicksStandStill(w, act);
    forall t | t in w'.ticks ensures Advances(u, w', w'.ticks[t]) {
      if !w'.ticks[t].Deleting? {
        OthersAdvance(u, w, act, w.ticks[t], w'.ticks[t]);
      }
    }
  }

  lemma TicksStandStill(w: World, act: Action)
    requires Enabled(w, act) && !act.MoveRow? && !act.StartTick? && !act.Report?
    ensures var w' := Step(w, act);
            && (forall t :: t in w'.ticks ==> t in w.ticks)
            && (forall t :: t in w'.ticks && !w'.ticks[t].Deleting? ==>
                  !w.ticks[t].Deleting? && w'.ticks[t].batch == w.ticks[t].batch
                  && w'.ticks[t].next == w.ticks[t].next)
  {
  }

  lemma StepIsOngoing(u: World, w: World, act: Action)
    requires Partition(u.q, u.h) && Ongoing(u, w) && Enabled(w, act) && Smooth(w, act) && !act.Report?
    ensures Ongoing(u, Step(w, act))
  {
    StepIsBudgeted(w, act);
    StepQueues(u, w, act);
    var w' := Step(w, act);
    if act.MoveRow? {
      MovingIsOngoing(u, w, act);
    } else if act.StartTick? {
      StartingAdvances(u, w, act);
      assert w'.ticks[act.t].Taking?;
    } else {
      TicksStay(u, w, act);
    }
  }

  // A batch moved to its end has spent an attempt of each request in front.
  lemma AMovedBatchEndsTheRound(u: World, w: World, tick: Tick, v: World)
    requires Advances(u, w, tick) && tick.Taking? && tick.next == |tick.batch| && v.q == w.q && Queues(u, v)
    ensures Round(u, v)
  {
  }

  lemma ReportingEndsTheRound(u: World, w: World, act: Action)
    requires Partition(u.q, u.h) && Ongoing(u, w) && Enabled(w, act) && Smooth(w, act) && act.Report?
    ensures Round(u, Step(w, act)) && Budgeted(Step(w, act)) && BetweenTicks(Step(w, act))
  {
    StepIsBudgeted(w, act);
    StepQueues(u, w, act);
    AMovedBatchEndsTheRound(u, w, w.ticks[act.t], Step(w, act));
  }

  lemma {:induction false} ATickIsARound(u: World, w: World, run: seq<Action>)
    requires Partition(u.q, u.h) && Ongoing(u, w) && CompletesATick(w, run)
    ensures Round(u, AfterTick(w, run)) && Budgeted(AfterTick(w, run)) && BetweenTicks(AfterTick(w, run))
    decreases |run|
  {
    if run[0].Report? {
      ReportingEndsTheRound(u, w, run[0]);
    } else {
      StepIsOngoing(u, w, run[0]);
      ATickIsARound(u, Step(w, run[0]), run[1..]);
    }
  }

  lemma ARoundFromRest(w: World, run: seq<Action>)
    requires Budgeted(w) && BetweenTicks(w) && CompletesATick(w, run)
    ensures Round(w, AfterTick(w, run)) && Budgeted(AfterTick(w, run)) && BetweenTicks(AfterTick(w, run))
  {
    assert Queues(w, w);
    ATickIsARound(w, w, run);
  }

  /* ----- tick after tick ----- */

  ghost predicate Ticking(w: World, ticks: seq<seq<Action>>)
    decreases |ticks|
  {
    ticks == [] || (CompletesATick(w, ticks[0]) && Ticking(AfterTick(w, ticks[0]), ticks[1..]))
  }

  ghost function AfterTicks(w: World, ticks: seq<seq<Action>>): World
    requires Ticking(w, ticks)
    decreases |ticks|
  {
    if ticks == [] then w else AfterTicks(AfterTick(w, ticks[0]), ticks[1..])
  }

  lemma {:induction false} TicksSplit(w: World, ticks: seq<seq<Action>>, n: nat)
    requires Ticking(w, ticks) && n <= |ticks|
    ensures Ticking(w, ticks[..n]) && Ticking(AfterTicks(w, ticks[..n]), ticks[n..])
    ensures AfterTicks(AfterTicks(w, ticks[..n]), ticks[n..]) == AfterTicks(w, ticks)
    decreases n
  {
    if n == 0 {
      assert ticks[0..] == ticks;
    } else {
      assert ticks[..n][0] == ticks[0] && ticks[..n][1..] == ticks[1..][..n - 1] && ticks[1..][n - 1..] == ticks[n..];
      TicksSplit(AfterTick(w, ticks[0]), ticks[1..], n - 1);
    }
  }

  // Whoever waits at the end waited at the start, with no more ahead; and a
  // request at the front has spent an attempt on every tick.
  lemma {:induction false} TicksOnlyAdvance(w: World, ticks: seq<seq<Action>>, x: RequestId)
    requires Budgeted(w) && BetweenTicks(w) && Ticking(w, ticks)
    requires x in w.h.accepted && IsWaiting(AfterTicks(w, ticks).q, x)
    ensures Budgeted(AfterTicks(w, ticks)) && BetweenTicks(AfterTicks(w, ticks))
    ensures IsWaiting(w.q, x) && Ahead(AfterTicks(w, ticks).q, x) <= Ahead(w.q, x)
    ensures |Ahead(w.q, x)| < DRAIN_BATCH ==>
              AfterTicks(w, ticks).q.rows[x].attempts >= w.q.rows[x].attempts + |ticks|
    decreases |ticks|
  {
    if ticks != [] {
      var v := AfterTick(w, ticks[0]);
      ARoundFromRest(w, ticks[0]);
      TicksOnlyAdvance(v, ticks[1..], x);
      assert RowFollows(w.q.rows[x], v.q.rows[x]);
      FewerAndFewerAreAhead(w, v, x);
      SubsetSize(Ahead(v.q, x), Ahead(w.q, x));
    }
  }

  lemma {:induction false} TicksStayBudgeted(w: World, ticks: seq<seq<Action>>)
    requires Budgeted(w) && BetweenTicks(w) && Ticking(w, ticks)
    ensures Budgeted(AfterTicks(w, ticks)) && BetweenTicks(AfterTicks(w, ticks))
    ensures w.h.accepted.Keys <= AfterTicks(w, ticks).h.accepted.Keys
    decreases |ticks|
  {
    if ticks != [] {
      ARoundFromRest(w, ticks[0]);
      TicksStayBudgeted(AfterTick(w, ticks[0]), ticks[1..]);
    }
  }

  lemma FiveTicksDecideTheFront(w: World, ticks: seq<seq<Action>>, x: RequestId)
    requires Budgeted(w) && BetweenTicks(w) && Ticking(w, ticks) && |ticks| == 5
    requires IsWaiting(w.q, x) && |Ahead(w.q, x)| < DRAIN_BATCH
    ensures !IsWaiting(AfterTicks(w, ticks).q, x)
  {
    if IsWaiting(AfterTicks(w, ticks).q, x) {
      TicksOnlyAdvance(w, ticks, x);
    }
  }

  lemma FiveTicksTakeAHundred(w: World, ticks: seq<seq<Action>>, x: RequestId)
    requires Budgeted(w) && BetweenTicks(w) && Ticking(w, ticks) && |ticks| == 5
    requires IsWaiting(w.q, x) && |Ahead(w.q, x)| >= DRAIN_BATCH
    requires IsWaiting(AfterTicks(w, ticks).q, x)
    ensures |Ahead(AfterTicks(w, ticks).q, x)| <= |Ahead(w.q, x)| - DRAIN_BATCH
  {
    var v := AfterTicks(w, ticks);
    TicksOnlyAdvance(w, ticks, x);
    var first := TheFirstN(w.q, Ahead(w.q, x), DRAIN_BATCH);
    forall y | y in first ensures y !in Ahead(v.q, x) {
      assert Ahead(w.q, y) == Under(w.q, Ahead(w.q, x), y);
      FiveTicksDecideTheFront(w, ticks, y);
    }
    assert Ahead(v.q, x) <= Ahead(w.q, x) - first;
    SubsetSize(Ahead(v.q, x), Ahead(w.q, x) - first);
  }

  lemma AHundredFewer(w: World, ticks: seq<seq<Action>>, x: RequestId)
    requires Budgeted(w) && BetweenTicks(w) && Ticking(w, ticks) && |ticks| == 5
    requires IsWaiting(w.q, x) && IsWaiting(AfterTicks(w, ticks).q, x)
    ensures TicksNeeded(|Ahead(AfterTicks(w, ticks).q, x)|) + 5 <= TicksNeeded(|Ahead(w.q, x)|)
  {
    if |Ahead(w.q, x)| < DRAIN_BATCH {
      FiveTicksDecideTheFront(w, ticks, x);
      assert false;
    }
    FiveTicksTakeAHundred(w, ticks, x);
  }

  function TicksNeeded(ahead: nat): nat {
    5 * (ahead / DRAIN_BATCH + 1)
  }

  lemma {:induction false} DecidedOnceItsTicksAreSpent(w: World, ticks: seq<seq<Action>>, x: RequestId)
    requires Budgeted(w) && BetweenTicks(w) && Ticking(w, ticks) && IsWaiting(w.q, x)
    requires |ticks| >= TicksNeeded(|Ahead(w.q, x)|)
    ensures !IsWaiting(AfterTicks(w, ticks).q, x)
    decreases |ticks|
  {
    TicksSplit(w, ticks, 5);
    var five, rest := ticks[..5], ticks[5..];
    var v := AfterTicks(w, five);
    TicksStayBudgeted(w, five);
    if IsWaiting(v.q, x) {
      AHundredFewer(w, five, x);
      DecidedOnceItsTicksAreSpent(v, rest, x);
    } else {
      DecidedStaysDecided(v, rest, x);
    }
  }

  lemma DecidedStaysDecided(w: World, ticks: seq<seq<Action>>, x: RequestId)
    requires Budgeted(w) && BetweenTicks(w) && Ticking(w, ticks)
    requires x in w.h.accepted && !IsWaiting(w.q, x)
    ensures !IsWaiting(AfterTicks(w, ticks).q, x)
  {
    if IsWaiting(AfterTicks(w, ticks).q, x) {
      TicksOnlyAdvance(w, ticks, x);
      assert false;
    }
  }

  // From any state a run with one tick at a time can reach between ticks: a
  // request with p waiting ahead of it is decided within 5 * (p / 100 + 1)
  // completed ticks, however many arrivals, archives, edits and ticks stopped
  // part-way come between or during them.
  lemma EveryRequestIsDecidedInTime(before: seq<Action>, ticks: seq<seq<Action>>, x: RequestId)
    requires ValidRun(EMPTY, before) && Throughout(EMPTY, before, OneTick) && BetweenTicks(After(EMPTY, before))
    requires IsWaiting(After(EMPTY, before).q, x) && Ticking(After(EMPTY, before), ticks)
    requires |ticks| >= 5 * (|Ahead(After(EMPTY, before).q, x)| / 100 + 1)
    ensures !IsWaiting(AfterTicks(After(EMPTY, before), ticks).q, x)
  {
    RunIsBudgeted(EMPTY, before);
    DecidedOnceItsTicksAreSpent(After(EMPTY, before), ticks, x);
  }

  /* ----- the attempts still to spend ----- */

  // The rows that waited in u and still do, having spent k attempts at most.
  function Unspent(u: Queue, v: Queue, k: nat): set<RequestId> {
    set x | x in u.rows && IsWaiting(u, x) && IsWaiting(v, x) && v.rows[x].attempts <= k
  }

  // The sum, over those rows, of five less the attempts spent: each row counts
  // once for every level it has not passed.
  function Spare(u: Queue, v: Queue): nat {
    |Unspent(u, v, 0)| + |Unspent(u, v, 1)| + |Unspent(u, v, 2)| + |Unspent(u, v, 3)| + |Unspent(u, v, 4)|
  }

  function Front(q: Queue): set<RequestId> {
    set x | x in q.rows && IsWaiting(q, x) && |Ahead(q, x)| < DRAIN_BATCH
  }

  // Of these rows, the ones that have spent k attempts, and k at most.
  function SpentAt(q: Queue, ids: set<RequestId>, k: nat): set<RequestId> {
    set x | x in ids && x in q.rows && q.rows[x].attempts == k
  }

  function SpentUpTo(q: Queue, ids: set<RequestId>, k: nat): set<RequestId> {
    set x | x in ids && x in q.rows && q.rows[x].attempts <= k
  }

  lemma ALevelLosesItsFront(u: World, v: World, k: nat)
    requires Round(u, v) && Partition(u.q, u.h)
    ensures |Unspent(u.q, v.q, k)| + |SpentAt(u.q, Front(u.q), k)| <= |Unspent(u.q, u.q, k)|
  {
    var left, front, before := Unspent(u.q, v.q, k), SpentAt(u.q, Front(u.q), k), Unspent(u.q, u.q, k);
    forall x | x in left ensures x in before && x !in front {
      assert RowFollows(u.q.rows[x], v.q.rows[x]);
    }
    DisjointUnionSize(left, front);
    SubsetSize(left + front, before);
  }

  lemma OneMoreLevel(q: Queue, ids: set<RequestId>, k: nat)
    ensures |SpentUpTo(q, ids, k + 1)| == |SpentUpTo(q, ids, k)| + |SpentAt(q, ids, k + 1)|
  {
    DisjointUnionSize(SpentUpTo(q, ids, k), SpentAt(q, ids, k + 1));
    assert SpentUpTo(q, ids, k + 1) == SpentUpTo(q, ids, k) + SpentAt(q, ids, k + 1);
  }

  lemma ByLevel(q: Queue, ids: set<RequestId>)
    requires ids <= q.rows.Keys && forall x :: x in ids ==> q.rows[x].attempts <= 4
    ensures |ids| == |SpentAt(q, ids, 0)| + |SpentAt(q, ids, 1)| + |SpentAt(q, ids, 2)| + |SpentAt(q, ids, 3)|
                     + |SpentAt(q, ids, 4)|
  {
    assert ids == SpentUpTo(q, ids, 4) && SpentUpTo(q, ids, 0) == SpentAt(q, ids, 0);
    OneMoreLevel(q, ids, 0);
    OneMoreLevel(q, ids, 1);
    OneMoreLevel(q, ids, 2);
    OneMoreLevel(q, ids, 3);
  }

  lemma SomebodyIsInFront(q: Queue)
    requires WaitingRows(q) != {}
    ensures Front(q) != {}
  {
    SubsetSize({}, WaitingRows(q));
    var first := TheFirstN(q, WaitingRows(q), 1);
    var x :| x in first;
    assert Under(q, WaitingRows(q), x) == Ahead(q, x);
    assert x in Front(q);
  }

  // Every completed tick spends at least one attempt, or the row, of each
  // request in its batch: the sum falls by the size of the front, so it falls
  // while anything waits.
  lemma ATickSpendsItsFront(w: World, run: seq<Action>)
    requires Budgeted(w) && BetweenTicks(w) && CompletesATick(w, run)
    ensures Spare(w.q, AfterTick(w, run).q) + |Front(w.q)| <= Spare(w.q, w.q)
    ensures WaitingRows(w.q) != {} ==> Spare(w.q, AfterTick(w, run).q) < Spare(w.q, w.q)
  {
    var v := AfterTick(w, run);
    ARoundFromRest(w, run);
    ALevelLosesItsFront(w, v, 0);
    ALevelLosesItsFront(w, v, 1);
    ALevelLosesItsFront(w, v, 2);
    ALevelLosesItsFront(w, v, 3);
    ALevelLosesItsFront(w, v, 4);
    ByLevel(w.q, Front(w.q));
    if WaitingRows(w.q) != {} {
      SomebodyIsInFront(w.q);
    }
  }
}
