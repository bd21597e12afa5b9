// What a stalled request costs, when it parks, and what the trail then holds
// (extensions/openchannel/drain.go:238-289, drainfailure.go:66-115,
// ledger.go:108-168). Each claim holds of a step exactly unless the step is
// one named write; with at most one tick in flight, which is the dispatcher's
// uniqueness window, neither of those writes can occur. OverlappingTicks gives
// the runs in which they do.
module AttemptBudget {
  import opened Basics
  import opened Records
  import opened DrainFailure
  import opened Inbound
  import opened QueueMachine

  ghost predicate OneTick(w: World, act: Action) {
    act.StartTick? ==> w.ticks == map[]
  }

  predicate IsTerminal(fault: Class) {
    fault == PayloadUnusable || fault == RefusedByTheCore || fault == RecordGone
  }

  /* ----- counting entries ----- */

  predicate Parks(e: Entry, id: RequestId) {
    e.RequestParked? && e.id == id
  }

  predicate Withdraws(e: Entry, id: RequestId) {
    e.RequestWithdrawn? && e.id == id
  }

  function ParkedEntries(trail: seq<Entry>, id: RequestId): nat {
    if trail == [] then 0
    else ParkedEntries(trail[..|trail| - 1], id) + (if Parks(trail[|trail| - 1], id) then 1 else 0)
  }

  function WithdrawnCount(trail: seq<Entry>, id: RequestId): nat {
    if trail == [] then 0
    else WithdrawnCount(trail[..|trail| - 1], id) + (if Withdraws(trail[|trail| - 1], id) then 1 else 0)
  }

  lemma OneMoreEntry(trail: seq<Entry>, e: Entry, id: RequestId)
    ensures ParkedEntries(trail + [e], id) == ParkedEntries(trail, id) + (if Parks(e, id) then 1 else 0)
    ensures WithdrawnCount(trail + [e], id) == WithdrawnCount(trail, id) + (if Withdraws(e, id) then 1 else 0)
  {
    assert (trail + [e])[..|trail|] == trail;
  }

  lemma {:induction false} WithdrawalsAreEachCountedOnce(
      trail: seq<Entry>, order: seq<RequestId>, cause: string, a: Activity, event: string, id: RequestId)
    requires forall i, j :: 0 <= i < j < |order| ==> order[i] != order[j]
    ensures ParkedEntries(trail + WithdrawnEntries(order, cause, a, event), id) == ParkedEntries(trail, id)
    ensures WithdrawnCount(trail + WithdrawnEntries(order, cause, a, event), id)
         == WithdrawnCount(trail, id) + (if id in order then 1 else 0)
  {
    if order == [] {
      assert trail + WithdrawnEntries(order, cause, a, event) == trail;
    } else {
      var init, last := order[..|order| - 1], order[|order| - 1];
      var entries, e := WithdrawnEntries(init, cause, a, event), RequestWithdrawn(last, cause, a, event);
      WithdrawalsAreEachCountedOnce(trail, init, cause, a, event, id);
      assert order == init + [last];
      OneMoreWithdrawn(init, last, cause, a, event);
      Inbound.OneMoreEntry(trail, entries, e);
      OneMoreEntry(trail + entries, e, id);
    }
  }

  /* ----- the budget, and one entry per parked row ----- */

  ghost predicate WithinBudget(row: Request) {
    && (row.state == Waiting ==> row.attempts <= MAX_DRAIN_ATTEMPTS - 1)
    && (row.state == Parked ==>
          row.fault.Some? && row.attempts <= MAX_DRAIN_ATTEMPTS
          && (IsTerminal(row.fault.value)
              || (row.attempts == MAX_DRAIN_ATTEMPTS && row.fault != Some(CaptureUnavailable))))
  }

  ghost predicate Spent(q: Queue) {
    forall id :: id in q.rows ==> WithinBudget(q.rows[id])
  }

  predicate IsParked(q: Queue, h: History, id: RequestId) {
    if id in q.rows then q.rows[id].state == Parked else id in h.swept && h.swept[id].row.state == Parked
  }

  ghost predicate ParkedOnce(q: Queue, h: History) {
    forall id :: ParkedEntries(q.trail, id) == if IsParked(q, h, id) then 1 else 0
  }

  // What the tick in flight still has to move is as it was read.
  ghost predicate Holds(q: Queue, tick: Tick) {
    !tick.Deleting? ==>
      && tick.next <= |tick.batch|
      && (forall i, j :: 0 <= i < j < |tick.batch| ==> tick.batch[i].id != tick.batch[j].id)
      && (forall i :: tick.next <= i < |tick.batch| ==>
            IsWaiting(q, tick.batch[i].id) && q.rows[tick.batch[i].id].attempts == tick.batch[i].attempts)
  }

  ghost predicate Budgeted(w: World) {
    && Partition(w.q, w.h)
    && Spent(w.q)
    && ParkedOnce(w.q, w.h)
    && (forall t, u :: t in w.ticks && u in w.ticks ==> t == u)
    && (forall t :: t in w.ticks ==> Holds(w.q, w.ticks[t]))
  }

  /* ----- what each write does to the budget ----- */

  // A stall that charges a row out of its budget: parked at anything but its
  // fifth attempt, or kept waiting past its fourth.
  predicate Mischarges(held: nat, read: nat, fault: Class, terminal: bool) {
    !terminal && fault != CaptureUnavailable
    && if read + 1 >= MAX_DRAIN_ATTEMPTS then held + 1 != MAX_DRAIN_ATTEMPTS else held + 1 > MAX_DRAIN_ATTEMPTS - 1
  }

  lemma AStallKeepsTheBudgetExactlyUnless(q: Queue, req: Queued, fault: Class, terminal: bool, reason: string,
                                          now: Time)
    requires Spent(q) && (terminal <==> IsTerminal(fault))
    ensures Spent(MarkStalled(q, req, fault, terminal, reason, now))
            <==> !(IsWaiting(q, req.id) && Mischarges(q.rows[req.id].attempts, req.attempts, fault, terminal))
  {
    var q' := MarkStalled(q, req, fault, terminal, reason, now);
    if IsWaiting(q, req.id) {
      assert WithinBudget(q.rows[req.id]);
      assert WithinBudget(q'.rows[req.id])
             <==> !Mischarges(q.rows[req.id].attempts, req.attempts, fault, terminal);
      assert forall id :: id in q.rows && id != req.id ==> q'.rows[id] == q.rows[id];
    }
  }

  lemma LandingKeepsTheBudget(q: Queue, id: RequestId, activity: Option<Activity>, now: Time)
    requires Spent(q)
    ensures Spent(MarkLanded(q, id, activity, now))
  {
  }

  lemma DeliveringKeepsTheBudget(q: Queue, a: Activity, order: seq<RequestId>, cause: string, event: string, now: Time)
    requires Spent(q) && Enumerates(order, Claiming(q, a))
    ensures Spent(Deliver(q, a, order, cause, event, now))
  {
  }

  lemma SweepingKeepsTheBudget(q: Queue, now: Time)
    requires Spent(q)
    ensures Spent(Sweep(q, now))
  {
  }

  lemma InsertingKeepsTheBudget(q: Queue, m: Member, id: RequestId, nonce: string, doc: Option<Arrival>, sentAt: Time,
                                stamp: Time)
    requires Spent(q) && m in q.edges && id !in q.rows
    ensures Spent(Insert(q, m, id, nonce, doc, sentAt, stamp).0)
  {
  }

  lemma OnlyTerminalClassesAreTerminal(answer: Answer)
    requires OutcomeOf(answer).Stall?
    ensures OutcomeOf(answer).terminal <==> IsTerminal(OutcomeOf(answer).fault)
  {
  }

  // The one write that takes a row out of its budget.
  ghost predicate ChargesWrongly(w: World, act: Action) {
    && act.MoveRow? && Enabled(w, act)
    && var tick := w.ticks[act.t];
       var req, o := tick.batch[tick.next], OutcomeOf(tick.answer);
       o.Stall? && IsWaiting(w.q, req.id) && Mischarges(w.q.rows[req.id].attempts, req.attempts, o.fault, o.terminal)
  }

  // From a state within budget every action of every actor, overlapping ticks
  // included, leads to one, except that one.
  lemma TheBudgetIsLostExactlyThere(w: World, act: Action)
    requires Partition(w.q, w.h) && Spent(w.q) && Enabled(w, act)
    ensures Spent(Step(w, act).q) <==> !ChargesWrongly(w, act)
  {
    match act {
      case MoveRow(t) =>
        var req, answer := w.ticks[t].batch[w.ticks[t].next], w.ticks[t].answer;
        match OutcomeOf(answer) {
          case Landing => LandingKeepsTheBudget(w.q, req.id, ActivityOf(answer), w.now);
          case Stall(fault, terminal) =>
            OnlyTerminalClassesAreTerminal(answer);
            AStallKeepsTheBudgetExactlyUnless(w.q, req, fault, terminal, ReasonOf(answer), w.now);
        }
      case Archive(a, order, cause, event) => DeliveringKeepsTheBudget(w.q, a, order, cause, event, w.now);
      case SweepTables(_) => SweepingKeepsTheBudget(w.q, w.now);
      case InsertRow(token, id, nonce, doc, sentAt, stamp) =>
        if w.arriving[token].owner in w.q.edges && id !in w.q.rows {
          InsertingKeepsTheBudget(w.q, w.arriving[token].owner, id, nonce, doc, sentAt, stamp);
        }
      case Open(_, _) =>
      case SetEnabled(_, _) =>
      case _ => QuietActionsMoveNoTable(w, act);
    }
  }

  /* ----- what each write does to the parking entries ----- */

  lemma AStallIsRecordedOnceExactlyUnless(q: Queue, h: History, req: Queued, fault: Class, terminal: bool,
                                          reason: string, now: Time)
    requires ParkedOnce(q, h)
    ensures ParkedOnce(MarkStalled(q, req, fault, terminal, reason, now), h)
            <==> !(Inbound.Parks(req.attempts, fault, terminal) && !IsWaiting(q, req.id))
  {
    var q' := MarkStalled(q, req, fault, terminal, reason, now);
    var parks := Inbound.Parks(req.attempts, fault, terminal);
    forall id
      ensures ParkedEntries(q'.trail, id) == ParkedEntries(q.trail, id) + if parks && id == req.id then 1 else 0
    {
      OneMoreEntry(q.trail, RequestParked(req.id, fault, req.attempts + 1, reason), id);
    }
    forall id ensures IsParked(q', h, id)
                   == if id == req.id && IsWaiting(q, id) then parks else IsParked(q, h, id)
    {
    }
    if parks && !IsWaiting(q, req.id) {
      assert ParkedEntries(q'.trail, req.id) == (if IsParked(q', h, req.id) then 1 else 0) + 1;
    }
  }

  lemma LandingParksNothing(q: Queue, h: History, id: RequestId, activity: Option<Activity>, now: Time)
    requires ParkedOnce(q, h)
    ensures ParkedOnce(MarkLanded(q, id, activity, now), h)
  {
    forall other ensures IsParked(MarkLanded(q, id, activity, now), h, other) == IsParked(q, h, other) {
    }
  }

  lemma DeliveringParksNothing(q: Queue, h: History, a: Activity, order: seq<RequestId>, cause: string, event: string,
                               now: Time)
    requires ParkedOnce(q, h) && Enumerates(order, Claiming(q, a))
    ensures ParkedOnce(Deliver(q, a, order, cause, event, now), h)
  {
    var q' := Deliver(q, a, order, cause, event, now);
    forall id
      ensures ParkedEntries(q'.trail, id) == ParkedEntries(q.trail, id) && IsParked(q', h, id) == IsParked(q, h, id)
    {
      WithdrawalsAreEachCountedOnce(q.trail, order, cause, a, event, id);
    }
  }

  lemma SweepingParksNothing(q: Queue, h: History, now: Time)
    requires Partition(q, h) && ParkedOnce(q, h)
    ensures ParkedOnce(Sweep(q, now), h.(swept := h.swept + (map id | id in Expired(q, now) :: Swept(q.rows[id], now))))
  {
    var h' := h.(swept := h.swept + (map id | id in Expired(q, now) :: Swept(q.rows[id], now)));
    forall id ensures IsParked(Sweep(q, now), h', id) == IsParked(q, h, id) {
    }
  }

  lemma InsertingParksNothing(q: Queue, h: History, m: Member, id: RequestId, nonce: string, doc: Option<Arrival>,
                              sentAt: Time, stamp: Time)
    requires Partition(q, h) && ParkedOnce(q, h) && m in q.edges && id !in h.accepted
    ensures ParkedOnce(Insert(q, m, id, nonce, doc, sentAt, stamp).0, h)
    ensures ParkedOnce(Insert(q, m, id, nonce, doc, sentAt, stamp).0, h.(accepted := h.accepted[id := Sent(m, doc)]))
  {
    forall other ensures IsParked(Insert(q, m, id, nonce, doc, sentAt, stamp).0, h, other) == IsParked(q, h, other) {
    }
  }

  lemma ParkedOnceReadsRowsAndTrail(q: Queue, h: History, q': Queue, h': History)
    requires ParkedOnce(q, h) && q'.rows == q.rows && q'.trail == q.trail && h'.swept == h.swept
    ensures ParkedOnce(q', h')
  {
    forall id ensures IsParked(q', h', id) == IsParked(q, h, id) {
    }
  }

  // The one write that records a parking that does not happen: the request it
  // answers for was decided since it was read.
  ghost predicate ParksADecidedRequest(w: World, act: Action) {
    && act.MoveRow? && Enabled(w, act)
    && var tick := w.ticks[act.t];
       var req, o := tick.batch[tick.next], OutcomeOf(tick.answer);
       o.Stall? && Inbound.Parks(req.attempts, o.fault, o.terminal) && !IsWaiting(w.q, req.id)
  }

  lemma AMoveIsRecordedOnceExactlyUnless(w: World, act: Action)
    requires ParkedOnce(w.q, w.h) && act.MoveRow? && Enabled(w, act)
    ensures ParkedOnce(Step(w, act).q, Step(w, act).h) <==> !ParksADecidedRequest(w, act)
  {
    var req, answer := w.ticks[act.t].batch[w.ticks[act.t].next], w.ticks[act.t].answer;
    match OutcomeOf(answer) {
      case Landing => LandingParksNothing(w.q, w.h, req.id, ActivityOf(answer), w.now);
      case Stall(fault, terminal) =>
        AStallIsRecordedOnceExactlyUnless(w.q, w.h, req, fault, terminal, ReasonOf(answer), w.now);
    }
  }

  // From a state with one entry per parked request, every action of every
  // actor leads to one, except that one.
  lemma OneEntryEachIsLostExactlyThere(w: World, act: Action)
    requires Partition(w.q, w.h) && ParkedOnce(w.q, w.h) && Enabled(w, act)
    ensures ParkedOnce(Step(w, act).q, Step(w, act).h) <==> !ParksADecidedRequest(w, act)
  {
    match act {
      case MoveRow(_) => AMoveIsRecordedOnceExactlyUnless(w, act);
      case Archive(a, order, cause, event) =>
        DeliveringParksNothing(w.q, w.h, a, order, cause, event, w.now);
        ParkedOnceReadsRowsAndTrail(Step(w, act).q, w.h, Step(w, act).q, Step(w, act).h);
      case SweepTables(_) => SweepingParksNothing(w.q, w.h, w.now);
      case InsertRow(token, id, nonce, doc, sentAt, stamp) =>
        if w.arriving[token].owner in w.q.edges && id !in w.q.rows {
          InsertingParksNothing(w.q, w.h, w.arriving[token].owner, id, nonce, doc, sentAt, stamp);
        }
      case Open(_, _) => ParkedOnceReadsRowsAndTrail(w.q, w.h, Step(w, act).q, Step(w, act).h);
      case SetEnabled(_, _) => ParkedOnceReadsRowsAndTrail(w.q, w.h, Step(w, act).q, Step(w, act).h);
      case _ => QuietActionsMoveNoTable(w, act);
    }
  }

  /* ----- over runs, exactly ----- */

  ghost function ChargesRight(): (World, Action) -> bool {
    (w, act) => !ChargesWrongly(w, act)
  }

  ghost function LeavesTheBudget(): (World, Action) -> bool {
    (w, act) => Enabled(w, act) && Spent(Step(w, act).q)
  }

  ghost function ParksOnlyWaiting(): (World, Action) -> bool {
    (w, act) => !ParksADecidedRequest(w, act)
  }

  ghost function LeavesOneEntryEach(): (World, Action) -> bool {
    (w, act) => Enabled(w, act) && ParkedOnce(Step(w, act).q, Step(w, act).h)
  }

  // A run stays within budget throughout exactly when none of its steps is
  // the one mischarge, and keeps one entry per parked request throughout
  // exactly when none parks a request already decided, however many ticks
  // overlap.
  lemma {:induction false} ARunKeepsBothExactlyUnless(w: World, run: seq<Action>)
    requires Accounted(w) && ValidRun(w, run)
    ensures Spent(w.q) ==> (Throughout(w, run, LeavesTheBudget()) <==> Throughout(w, run, ChargesRight()))
    ensures ParkedOnce(w.q, w.h) ==>
              (Throughout(w, run, LeavesOneEntryEach()) <==> Throughout(w, run, ParksOnlyWaiting()))
    decreases |run|
  {
    if run != [] {
      StepIsAccounted(w, run[0]);
      if Spent(w.q) { TheBudgetIsLostExactlyThere(w, run[0]); }
      if ParkedOnce(w.q, w.h) { OneEntryEachIsLostExactlyThere(w, run[0]); }
      ARunKeepsBothExactlyUnless(Step(w, run[0]), run[1..]);
    }
  }

  lemma EveryRunKeepsBothExactlyUnless(run: seq<Action>)
    requires ValidRun(EMPTY, run)
    ensures Throughout(EMPTY, run, LeavesTheBudget()) <==> Throughout(EMPTY, run, ChargesRight())
    ensures Throughout(EMPTY, run, LeavesOneEntryEach()) <==> Throughout(EMPTY, run, ParksOnlyWaiting())
  {
    assert ParkedOnce(EMPTY.q, EMPTY.h);
    ARunKeepsBothExactlyUnless(EMPTY, run);
  }

  /* ----- with one tick in flight ----- */

  lemma ABatchIsHeld(q: Queue, batch: seq<Queued>)
    requires IsBatch(q, batch)
    ensures Holds(q, Taking(batch, 0, 0, []))
  {
  }

  lemma HeldRowsStand(q: Queue, q': Queue, tick: Tick)
    requires Holds(q, tick)
    requires forall id :: IsWaiting(q, id) ==> IsWaiting(q', id) && q'.rows[id].attempts == q.rows[id].attempts
    ensures Holds(q', tick)
  {
  }

  lemma OneRowIsMoved(q: Queue, tick: Tick, answer: Answer, landed: nat, stalled: seq<Class>, now: Time)
    requires Holds(q, tick) && !tick.Deleting? && tick.next < |tick.batch|
    ensures Holds(Mark(q, tick.batch[tick.next], answer, now), Taking(tick.batch, tick.next + 1, landed, stalled))
  {
  }

  // What a tick holds is as it was read, so its write neither mischarges nor
  // parks a request already decided.
  lemma AHeldRequestIsMovedRight(w: World, act: Action)
    requires Spent(w.q) && act.MoveRow? && Enabled(w, act) && Holds(w.q, w.ticks[act.t])
    ensures !ChargesWrongly(w, act) && !ParksADecidedRequest(w, act)
  {
    var req := w.ticks[act.t].batch[w.ticks[act.t].next];
    assert IsWaiting(w.q, req.id) && WithinBudget(w.q.rows[req.id]);
  }

  lemma MoveStepIsBudgeted(w: World, act: Action)
    requires Budgeted(w) && act.MoveRow? && Enabled(w, act)
    ensures Budgeted(Step(w, act))
  {
    var tick, w' := w.ticks[act.t], Step(w, act);
    AHeldRequestIsMovedRight(w, act);
    TheBudgetIsLostExactlyThere(w, act);
    OneEntryEachIsLostExactlyThere(w, act);
    MarkKeepsTheBooks(w.q, tick.batch[tick.next], tick.answer, w.now);
    OneRowIsMoved(w.q, tick, tick.answer, w'.ticks[act.t].landed, w'.ticks[act.t].stalled, w.now);
    KeepsPartition(w.q, w'.q, w.h);
  }

  lemma KeepsPartition(q: Queue, q': Queue, h: History)
    requires SameBooks(q, q') && Partition(q, h)
    ensures Partition(q', h)
  {
  }

  lemma ArchiveStepIsBudgeted(w: World, act: Action)
    requires Budgeted(w) && act.Archive? && Enabled(w, act)
    ensures Budgeted(Step(w, act))
  {
    var w' := Step(w, act);
    TheBudgetIsLostExactlyThere(w, act);
    OneEntryEachIsLostExactlyThere(w, act);
    DeliverKeepsTheBooks(w.q, act.a, act.order, act.cause, act.event, w.now);
    KeepsPartition(w.q, w'.q, w.h);
    forall t | t in w.ticks ensures Holds(w'.q, w.ticks[t]) {
      HeldRowsStand(w.q, w'.q, w.ticks[t]);
    }
  }

  lemma SweepStepIsBudgeted(w: World, act: Action)
    requires Budgeted(w) && act.SweepTables? && Enabled(w, act)
    ensures Budgeted(Step(w, act))
  {
    TheBudgetIsLostExactlyThere(w, act);
    OneEntryEachIsLostExactlyThere(w, act);
    SweepKeepsThePartition(w.q, w.h, w.now);
    assert Step(w, act).ticks == map[];
  }

  lemma InsertStepIsBudgeted(w: World, act: Action)
    requires Budgeted(w) && act.InsertRow? && Enabled(w, act)
    ensures Budgeted(Step(w, act))
  {
    var m, w' := w.arriving[act.token].owner, Step(w, act);
    if m in w.q.edges && act.id !in w.q.rows && !NonceTaken(w.q, m, act.nonce) {
      TheBudgetIsLostExactlyThere(w, act);
      OneEntryEachIsLostExactlyThere(w, act);
      InsertKeepsThePartition(w.q, w.h, m, act.id, act.nonce, act.doc, act.sentAt, act.stamp);
      assert w'.q == Insert(w.q, m, act.id, act.nonce, act.doc, act.sentAt, act.stamp).0;
      forall t | t in w.ticks ensures Holds(w'.q, w.ticks[t]) {
        HeldRowsStand(w.q, w'.q, w.ticks[t]);
      }
    } else {
      assert w'.q == w.q && w'.h == w.h && w'.ticks == w.ticks;
    }
  }

  lemma SameRowsAreBudgeted(w: World, w': World)
    requires Budgeted(w) && w'.q.rows == w.q.rows && w'.q.trail == w.q.trail && w'.h == w.h
    requires forall t, u :: t in w'.ticks && u in w'.ticks ==> t == u
    requires forall t :: t in w'.ticks ==> Holds(w.q, w'.ticks[t])
    ensures Budgeted(w')
  {
    forall id ensures IsParked(w'.q, w'.h, id) == IsParked(w.q, w.h, id) {
    }
    forall t | t in w'.ticks ensures Holds(w'.q, w'.ticks[t]) {
      HeldRowsStand(w.q, w'.q, w'.ticks[t]);
    }
  }

  lemma TickActionsHold(w: World, act: Action)
    requires Budgeted(w) && Enabled(w, act) && OneTick(w, act)
    requires act.StartTick? || act.Ingest? || act.Report? || act.Crash?
    ensures var w' := Step(w, act);
            && w'.q == w.q && w'.h == w.h
            && (forall t, u :: t in w'.ticks && u in w'.ticks ==> t == u)
            && (forall t :: t in w'.ticks ==> Holds(w.q, w'.ticks[t]))
  {
    if act.StartTick? {
      ABatchIsHeld(w.q, act.batch);
    }
  }

  lemma OtherStepsAreBudgeted(w: World, act: Action)
    requires Budgeted(w) && Enabled(w, act) && OneTick(w, act)
    requires !act.MoveRow? && !act.Archive? && !act.SweepTables? && !act.InsertRow?
    ensures Budgeted(Step(w, act))
  {
    if act.StartTick? || act.Ingest? || act.Report? || act.Crash? {
      TickActionsHold(w, act);
    }
    SameRowsAreBudgeted(w, Step(w, act));
  }

  lemma StepIsBudgeted(w: World, act: Action)
    requires Budgeted(w) && Enabled(w, act) && OneTick(w, act)
    ensures Budgeted(Step(w, act))
  {
    if act.MoveRow? {
      MoveStepIsBudgeted(w, act);
    } else if act.Archive? {
      ArchiveStepIsBudgeted(w, act);
    } else if act.SweepTables? {
      SweepStepIsBudgeted(w, act);
    } else if act.InsertRow? {
      InsertStepIsBudgeted(w, act);
    } else {
      OtherStepsAreBudgeted(w, act);
    }
  }

  lemma {:induction false} RunIsBudgeted(w: World, run: seq<Action>)
    requires Budgeted(w) && ValidRun(w, run) && Throughout(w, run, OneTick)
    ensures Budgeted(After(w, run))
    decreases |run|
  {
    if run != [] {
      StepIsBudgeted(w, run[0]);
      RunIsBudgeted(Step(w, run[0]), run[1..]);
    }
  }

  // With one tick in flight, in every reachable state: a waiting request has
  // spent at most four attempts, a parked one met a terminal class or spent
  // its fifth on something other than the outage, and the trail holds exactly
  // one request_parked entry for each parked row, swept ones included, and
  // none for any other.
  lemma EveryParkingIsEarnedAndRecordedOnce(run: seq<Action>)
    requires ValidRun(EMPTY, run) && Throughout(EMPTY, run, OneTick)
    ensures Spent(After(EMPTY, run).q)
    ensures ParkedOnce(After(EMPTY, run).q, After(EMPTY, run).h)
  {
    RunIsBudgeted(EMPTY, run);
  }

  /* ----- an outage spends nothing ----- */

  // Whatever is answered for this request is the outage.
  ghost function OnlyOutagesFor(id: RequestId): (World, Action) -> bool {
    (w: World, act: Action) => act.MoveRow? && Enabled(w, act) && w.ticks[act.t].batch[w.ticks[act.t].next].id == id ==>
                  OutcomeOf(w.ticks[act.t].answer) == Stall(CaptureUnavailable, false)
  }

  ghost predicate StillUnspent(q: Queue, id: RequestId, attempts: nat) {
    IsWaiting(q, id) && q.rows[id].attempts == attempts
  }

  lemma AMoveSpendsOnlyItsOwn(q: Queue, req: Queued, answer: Answer, now: Time, id: RequestId)
    requires IsWaiting(q, id) && (req.id == id ==> OutcomeOf(answer) == Stall(CaptureUnavailable, false))
    ensures StillUnspent(Mark(q, req, answer, now), id, q.rows[id].attempts)
  {
  }

  lemma AnArchiveSpendsNothing(q: Queue, a: Activity, order: seq<RequestId>, cause: string, event: string, now: Time,
                               id: RequestId)
    requires IsWaiting(q, id) && Enumerates(order, Claiming(q, a))
    ensures StillUnspent(Deliver(q, a, order, cause, event, now), id, q.rows[id].attempts)
  {
  }

  lemma AnInsertSpendsNothing(q: Queue, m: Member, other: RequestId, nonce: string, doc: Option<Arrival>, sentAt: Time,
                              stamp: Time, id: RequestId)
    requires IsWaiting(q, id) && m in q.edges && other !in q.rows
    ensures StillUnspent(Insert(q, m, other, nonce, doc, sentAt, stamp).0, id, q.rows[id].attempts)
  {
  }

  lemma AnOutageSpendsNothing(w: World, act: Action, id: RequestId)
    requires Partition(w.q, w.h) && Enabled(w, act) && IsWaiting(w.q, id) && OnlyOutagesFor(id)(w, act)
    ensures StillUnspent(Step(w, act).q, id, w.q.rows[id].attempts)
  {
    match act {
      case MoveRow(t) => AMoveSpendsOnlyItsOwn(w.q, w.ticks[t].batch[w.ticks[t].next], w.ticks[t].answer, w.now, id);
      case Archive(a, order, cause, event) => AnArchiveSpendsNothing(w.q, a, order, cause, event, w.now, id);
      case InsertRow(token, other, nonce, doc, sentAt, stamp) =>
        if w.arriving[token].owner in w.q.edges && other !in w.q.rows {
          AnInsertSpendsNothing(w.q, w.arriving[token].owner, other, nonce, doc, sentAt, stamp, id);
        }
      case SweepTables(_) =>
      case Open(_, _) =>
      case SetEnabled(_, _) =>
      case _ => QuietActionsMoveNoTable(w, act);
    }
  }

  // Over every run, overlapping ticks, crashes, archives and sweeps included:
  // a request that waits and is only ever answered with the outage still
  // waits, with the attempts it had.
  lemma {:induction false} AnOutageOfAnyLengthSpendsNothing(w: World, run: seq<Action>, id: RequestId)
    requires Accounted(w) && IsWaiting(w.q, id) && ValidRun(w, run) && Throughout(w, run, OnlyOutagesFor(id))
    ensures StillUnspent(After(w, run).q, id, w.q.rows[id].attempts)
    decreases |run|
  {
    if run != [] {
      StepIsAccounted(w, run[0]);
      AnOutageSpendsNothing(w, run[0], id);
      AnOutageOfAnyLengthSpendsNothing(Step(w, run[0]), run[1..], id);
    }
  }

  /* ----- every withdrawal of a landed claim is recorded once ----- */

  ghost predicate CountedOnce(trail: seq<Entry>, moved: set<RequestId>) {
    forall id :: WithdrawnCount(trail, id) == if id in moved then 1 else 0
  }

  // Where a moved request is: still held withdrawn, or swept.
  ghost predicate MovedStayWithdrawn(q: Queue, h: History) {
    forall id :: id in h.moved ==>
      (id in q.rows && q.rows[id].state == Withdrawn && id !in h.swept) || (id !in q.rows && id in h.swept)
  }

  ghost predicate WithdrawnOnce(q: Queue, h: History) {
    CountedOnce(q.trail, h.moved) && MovedStayWithdrawn(q, h)
  }

  lemma TheEntriesCountEachOnce(trail: seq<Entry>, moved: set<RequestId>, order: seq<RequestId>, ids: set<RequestId>,
                                cause: string, a: Activity, event: string)
    requires CountedOnce(trail, moved) && Enumerates(order, ids) && moved !! ids
    ensures CountedOnce(trail + WithdrawnEntries(order, cause, a, event), moved + ids)
  {
    forall id ensures WithdrawnCount(trail + WithdrawnEntries(order, cause, a, event), id)
                   == if id in moved + ids then 1 else 0
    {
      WithdrawalsAreEachCountedOnce(trail, order, cause, a, event, id);
      assert id in order <==> id in ids;
    }
  }

  lemma TheClaimedAreWithdrawn(q: Queue, h: History, a: Activity, order: seq<RequestId>, cause: string, event: string,
                               now: Time)
    requires Partition(q, h) && MovedStayWithdrawn(q, h) && Enumerates(order, Claiming(q, a))
    ensures MovedStayWithdrawn(Deliver(q, a, order, cause, event, now),
                               h.(delivered := h.delivered + {a}, moved := h.moved + Claiming(q, a)))
  {
    if order != [] {
      assert order[0] in Claiming(q, a);
    }
  }

  lemma WhatADeliveryRecords(q: Queue, a: Activity, order: seq<RequestId>, cause: string, event: string, now: Time)
    requires Enumerates(order, Claiming(q, a))
    ensures Deliver(q, a, order, cause, event, now).trail == q.trail + WithdrawnEntries(order, cause, a, event)
  {
    if order == [] {
      assert q.trail + WithdrawnEntries(order, cause, a, event) == q.trail;
    }
  }

  lemma DeliveringRecordsEachMoveOnce(q: Queue, h: History, a: Activity, order: seq<RequestId>, cause: string,
                                      event: string, now: Time)
    requires Partition(q, h) && WithdrawnOnce(q, h) && Enumerates(order, Claiming(q, a))
    ensures WithdrawnOnce(Deliver(q, a, order, cause, event, now),
                          h.(delivered := h.delivered + {a}, moved := h.moved + Claiming(q, a)))
  {
    WhatADeliveryRecords(q, a, order, cause, event, now);
    TheEntriesCountEachOnce(q.trail, h.moved, order, Claiming(q, a), cause, a, event);
    TheClaimedAreWithdrawn(q, h, a, order, cause, event, now);
  }

  lemma MovingRecordsNoWithdrawal(q: Queue, h: History, req: Queued, answer: Answer, now: Time)
    requires WithdrawnOnce(q, h)
    ensures WithdrawnOnce(Mark(q, req, answer, now), h)
  {
    var q' := Mark(q, req, answer, now);
    forall id ensures WithdrawnCount(q'.trail, id) == WithdrawnCount(q.trail, id) {
      if q'.trail != q.trail {
        OneMoreEntry(q.trail, q'.trail[|q.trail|], id);
      }
    }
  }

  lemma InsertingRecordsNoWithdrawal(q: Queue, h: History, m: Member, id: RequestId, nonce: string,
                                     doc: Option<Arrival>, sentAt: Time, stamp: Time)
    requires Partition(q, h) && WithdrawnOnce(q, h) && m in q.edges && id !in h.accepted
    ensures WithdrawnOnce(Insert(q, m, id, nonce, doc, sentAt, stamp).0, h)
    ensures WithdrawnOnce(Insert(q, m, id, nonce, doc, sentAt, stamp).0, h.(accepted := h.accepted[id := Sent(m, doc)]))
  {
  }

  lemma SweepingRecordsNoWithdrawal(q: Queue, h: History, now: Time)
    requires Partition(q, h) && WithdrawnOnce(q, h)
    ensures WithdrawnOnce(Sweep(q, now),
                          h.(swept := h.swept + (map id | id in Expired(q, now) :: Swept(q.rows[id], now))))
  {
  }

  lemma StepRecordsEachMoveOnce(w: World, act: Action)
    requires Accounted(w) && WithdrawnOnce(w.q, w.h) && Enabled(w, act)
    ensures WithdrawnOnce(Step(w, act).q, Step(w, act).h)
  {
    match act {
      case Archive(a, order, cause, event) => DeliveringRecordsEachMoveOnce(w.q, w.h, a, order, cause, event, w.now);
      case MoveRow(t) =>
        MovingRecordsNoWithdrawal(w.q, w.h, w.ticks[t].batch[w.ticks[t].next], w.ticks[t].answer, w.now);
      case InsertRow(token, id, nonce, doc, sentAt, stamp) =>
        if w.arriving[token].owner in w.q.edges && id !in w.q.rows {
          InsertingRecordsNoWithdrawal(w.q, w.h, w.arriving[token].owner, id, nonce, doc, sentAt, stamp);
        }
      case SweepTables(_) => SweepingRecordsNoWithdrawal(w.q, w.h, w.now);
      case Open(_, _) =>
      case SetEnabled(_, _) =>
      case _ => QuietActionsMoveNoTable(w, act);
    }
  }

  lemma {:induction false} RunRecordsEachMoveOnce(w: World, run: seq<Action>)
    requires Accounted(w) && WithdrawnOnce(w.q, w.h) && ValidRun(w, run)
    ensures WithdrawnOnce(After(w, run).q, After(w, run).h)
    decreases |run|
  {
    if run != [] {
      StepIsAccounted(w, run[0]);
      StepRecordsEachMoveOnce(w, run[0]);
      RunRecordsEachMoveOnce(Step(w, run[0]), run[1..]);
    }
  }

  // In every run, overlapping ticks included: the trail holds exactly one
  // request_withdrawn entry for each request an archive moved from landed to
  // withdrawn, and none for one that landed withdrawn through its marker.
  lemma EveryWithdrawalIsRecordedOnce(run: seq<Action>)
    requires ValidRun(EMPTY, run)
    ensures WithdrawnOnce(After(EMPTY, run).q, After(EMPTY, run).h)
  {
    RunRecordsEachMoveOnce(EMPTY, run);
  }
}
