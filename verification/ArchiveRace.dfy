// The race between a drain landing a request and the archive of the entry it
// became (extensions/openchannel/drain.go:202-236, withdraw.go:37-107).
module ArchiveRace {
  import opened Basics
  import opened Records
  import opened DrainFailure
  import opened Inbound
  import opened QueueMachine

  // No row claims a timeline entry that is gone.
  ghost predicate Honest(q: Queue, delivered: set<Activity>) {
    forall id :: id in q.rows && q.rows[id].state == Landed && q.rows[id].activity.Some? ==>
      q.rows[id].activity.value !in delivered
  }

  /* ----- one delivery and one landing, in either order ----- */

  ghost predicate Claimed(q: Queue, a: Activity) {
    exists id :: id in Claiming(q, a)
  }

  ghost function Withdrawing(q: Queue, a: Activity, now: Time): Queue {
    if Claimed(q, a) then q.(rows := TakeClaims(q, a, now))
    else if a in q.markers then q else q.(markers := q.markers[a := now])
  }

  lemma DeliveringIsWithdrawingPlusEntries(q: Queue, a: Activity, order: seq<RequestId>, cause: string, event: string,
                                           now: Time)
    requires Enumerates(order, Claiming(q, a))
    ensures Deliver(q, a, order, cause, event, now).(trail := q.trail) == Withdrawing(q, a, now)
    ensures Deliver(q, a, order, cause, event, now).trail == q.trail + WithdrawnEntries(order, cause, a, event)
  {
    if order == [] {
      assert !Claimed(q, a);
      assert WithdrawnEntries(order, cause, a, event) == [];
    } else {
      assert order[0] in Claiming(q, a);
    }
  }

  lemma LandingReadsNoTrail(q: Queue, trail: seq<Entry>, id: RequestId, activity: Option<Activity>, now: Time)
    ensures MarkLanded(q.(trail := trail), id, activity, now) == MarkLanded(q, id, activity, now).(trail := trail)
  {
  }

  // Deliver-then-land and land-then-deliver leave the landed request's row the
  // same exactly when no other row already claimed the entry, or a marker for
  // it was held; and leave the rows and the markers the same exactly when
  // those two went together. The deliveries may find their rows in any order.
  lemma TheOrderMattersExactlyWhenAnotherRowClaimedIt(q: Queue, id: RequestId, a: Activity, early: seq<RequestId>,
                                                      late: seq<RequestId>, cause: string, event: string, now: Time)
    requires IsWaiting(q, id)
    requires Enumerates(early, Claiming(q, a)) && Enumerates(late, Claiming(MarkLanded(q, id, Some(a), now), a))
    ensures var deliverFirst := MarkLanded(Deliver(q, a, early, cause, event, now), id, Some(a), now);
            var landFirst := Deliver(MarkLanded(q, id, Some(a), now), a, late, cause, event, now);
            && (deliverFirst.rows[id] == landFirst.rows[id] <==> (Claimed(q, a) ==> a in q.markers))
            && (deliverFirst.rows == landFirst.rows && deliverFirst.markers == landFirst.markers
                <==> (Claimed(q, a) <==> a in q.markers))
  {
    DeliveringIsWithdrawingPlusEntries(q, a, early, cause, event, now);
    DeliveringIsWithdrawingPlusEntries(MarkLanded(q, id, Some(a), now), a, late, cause, event, now);
    LandingReadsNoTrail(Withdrawing(q, a, now), Deliver(q, a, early, cause, event, now).trail, id, Some(a), now);
    assert Deliver(q, a, early, cause, event, now)
        == Withdrawing(q, a, now).(trail := Deliver(q, a, early, cause, event, now).trail);
    if a in q.markers { WithAMarkerHeld(q, id, a, now); } else { WithNoMarkerHeld(q, id, a, now); }
  }

  lemma WithAMarkerHeld(q: Queue, id: RequestId, a: Activity, now: Time)
    requires IsWaiting(q, id) && a in q.markers
    ensures var deliverFirst := MarkLanded(Withdrawing(q, a, now), id, Some(a), now);
            var landFirst := Withdrawing(MarkLanded(q, id, Some(a), now), a, now);
            && deliverFirst.rows == landFirst.rows
            && (deliverFirst.markers == landFirst.markers <==> Claimed(q, a))
  {
    var landed := MarkLanded(q, id, Some(a), now);
    assert Claiming(landed, a) == Claiming(q, a) && id !in Claiming(q, a);
    if !Claimed(q, a) {
      assert a in Withdrawing(landed, a, now).markers;
    }
  }

  lemma WithNoMarkerHeld(q: Queue, id: RequestId, a: Activity, now: Time)
    requires IsWaiting(q, id) && a !in q.markers
    ensures var deliverFirst := MarkLanded(Withdrawing(q, a, now), id, Some(a), now);
            var landFirst := Withdrawing(MarkLanded(q, id, Some(a), now), a, now);
            && (Claimed(q, a) ==> deliverFirst.rows[id] != landFirst.rows[id])
            && (!Claimed(q, a) ==> deliverFirst.rows == landFirst.rows && deliverFirst.markers == landFirst.markers)
  {
    var deliverFirst := MarkLanded(Withdrawing(q, a, now), id, Some(a), now);
    var landed := MarkLanded(q, id, Some(a), now);
    assert id in Claiming(landed, a);
    assert Claiming(landed, a) == Claiming(q, a) + {id};
    if Claimed(q, a) {
      assert deliverFirst.rows[id].state == Landed;
    } else {
      assert Claiming(q, a) == {};
      assert deliverFirst.markers == q.markers;
    }
  }

  // With one claimant and no marker held, both orders end withdrawn, naming
  // the entry, with no marker left over.
  lemma TheTwoOrdersEndTheSameWay(q: Queue, id: RequestId, a: Activity, early: seq<RequestId>, late: seq<RequestId>,
                                  cause: string, event: string, now: Time)
    requires IsWaiting(q, id) && !Claimed(q, a) && a !in q.markers
    requires Enumerates(early, Claiming(q, a)) && Enumerates(late, Claiming(MarkLanded(q, id, Some(a), now), a))
    ensures var deliverFirst := MarkLanded(Deliver(q, a, early, cause, event, now), id, Some(a), now);
            var landFirst := Deliver(MarkLanded(q, id, Some(a), now), a, late, cause, event, now);
            && deliverFirst.rows == landFirst.rows && deliverFirst.markers == landFirst.markers
            && deliverFirst.rows[id].state == Withdrawn && deliverFirst.rows[id].activity == Some(a)
            && a !in deliverFirst.markers
  {
    TheOrderMattersExactlyWhenAnotherRowClaimedIt(q, id, a, early, late, cause, event, now);
    var landed := MarkLanded(q, id, Some(a), now);
    DeliveringIsWithdrawingPlusEntries(landed, a, late, cause, event, now);
    assert id in Claiming(landed, a);
  }

  // The delivery has to be one step. Its update first, a landing committing,
  // and only then its marker insert: the row claims an archived entry and the
  // marker that should have stopped it sits beside it.
  lemma ASplitDeliveryLeavesTheClaim(q: Queue, id: RequestId, a: Activity, now: Time)
    requires IsWaiting(q, id) && !Claimed(q, a) && a !in q.markers
    ensures var afterUpdate := q.(rows := TakeClaims(q, a, now));
            var afterLanding := MarkLanded(afterUpdate, id, Some(a), now);
            var afterInsert := afterLanding.(markers := afterLanding.markers[a := now]);
            !Honest(afterInsert, {a}) && a in afterInsert.markers
  {
    var afterUpdate := q.(rows := TakeClaims(q, a, now));
    assert afterUpdate.rows[id] == q.rows[id];
    var afterLanding := MarkLanded(afterUpdate, id, Some(a), now);
    assert afterLanding.rows[id].state == Landed && afterLanding.rows[id].activity == Some(a);
  }

  /* ----- where honesty can be lost, exactly ----- */

  // The one landing that claims an entry already gone: its marker is missing.
  ghost predicate LandsOnALostArchive(w: World, act: Action) {
    && act.MoveRow? && Enabled(w, act)
    && var tick := w.ticks[act.t];
    && IsWaiting(w.q, tick.batch[tick.next].id)
    && ActivityOf(tick.answer).Some?
    && ActivityOf(tick.answer).value in w.h.delivered
    && ActivityOf(tick.answer).value !in w.q.markers
  }

  lemma LandingKeepsHonestyExactlyWithAMarker(q: Queue, id: RequestId, activity: Option<Activity>,
                                              delivered: set<Activity>, now: Time)
    requires Honest(q, delivered)
    ensures Honest(MarkLanded(q, id, activity, now), delivered)
       <==> !(IsWaiting(q, id) && activity.Some? && activity.value in delivered && activity.value !in q.markers)
  {
    var q' := MarkLanded(q, id, activity, now);
    if IsWaiting(q, id) && activity.Some? && activity.value in delivered && activity.value !in q.markers {
      assert q'.rows[id].state == Landed && q'.rows[id].activity.value in delivered;
    }
  }

  lemma StallingKeepsHonesty(q: Queue, req: Queued, fault: Class, terminal: bool, reason: string,
                             delivered: set<Activity>, now: Time)
    requires Honest(q, delivered)
    ensures Honest(MarkStalled(q, req, fault, terminal, reason, now), delivered)
  {
  }

  lemma DeliveringKeepsHonesty(q: Queue, a: Activity, order: seq<RequestId>, cause: string, event: string, now: Time,
                               delivered: set<Activity>)
    requires Honest(q, delivered) && Enumerates(order, Claiming(q, a))
    ensures Honest(Deliver(q, a, order, cause, event, now), delivered + {a})
  {
    var q' := Deliver(q, a, order, cause, event, now);
    forall id | id in Claiming(q, a) ensures id in q'.rows && q'.rows[id].state == Withdrawn {
    }
    forall id | id in q'.rows && q'.rows[id].state == Landed && q'.rows[id].activity.Some?
      ensures q'.rows[id].activity.value !in delivered + {a}
    {
    }
  }

  lemma InsertingKeepsHonesty(q: Queue, m: Member, id: RequestId, nonce: string, doc: Option<Arrival>, sentAt: Time,
                              stamp: Time, delivered: set<Activity>)
    requires Honest(q, delivered) && m in q.edges && id !in q.rows
    ensures Honest(Insert(q, m, id, nonce, doc, sentAt, stamp).0, delivered)
  {
  }

  // From an honest state every action of every actor leads to an honest
  // state, except that one.
  lemma HonestyIsLostExactlyThere(w: World, act: Action)
    requires Honest(w.q, w.h.delivered) && Enabled(w, act)
    ensures Honest(Step(w, act).q, Step(w, act).h.delivered) <==> !LandsOnALostArchive(w, act)
  {
    match act {
      case MoveRow(t) =>
        var req, answer := w.ticks[t].batch[w.ticks[t].next], w.ticks[t].answer;
        LandingKeepsHonestyExactlyWithAMarker(w.q, req.id, ActivityOf(answer), w.h.delivered, w.now);
        match OutcomeOf(answer) {
          case Landing =>
          case Stall(fault, terminal) =>
            StallingKeepsHonesty(w.q, req, fault, terminal, ReasonOf(answer), w.h.delivered, w.now);
        }
      case Archive(a, order, cause, event) =>
        DeliveringKeepsHonesty(w.q, a, order, cause, event, w.now, w.h.delivered);
      case InsertRow(token, id, nonce, doc, sentAt, stamp) =>
        if w.arriving[token].owner in w.q.edges && id !in w.q.rows {
          InsertingKeepsHonesty(w.q, w.arriving[token].owner, id, nonce, doc, sentAt, stamp, w.h.delivered);
        }
      case SweepTables(_) =>
      case Open(_, _) =>
      case SetEnabled(_, _) =>
      case _ => QuietActionsMoveNoTable(w, act);
    }
  }

  // The families of failure, each for every queue that meets it. A sweep that
  // drops a waiting request's marker past its hour:
  lemma AnExpiredMarkerLosesItsArchive(q: Queue, id: RequestId, a: Activity, now: Time)
    requires IsWaiting(q, id) && a in q.markers && MarkerExpired(q.markers[a], now)
    ensures !Honest(MarkLanded(Sweep(q, now), id, Some(a), now), {a})
  {
    var landed := MarkLanded(Sweep(q, now), id, Some(a), now);
    assert landed.rows[id].state == Landed && landed.rows[id].activity == Some(a);
  }

  // Two requests on one entry, where the first landing consumes the marker:
  lemma ASecondLandingFindsNoMarker(q: Queue, first: RequestId, second: RequestId, a: Activity, now: Time)
    requires IsWaiting(q, first) && IsWaiting(q, second) && first != second && a in q.markers
    ensures !Honest(MarkLanded(MarkLanded(q, first, Some(a), now), second, Some(a), now), {a})
  {
    var landed := MarkLanded(MarkLanded(q, first, Some(a), now), second, Some(a), now);
    assert landed.rows[second].state == Landed && landed.rows[second].activity == Some(a);
  }

  // Two requests on one entry, where the archive matched the first and so
  // left no marker for the second:
  lemma AMatchedArchiveLeavesNoMarker(q: Queue, second: RequestId, a: Activity, now: Time)
    requires IsWaiting(q, second) && Claimed(q, a) && a !in q.markers
    ensures !Honest(MarkLanded(Withdrawing(q, a, now), second, Some(a), now), {a})
  {
    var landed := MarkLanded(Withdrawing(q, a, now), second, Some(a), now);
    assert landed.rows[second].state == Landed && landed.rows[second].activity == Some(a);
  }

  // Where a run that breaks the promise stands once the archive came: the
  // first request answered, its landing still to come, and one marker for two
  // requests.
  ghost predicate OneMarkerForTwo(w: World, t: TickId, x: Queued, y: Queued, k: string, a: Activity) {
    && t in w.ticks && w.ticks[t].Answered? && w.ticks[t].batch == [x, y] && w.ticks[t].next == 0
    && w.ticks[t].answer == Disposed(Disposition.Kept(a))
    && IsWaiting(w.q, x.id) && IsWaiting(w.q, y.id) && x.id != y.id
    && NaturalKeyOf(y) == Some(k) && k in w.core && w.core[k] == a
    && a in w.q.markers && a in w.h.delivered
  }

  lemma TheFirstIsAnswered(w: World, t: TickId, x: Queued, y: Queued, k: string, a: Activity)
    requires t !in w.ticks && IsBatch(w.q, [x, y]) && NaturalKeyOf(x) == Some(k)
    requires k !in w.core && a !in w.core.Values && a !in w.h.delivered
    ensures var start, ask := StartTick(t, [x, y]), Ingest(t, Disposed(Disposition.Kept(a)), Some(a));
            && Enabled(w, start) && Enabled(Step(w, start), ask)
            && Step(Step(w, start), ask)
               == w.(core := w.core[k := a],
                     ticks := w.ticks[t := Answered([x, y], 0, 0, [], Disposed(Disposition.Kept(a)))])
  {
    var started := Step(w, StartTick(t, [x, y]));
    assert started.ticks[t] == Taking([x, y], 0, 0, []) && [x, y][0] == x;
  }

  lemma TheArchiveLeavesOneMarker(w: World, t: TickId, x: Queued, y: Queued, k: string, a: Activity)
    requires t in w.ticks && w.ticks[t] == Answered([x, y], 0, 0, [], Disposed(Disposition.Kept(a)))
    requires IsWaiting(w.q, x.id) && IsWaiting(w.q, y.id) && x.id != y.id && NaturalKeyOf(y) == Some(k)
    requires k in w.core && w.core[k] == a && Claiming(w.q, a) == {}
    ensures Enabled(w, Archive(a, [], "", "")) && OneMarkerForTwo(Step(w, Archive(a, [], "", "")), t, x, y, k, a)
  {
  }

  lemma FirstHalf(w: World, t: TickId, x: Queued, y: Queued, k: string, a: Activity) returns (run: seq<Action>)
    requires t !in w.ticks && IsBatch(w.q, [x, y]) && x.id != y.id
    requires NaturalKeyOf(x) == NaturalKeyOf(y) == Some(k)
    requires k !in w.core && a !in w.core.Values && a !in w.h.delivered && Claiming(w.q, a) == {}
    ensures ValidRun(w, run) && OneMarkerForTwo(After(w, run), t, x, y, k, a)
  {
    var start, ask := StartTick(t, [x, y]), Ingest(t, Disposed(Disposition.Kept(a)), Some(a));
    var archive := Archive(a, [], "", "");
    assert [x, y][0] == x && [x, y][1] == y;
    TheFirstIsAnswered(w, t, x, y, k, a);
    TheArchiveLeavesOneMarker(Step(Step(w, start), ask), t, x, y, k, a);
    OneMoreStep(w, [], start);
    OneMoreStep(w, [] + [start], ask);
    OneMoreStep(w, [] + [start] + [ask], archive);
    run := [] + [start] + [ask] + [archive];
  }

  lemma SecondHalf(w: World, t: TickId, x: Queued, y: Queued, k: string, a: Activity) returns (run: seq<Action>)
    requires OneMarkerForTwo(w, t, x, y, k, a)
    ensures ValidRun(w, run) && !Honest(After(w, run).q, After(w, run).h.delivered)
  {
    var move, ask := MoveRow(t), Ingest(t, Disposed(Disposition.Kept(a)), Some(a));
    OneMoreStep(w, [], move);
    OneMoreStep(w, [] + [move], ask);
    OneMoreStep(w, [] + [move] + [ask], move);
    run := [] + [move] + [ask] + [move];
    var landed := After(w, run);
    assert landed.q.rows[y.id].state == Landed && landed.q.rows[y.id].activity == Some(a);
  }

  // From any state between ticks whose batch is two requests of one message,
  // not yet on the timeline, a run of six actions ends with a row claiming an
  // archived entry: a message must not be posted while an earlier request of it
  // waits.
  lemma TwoRequestsOfOneMessageCanContradict(w: World, t: TickId, x: Queued, y: Queued, k: string, a: Activity)
    requires t !in w.ticks && IsBatch(w.q, [x, y]) && x.id != y.id
    requires NaturalKeyOf(x) == NaturalKeyOf(y) == Some(k)
    requires k !in w.core && a !in w.core.Values && a !in w.h.delivered && Claiming(w.q, a) == {}
    ensures exists run :: ValidRun(w, run) && !Honest(After(w, run).q, After(w, run).h.delivered)
  {
    var first := FirstHalf(w, t, x, y, k, a);
    var second := SecondHalf(After(w, first), t, x, y, k, a);
    RunInTwo(w, first, second);
  }

  /* ----- honest throughout, exactly ----- */

  ghost function LandsOnNoLostArchive(): (World, Action) -> bool {
    (w, act) => !LandsOnALostArchive(w, act)
  }

  ghost function StaysHonest(): (World, Action) -> bool {
    (w, act) => Enabled(w, act) && Honest(Step(w, act).q, Step(w, act).h.delivered)
  }

  lemma {:induction false} ARunIsHonestExactlyUnless(w: World, run: seq<Action>)
    requires Honest(w.q, w.h.delivered) && ValidRun(w, run)
    ensures Throughout(w, run, StaysHonest()) <==> Throughout(w, run, LandsOnNoLostArchive())
    decreases |run|
  {
    if run != [] {
      HonestyIsLostExactlyThere(w, run[0]);
      if Honest(Step(w, run[0]).q, Step(w, run[0]).h.delivered) {
        ARunIsHonestExactlyUnless(Step(w, run[0]), run[1..]);
      }
    }
  }

  // A run claims no archived entry at any of its states exactly when none of
  // its steps is that landing.
  lemma EveryRunIsHonestExactlyUnless(run: seq<Action>)
    requires ValidRun(EMPTY, run)
    ensures Throughout(EMPTY, run, StaysHonest()) <==> Throughout(EMPTY, run, LandsOnNoLostArchive())
  {
    ARunIsHonestExactlyUnless(EMPTY, run);
  }

  /* ----- every run whose messages are posted afresh ----- */

  // The ids a tick in flight has still to move the rows of.
  ghost predicate Holding(tick: Tick, id: RequestId) {
    !tick.Deleting? && exists i :: tick.next <= i < |tick.batch| && tick.batch[i].id == id
  }

  ghost predicate HeldByATick(ticks: map<TickId, Tick>, id: RequestId) {
    exists t :: t in ticks && Holding(ticks[t], id)
  }

  // A request whose landing may still come.
  ghost predicate Live(q: Queue, ticks: map<TickId, Tick>, id: RequestId) {
    IsWaiting(q, id) || HeldByATick(ticks, id)
  }

  // What an insert that the nonce check lets through would be filed under.
  ghost predicate Inserts(w: World, act: Action, k: string) {
    && act.InsertRow? && Enabled(w, act) && !NonceTaken(w.q, w.arriving[act.token].owner, act.nonce)
    && KeyIn(w.q.edges, Sent(w.arriving[act.token].owner, act.doc)) == Some(k)
  }

  // A message is posted when no earlier request of it may still land and the
  // core holds no entry for it: for the first time, or again after every
  // earlier request was decided without one.
  ghost predicate IsPostedAfresh(w: World, act: Action) {
    forall k :: Inserts(w, act, k) ==>
      k !in w.core && forall id :: id in Keys(w) && Keys(w)[id] == k ==> !Live(w.q, w.ticks, id)
  }

  // A sweep drops no marker for the entry a waiting request has in the core.
  ghost predicate SparesNeededMarkers(w: World, act: Action) {
    act.SweepTables? ==>
      forall id :: IsWaiting(w.q, id) && id in Keys(w) && Keys(w)[id] in w.core
                   && w.core[Keys(w)[id]] in w.q.markers ==>
        !MarkerExpired(w.q.markers[w.core[Keys(w)[id]]], w.now)
  }

  ghost predicate OneClaimant(w: World, act: Action) {
    IsPostedAfresh(w, act) && SparesNeededMarkers(w, act)
  }

  function KeyIn(edges: map<Member, Edge>, sent: Sent): Option<string> {
    if sent.owner in edges then KeyFor(edges[sent.owner].ref, sent.doc) else None
  }

  // The natural key of each accepted request that has one.
  function KeysOf(edges: map<Member, Edge>, accepted: map<RequestId, Sent>): map<RequestId, string> {
    map id | id in accepted && KeyIn(edges, accepted[id]).Some? :: KeyIn(edges, accepted[id]).value
  }

  function Keys(w: World): map<RequestId, string> {
    KeysOf(w.q.edges, w.h.accepted)
  }

  // Of the requests of one message, one at most may still land, and none may
  // where another has its entry.
  ghost predicate OneLiveEach(q: Queue, ticks: map<TickId, Tick>, key: map<RequestId, string>) {
    forall i, j :: i in key && j in key && i != j && key[i] == key[j] && Live(q, ticks, i) ==>
      !Live(q, ticks, j) && !(j in q.rows && q.rows[j].activity.Some?)
  }

  ghost predicate OneEntryEach(core: map<string, Activity>) {
    forall k, l :: k in core && l in core && core[k] == core[l] ==> k == l
  }

  ghost predicate RowsNameTheirEntry(q: Queue, core: map<string, Activity>, key: map<RequestId, string>) {
    forall id :: id in q.rows && q.rows[id].activity.Some? ==>
      q.rows[id].state != Waiting && id in key && key[id] in core && core[key[id]] == q.rows[id].activity.value
  }

  // The marker of every archive whose landing may still come.
  ghost predicate MarkersWait(q: Queue, core: map<string, Activity>, key: map<RequestId, string>,
                              delivered: set<Activity>) {
    forall id :: IsWaiting(q, id) && id in key && key[id] in core && core[key[id]] in delivered ==>
      core[key[id]] in q.markers
  }

  ghost predicate Promise(q: Queue, core: map<string, Activity>, key: map<RequestId, string>,
                          delivered: set<Activity>) {
    && OneEntryEach(core)
    && (forall k :: k in core ==> k in key.Values)
    && RowsNameTheirEntry(q, core, key)
    && MarkersWait(q, core, key, delivered)
    && Honest(q, delivered)
  }

  ghost predicate Agrees(req: Queued, key: map<RequestId, string>) {
    NaturalKeyOf(req) == if req.id in key then Some(key[req.id]) else None
  }

  // What a tick in flight holds agrees with the rows it read.
  ghost predicate TickKnows(tick: Tick, known: set<RequestId>, core: map<string, Activity>,
                            key: map<RequestId, string>)
  {
    !tick.Deleting? ==>
      && (forall i :: 0 <= i < |tick.batch| ==> tick.batch[i].id in known && Agrees(tick.batch[i], key))
      && (tick.Answered? && tick.next < |tick.batch| && ActivityOf(tick.answer).Some? ==>
            var id := tick.batch[tick.next].id;
            id in key && key[id] in core && core[key[id]] == ActivityOf(tick.answer).value)
  }

  ghost predicate TicksKnow(ticks: map<TickId, Tick>, known: set<RequestId>, core: map<string, Activity>,
                            key: map<RequestId, string>)
  {
    forall t :: t in ticks ==> TickKnows(ticks[t], known, core, key)
  }

  ghost predicate Kept(w: World) {
    && Accounted(w)
    && OneLiveEach(w.q, w.ticks, Keys(w))
    && Promise(w.q, w.core, Keys(w), w.h.delivered)
    && TicksKnow(w.ticks, w.h.accepted.Keys, w.core, Keys(w))
  }

  /* ----- one request of a message that may still land ----- */

  ghost predicate HasAnEntry(q: Queue, id: RequestId) {
    id in q.rows && q.rows[id].activity.Some?
  }

  // Nothing comes to life, and nothing is given an entry that was not live.
  lemma LivesEndOneByOne(q: Queue, ticks: map<TickId, Tick>, q': Queue, ticks': map<TickId, Tick>,
                         key: map<RequestId, string>)
    requires OneLiveEach(q, ticks, key)
    requires forall id :: Live(q', ticks', id) ==> Live(q, ticks, id)
    requires forall id :: HasAnEntry(q', id) ==> HasAnEntry(q, id) || Live(q, ticks, id)
    ensures OneLiveEach(q', ticks', key)
  {
    forall i, j | i in key && j in key && i != j && key[i] == key[j] && Live(q', ticks', i)
      ensures !Live(q', ticks', j) && !HasAnEntry(q', j)
    {
      assert Live(q, ticks, i);
      assert !Live(q, ticks, j) && !HasAnEntry(q, j);
    }
  }

  lemma OnlyOneWaits(q: Queue, ticks: map<TickId, Tick>, key: map<RequestId, string>, id: RequestId)
    requires OneLiveEach(q, ticks, key) && HeldByATick(ticks, id)
    ensures forall other :: IsWaiting(q, other) && other in key && id in key && key[other] == key[id] ==> other == id
  {
    forall other | IsWaiting(q, other) && other in key && id in key && key[other] == key[id] ensures other == id {
      assert Live(q, ticks, other) && Live(q, ticks, id);
    }
  }

  // No request waits for a landing whose entry another already has.
  ghost predicate NoneWaitsOnAnEntry(q: Queue, key: map<RequestId, string>) {
    forall i, j :: i in key && j in key && key[i] == key[j] && IsWaiting(q, i) ==> !HasAnEntry(q, j)
  }

  lemma NoneWaits(q: Queue, ticks: map<TickId, Tick>, core: map<string, Activity>, key: map<RequestId, string>)
    requires OneLiveEach(q, ticks, key) && RowsNameTheirEntry(q, core, key)
    ensures NoneWaitsOnAnEntry(q, key)
  {
    forall i, j | i in key && j in key && key[i] == key[j] && IsWaiting(q, i) ensures !HasAnEntry(q, j) {
      assert Live(q, ticks, i);
    }
  }

  lemma LandingKeepsThePromise(q: Queue, core: map<string, Activity>, key: map<RequestId, string>,
                               delivered: set<Activity>, id: RequestId, activity: Option<Activity>, now: Time)
    requires Promise(q, core, key, delivered)
    requires activity.Some? ==> id in key && key[id] in core && core[key[id]] == activity.value
    requires forall other :: IsWaiting(q, other) && other in key && id in key && key[other] == key[id] ==> other == id
    ensures Promise(MarkLanded(q, id, activity, now), core, key, delivered)
  {
    var q' := MarkLanded(q, id, activity, now);
    LandingKeepsHonestyExactlyWithAMarker(q, id, activity, delivered, now);
    forall other | IsWaiting(q', other) && other in key && key[other] in core && core[key[other]] in delivered
      ensures core[key[other]] in q'.markers
    {
      assert IsWaiting(q, other) && !IsWaiting(q', id);
      assert activity.Some? ==> core[key[other]] != activity.value;
    }
  }

  lemma StallingKeepsThePromise(q: Queue, core: map<string, Activity>, key: map<RequestId, string>,
                                delivered: set<Activity>,
                                req: Queued, fault: Class, terminal: bool, reason: string, now: Time)
    requires Promise(q, core, key, delivered)
    ensures Promise(MarkStalled(q, req, fault, terminal, reason, now), core, key, delivered)
  {
    StallingKeepsHonesty(q, req, fault, terminal, reason, delivered, now);
  }

  lemma DeliveringKeepsThePromise(q: Queue, core: map<string, Activity>, key: map<RequestId, string>,
                                  delivered: set<Activity>,
                                  a: Activity, order: seq<RequestId>, cause: string, event: string, now: Time)
    requires Promise(q, core, key, delivered) && Enumerates(order, Claiming(q, a)) && NoneWaitsOnAnEntry(q, key)
    ensures Promise(Deliver(q, a, order, cause, event, now), core, key, delivered + {a})
  {
    var q' := Deliver(q, a, order, cause, event, now);
    DeliveringKeepsHonesty(q, a, order, cause, event, now, delivered);
    forall other | other in Claiming(q, a)
      ensures other in key && key[other] in core && core[key[other]] == a && HasAnEntry(q, other)
    {
    }
    if order != [] {
      assert order[0] in Claiming(q, a);
    }
    forall id | IsWaiting(q', id) && id in key && key[id] in core && core[key[id]] in delivered + {a}
      ensures core[key[id]] in q'.markers
    {
      assert IsWaiting(q, id);
    }
  }

  lemma SweepingKeepsThePromise(q: Queue, core: map<string, Activity>, key: map<RequestId, string>,
                                delivered: set<Activity>, now: Time)
    requires Promise(q, core, key, delivered)
    requires forall id :: IsWaiting(q, id) && id in key && key[id] in core && core[key[id]] in q.markers ==>
               !MarkerExpired(q.markers[core[key[id]]], now)
    ensures Promise(Sweep(q, now), core, key, delivered)
  {
  }

  lemma IngestingKeepsThePromise(q: Queue, core: map<string, Activity>, key: map<RequestId, string>,
                                 delivered: set<Activity>, id: RequestId, a: Activity)
    requires Promise(q, core, key, delivered) && id in key
    requires if key[id] in core then core[key[id]] == a else a !in core.Values && a !in delivered
    ensures Promise(q, core[key[id] := a], key, delivered)
  {
    var core' := core[key[id] := a];
    forall k, l | k in core' && l in core' && core'[k] == core'[l] ensures k == l {
      assert core'[k] == if k == key[id] then a else core[k];
      assert core'[l] == if l == key[id] then a else core[l];
    }
  }

  lemma AddingAKeyKeepsThePromise(q: Queue, core: map<string, Activity>, key: map<RequestId, string>,
                                  delivered: set<Activity>, q': Queue, id: RequestId, key': map<RequestId, string>)
    requires Promise(q, core, key, delivered) && id !in q.rows && id !in key
    requires q'.markers == q.markers && q'.rows.Keys == q.rows.Keys + {id}
    requires forall i :: i in q.rows ==> q'.rows[i] == q.rows[i]
    requires q'.rows[id].state == Waiting && q'.rows[id].activity == None
    requires key' == key || (id in key' && key' == key[id := key'[id]] && key'[id] !in core)
    ensures Promise(q', core, key', delivered)
  {
    assert key.Values <= key'.Values by {
      forall i | i in key ensures key[i] in key'.Values {
        assert key'[i] == key[i];
      }
    }
  }

  lemma AKeyIsFixedByItsRef(edges: map<Member, Edge>, edges': map<Member, Edge>, sent: Sent)
    requires sent.owner in edges && sent.owner in edges' && edges'[sent.owner].ref == edges[sent.owner].ref
    ensures KeyIn(edges', sent) == KeyIn(edges, sent)
  {
  }

  lemma KeysSurvive(edges: map<Member, Edge>, edges': map<Member, Edge>, accepted: map<RequestId, Sent>)
    requires forall id :: id in accepted ==> accepted[id].owner in edges
    requires forall m :: m in edges ==> m in edges' && edges'[m].ref == edges[m].ref
    ensures KeysOf(edges', accepted) == KeysOf(edges, accepted)
  {
    forall id | id in accepted ensures KeyIn(edges', accepted[id]) == KeyIn(edges, accepted[id]) {
      AKeyIsFixedByItsRef(edges, edges', accepted[id]);
    }
  }

  lemma OneMoreKey(edges: map<Member, Edge>, accepted: map<RequestId, Sent>, id: RequestId, sent: Sent,
                   key: Option<string>)
    requires id !in accepted && key == KeyIn(edges, sent)
    ensures KeysOf(edges, accepted[id := sent])
         == if key.Some? then KeysOf(edges, accepted)[id := key.value] else KeysOf(edges, accepted)
  {
  }

  lemma KeysAreUnchanged(w: World, w': World)
    requires w'.h.accepted == w.h.accepted
    requires forall id :: id in w.h.accepted ==> w.h.accepted[id].owner in w.q.edges
    requires forall m :: m in w.q.edges ==> m in w'.q.edges && w'.q.edges[m].ref == w.q.edges[m].ref
    ensures Keys(w') == Keys(w)
  {
    KeysSurvive(w.q.edges, w'.q.edges, w.h.accepted);
  }

  lemma AnInsertAddsOneKey(w: World, act: Action)
    requires Accounted(w) && act.InsertRow? && Enabled(w, act)
    requires !NonceTaken(w.q, w.arriving[act.token].owner, act.nonce)
    ensures var key := KeyIn(w.q.edges, Sent(w.arriving[act.token].owner, act.doc));
            Keys(Step(w, act)) == if key.Some? then Keys(w)[act.id := key.value] else Keys(w)
  {
    var m, edges := w.arriving[act.token].owner, w.q.edges;
    var accepted := w.h.accepted[act.id := Sent(m, act.doc)];
    var edges' := edges[m := edges[m].(received := edges[m].received + 1)];
    assert act.id !in w.q.rows;
    AnInsertAddsOneRow(w.q, m, act.id, act.nonce, act.doc, act.sentAt, act.stamp);
    assert Step(w, act).h.accepted == accepted && Step(w, act).q.edges == edges';
    OneMoreKey(edges, w.h.accepted, act.id, Sent(m, act.doc), KeyIn(edges, Sent(m, act.doc)));
    KeysSurvive(edges, edges', accepted);
  }

  lemma ATickKnowsStillMore(tick: Tick, known: set<RequestId>, core: map<string, Activity>, key: map<RequestId, string>,
                            known': set<RequestId>, core': map<string, Activity>, key': map<RequestId, string>)
    requires TickKnows(tick, known, core, key)
    requires known <= known' && key.Keys <= known
    requires forall id :: id in known ==> (id in key <==> id in key') && (id in key ==> key'[id] == key[id])
    requires forall k :: k in core ==> k in core' && core'[k] == core[k]
    ensures TickKnows(tick, known', core', key')
  {
  }

  lemma TicksKnowStillMore(ticks: map<TickId, Tick>,
                           known: set<RequestId>, core: map<string, Activity>, key: map<RequestId, string>,
                           known': set<RequestId>, core': map<string, Activity>, key': map<RequestId, string>)
    requires TicksKnow(ticks, known, core, key)
    requires known <= known' && key.Keys <= known
    requires forall id :: id in known ==> (id in key <==> id in key') && (id in key ==> key'[id] == key[id])
    requires forall k :: k in core ==> k in core' && core'[k] == core[k]
    ensures TicksKnow(ticks, known', core', key')
  {
    forall t | t in ticks ensures TickKnows(ticks[t], known', core', key') {
      ATickKnowsStillMore(ticks[t], known, core, key, known', core', key');
    }
  }

  lemma InsertingKeepsTheRun(w: World, act: Action)
    requires Kept(w) && act.InsertRow? && Enabled(w, act) && IsPostedAfresh(w, act)
    ensures Kept(Step(w, act))
  {
    StepIsAccounted(w, act);
    if NonceTaken(w.q, w.arriving[act.token].owner, act.nonce) {
      DroppingTicksKeepsTheRun(w, Step(w, act));
    } else {
      InsertingARowKeepsThePromise(w, act);
      InsertingARowIsKnown(w, act);
      InsertingARowIsTheOneLive(w, act);
    }
  }

  lemma InsertingARowKeepsThePromise(w: World, act: Action)
    requires Accounted(w) && Promise(w.q, w.core, Keys(w), w.h.delivered)
    requires act.InsertRow? && Enabled(w, act) && IsPostedAfresh(w, act)
    requires !NonceTaken(w.q, w.arriving[act.token].owner, act.nonce)
    ensures var w' := Step(w, act); Promise(w'.q, w'.core, Keys(w'), w'.h.delivered)
  {
    AnInsertAddsOneKey(w, act);
    AnInsertIsOneMoreRow(w, act);
    var key := KeyIn(w.q.edges, Sent(w.arriving[act.token].owner, act.doc));
    assert key.Some? ==> Inserts(w, act, key.value);
    AddingAKeyKeepsThePromise(w.q, w.core, Keys(w), w.h.delivered, Step(w, act).q, act.id, Keys(Step(w, act)));
  }

  // A waiting row for a message none of whose earlier requests may land.
  lemma OneMoreLive(q: Queue, ticks: map<TickId, Tick>, core: map<string, Activity>, key: map<RequestId, string>,
                    q': Queue, id: RequestId, key': map<RequestId, string>)
    requires OneLiveEach(q, ticks, key) && RowsNameTheirEntry(q, core, key) && id !in key
    requires q'.rows.Keys == q.rows.Keys + {id} && id !in q.rows
    requires forall i :: i in q.rows ==> q'.rows[i] == q.rows[i]
    requires q'.rows[id].activity == None
    requires key' == key
             || (id in key' && key' == key[id := key'[id]] && key'[id] !in core
                 && forall i :: i in key && key[i] == key'[id] ==> !Live(q, ticks, i))
    ensures OneLiveEach(q', ticks, key')
  {
    forall i, j | i in key' && j in key' && i != j && key'[i] == key'[j] && Live(q', ticks, i)
      ensures !Live(q', ticks, j) && !HasAnEntry(q', j)
    {
      if i != id {
        assert Live(q, ticks, i);
      }
      if j != id {
        assert Live(q', ticks, j) ==> Live(q, ticks, j);
        assert HasAnEntry(q', j) ==> HasAnEntry(q, j);
      }
    }
  }

  lemma InsertingARowIsTheOneLive(w: World, act: Action)
    requires Accounted(w) && OneLiveEach(w.q, w.ticks, Keys(w)) && RowsNameTheirEntry(w.q, w.core, Keys(w))
    requires act.InsertRow? && Enabled(w, act) && IsPostedAfresh(w, act)
    requires !NonceTaken(w.q, w.arriving[act.token].owner, act.nonce)
    ensures var w' := Step(w, act); OneLiveEach(w'.q, w'.ticks, Keys(w'))
  {
    AnInsertAddsOneKey(w, act);
    AnInsertIsOneMoreRow(w, act);
    var key := KeyIn(w.q.edges, Sent(w.arriving[act.token].owner, act.doc));
    assert key.Some? ==> Inserts(w, act, key.value);
    OneMoreLive(w.q, w.ticks, w.core, Keys(w), Step(w, act).q, act.id, Keys(Step(w, act)));
  }

  lemma OneMoreKeyIsKnown(ticks: map<TickId, Tick>, known: set<RequestId>, core: map<string, Activity>,
                          key: map<RequestId, string>, id: RequestId, key': map<RequestId, string>)
    requires TicksKnow(ticks, known, core, key) && key.Keys <= known && id !in known
    requires key' == key || (id in key' && key' == key[id := key'[id]])
    ensures TicksKnow(ticks, known + {id}, core, key')
  {
    TicksKnowStillMore(ticks, known, core, key, known + {id}, core, key');
  }

  lemma InsertingARowIsKnown(w: World, act: Action)
    requires Accounted(w) && TicksKnow(w.ticks, w.h.accepted.Keys, w.core, Keys(w))
    requires act.InsertRow? && Enabled(w, act)
    requires !NonceTaken(w.q, w.arriving[act.token].owner, act.nonce)
    ensures var w' := Step(w, act); TicksKnow(w'.ticks, w'.h.accepted.Keys, w'.core, Keys(w'))
  {
    AnInsertAddsOneKey(w, act);
    AnInsertIsOneMoreRow(w, act);
    OneMoreKeyIsKnown(w.ticks, w.h.accepted.Keys, w.core, Keys(w), act.id, Keys(Step(w, act)));
  }

  // The tables an insert leaves, against those before it.
  lemma AnInsertAddsOneRow(q: Queue, m: Member, id: RequestId, nonce: string, doc: Option<Arrival>, sentAt: Time,
                           stamp: Time)
    requires m in q.edges && id !in q.rows && !NonceTaken(q, m, nonce)
    ensures var q' := Insert(q, m, id, nonce, doc, sentAt, stamp).0;
            && q'.markers == q.markers && q'.rows.Keys == q.rows.Keys + {id}
            && (forall i :: i in q.rows ==> q'.rows[i] == q.rows[i])
            && q'.rows[id].state == Waiting && q'.rows[id].activity == None
            && q'.edges == q.edges[m := q.edges[m].(received := q.edges[m].received + 1)]
  {
  }

  lemma AnInsertIsOneMoreRow(w: World, act: Action)
    requires Accounted(w) && act.InsertRow? && Enabled(w, act)
    requires !NonceTaken(w.q, w.arriving[act.token].owner, act.nonce)
    ensures var w' := Step(w, act);
            && w'.q.markers == w.q.markers && w'.q.rows.Keys == w.q.rows.Keys + {act.id} && act.id !in w.q.rows
            && (forall i :: i in w.q.rows ==> w'.q.rows[i] == w.q.rows[i])
            && w'.q.rows[act.id].state == Waiting && w'.q.rows[act.id].activity == None
            && w'.core == w.core && w'.ticks == w.ticks && w'.h.delivered == w.h.delivered
            && w'.h.accepted.Keys == w.h.accepted.Keys + {act.id}
  {
    assert act.id !in w.q.rows;
    AnInsertAddsOneRow(w.q, w.arriving[act.token].owner, act.id, act.nonce, act.doc, act.sentAt, act.stamp);
  }

  lemma ReadingABatchKnowsIt(w: World, batch: seq<Queued>)
    requires Accounted(w) && IsBatch(w.q, batch)
    ensures forall i :: 0 <= i < |batch| ==> batch[i].id in w.h.accepted && Agrees(batch[i], Keys(w))
  {
    forall i | 0 <= i < |batch| ensures batch[i].id in w.h.accepted && Agrees(batch[i], Keys(w)) {
      var id := batch[i].id;
      assert w.h.accepted[id] == Sent(w.q.rows[id].owner, w.q.rows[id].doc);
    }
  }

  lemma MarkingKeepsThePromise(q: Queue, core: map<string, Activity>, key: map<RequestId, string>,
                               delivered: set<Activity>, req: Queued, answer: Answer, now: Time)
    requires Promise(q, core, key, delivered)
    requires ActivityOf(answer).Some? ==>
               req.id in key && key[req.id] in core && core[key[req.id]] == ActivityOf(answer).value
    requires forall other :: IsWaiting(q, other) && other in key && req.id in key && key[other] == key[req.id] ==>
               other == req.id
    ensures Promise(Mark(q, req, answer, now), core, key, delivered)
  {
    match OutcomeOf(answer) {
      case Landing => LandingKeepsThePromise(q, core, key, delivered, req.id, ActivityOf(answer), now);
      case Stall(fault, terminal) =>
        StallingKeepsThePromise(q, core, key, delivered, req, fault, terminal, ReasonOf(answer), now);
    }
  }

  lemma AMoveEndsLives(q: Queue, ticks: map<TickId, Tick>, t: TickId, now: Time, q': Queue, ticks': map<TickId, Tick>,
                       key: map<RequestId, string>)
    requires OneLiveEach(q, ticks, key) && t in ticks && ticks[t].Answered? && ticks[t].next < |ticks[t].batch|
    requires q' == Mark(q, ticks[t].batch[ticks[t].next], ticks[t].answer, now)
    requires t in ticks' && ticks' == ticks[t := ticks'[t]]
    requires ticks'[t].Taking? && ticks'[t].batch == ticks[t].batch && ticks'[t].next == ticks[t].next + 1
    ensures OneLiveEach(q', ticks', key)
  {
    assert Holding(ticks[t], ticks[t].batch[ticks[t].next].id);
    forall id | Live(q', ticks', id) ensures Live(q, ticks, id) {
      HoldingOn(ticks, ticks', id);
    }
    LivesEndOneByOne(q, ticks, q', ticks', key);
  }

  // A tick further on holds no more.
  lemma HoldingOn(ticks: map<TickId, Tick>, ticks': map<TickId, Tick>, id: RequestId)
    requires forall t :: t in ticks' && !ticks'[t].Deleting? ==>
               t in ticks && !ticks[t].Deleting? && ticks'[t].batch == ticks[t].batch && ticks'[t].next >= ticks[t].next
    ensures HeldByATick(ticks', id) ==> HeldByATick(ticks, id)
  {
    if HeldByATick(ticks', id) {
      var t :| t in ticks' && Holding(ticks'[t], id);
      assert Holding(ticks[t], id);
    }
  }

  // A tick that goes on to its next request knows what it knew.
  lemma AMovedTickKnows(ticks: map<TickId, Tick>, t: TickId, known: set<RequestId>, core: map<string, Activity>,
                        key: map<RequestId, string>, landed: nat, stalled: seq<Class>)
    requires TicksKnow(ticks, known, core, key) && t in ticks && ticks[t].Answered?
    ensures TicksKnow(ticks[t := Taking(ticks[t].batch, ticks[t].next + 1, landed, stalled)], known, core, key)
  {
    assert TickKnows(ticks[t], known, core, key);
  }

  lemma WhatAMoveMoves(w: World, act: Action)
    requires act.MoveRow? && Enabled(w, act)
    requires forall id :: id in w.h.accepted ==> w.h.accepted[id].owner in w.q.edges
    ensures var w', tick := Step(w, act), w.ticks[act.t];
            && w'.q == Mark(w.q, tick.batch[tick.next], tick.answer, w.now) && w'.core == w.core && w'.h == w.h
            && Keys(w') == Keys(w) && act.t in w'.ticks
            && w'.ticks
               == w.ticks[act.t := Taking(tick.batch, tick.next + 1, w'.ticks[act.t].landed, w'.ticks[act.t].stalled)]
  {
    var tick := w.ticks[act.t];
    MarkKeepsTheBooks(w.q, tick.batch[tick.next], tick.answer, w.now);
    KeysAreUnchanged(w, Step(w, act));
  }

  lemma WhatAnAnswerNames(tick: Tick, known: set<RequestId>, core: map<string, Activity>, key: map<RequestId, string>)
    requires TickKnows(tick, known, core, key) && tick.Answered? && tick.next < |tick.batch|
    ensures ActivityOf(tick.answer).Some? ==>
              var id := tick.batch[tick.next].id;
              id in key && key[id] in core && core[key[id]] == ActivityOf(tick.answer).value
  {
  }

  lemma MovingLeavesOneLive(w: World, act: Action)
    requires Accounted(w) && OneLiveEach(w.q, w.ticks, Keys(w)) && act.MoveRow? && Enabled(w, act)
    ensures OneLiveEach(Step(w, act).q, Step(w, act).ticks, Keys(Step(w, act)))
  {
    var w' := Step(w, act);
    WhatAMoveMoves(w, act);
    var q', ticks' := w'.q, w'.ticks;
    assert ticks'[act.t].next == w.ticks[act.t].next + 1;
    AMoveEndsLives(w.q, w.ticks, act.t, w.now, q', ticks', Keys(w));
  }

  lemma TheNextIsHeld(ticks: map<TickId, Tick>, t: TickId)
    requires t in ticks && ticks[t].Answered? && ticks[t].next < |ticks[t].batch|
    ensures HeldByATick(ticks, ticks[t].batch[ticks[t].next].id)
  {
    assert Holding(ticks[t], ticks[t].batch[ticks[t].next].id);
  }

  lemma MovingLeavesThePromise(w: World, act: Action)
    requires Accounted(w) && OneLiveEach(w.q, w.ticks, Keys(w)) && Promise(w.q, w.core, Keys(w), w.h.delivered)
    requires act.MoveRow? && Enabled(w, act)
    requires TickKnows(w.ticks[act.t], w.h.accepted.Keys, w.core, Keys(w))
    ensures Promise(Step(w, act).q, Step(w, act).core, Keys(Step(w, act)), Step(w, act).h.delivered)
  {
    var tick := w.ticks[act.t];
    WhatAMoveMoves(w, act);
    TheNextIsHeld(w.ticks, act.t);
    WhatAnAnswerNames(tick, w.h.accepted.Keys, w.core, Keys(w));
    OnlyOneWaits(w.q, w.ticks, Keys(w), tick.batch[tick.next].id);
    MarkingKeepsThePromise(w.q, w.core, Keys(w), w.h.delivered, tick.batch[tick.next], tick.answer, w.now);
  }

  lemma MovingLeavesTheTicksKnowing(w: World, act: Action)
    requires Accounted(w) && TicksKnow(w.ticks, w.h.accepted.Keys, w.core, Keys(w)) && act.MoveRow? && Enabled(w, act)
    ensures TicksKnow(Step(w, act).ticks, Step(w, act).h.accepted.Keys, Step(w, act).core, Keys(Step(w, act)))
  {
    var w' := Step(w, act);
    WhatAMoveMoves(w, act);
    AMovedTickKnows(w.ticks, act.t, w.h.accepted.Keys, w.core, Keys(w), w'.ticks[act.t].landed,
                    w'.ticks[act.t].stalled);
  }

  lemma MovingKeepsTheRun(w: World, act: Action)
    requires Kept(w) && act.MoveRow? && Enabled(w, act)
    ensures Kept(Step(w, act))
  {
    StepIsAccounted(w, act);
    MovingLeavesOneLive(w, act);
    MovingLeavesThePromise(w, act);
    MovingLeavesTheTicksKnowing(w, act);
  }

  lemma AnAnswerIsKnown(ticks: map<TickId, Tick>, t: TickId, known: set<RequestId>, core: map<string, Activity>,
                        key: map<RequestId, string>, answer: Answer)
    requires TicksKnow(ticks, known, core, key)
    requires t in ticks && ticks[t].Taking? && ticks[t].next < |ticks[t].batch|
    requires var id := ticks[t].batch[ticks[t].next].id;
             ActivityOf(answer).Some? ==> id in key && key[id] in core && core[key[id]] == ActivityOf(answer).value
    ensures var tick := ticks[t];
            TicksKnow(ticks[t := Answered(tick.batch, tick.next, tick.landed, tick.stalled, answer)], known, core, key)
  {
  }

  lemma IngestingKeepsTheRunParts(q: Queue, core: map<string, Activity>, key: map<RequestId, string>, h: History,
                                  ticks: map<TickId, Tick>, t: TickId, answer: Answer, committed: Option<Activity>)
    requires Promise(q, core, key, h.delivered) && TicksKnow(ticks, h.accepted.Keys, core, key)
    requires key.Keys <= h.accepted.Keys
    requires t in ticks && ticks[t].Taking? && ticks[t].next < |ticks[t].batch|
    requires var req := ticks[t].batch[ticks[t].next];
             CoreAllows(core, h.delivered, NaturalKeyOf(req), answer, committed)
    ensures var tick := ticks[t];
            var req := tick.batch[tick.next];
            var core' := Committing(core, NaturalKeyOf(req), committed);
            && Promise(q, core', key, h.delivered)
            && TicksKnow(ticks[t := Answered(tick.batch, tick.next, tick.landed, tick.stalled, IngestOne(req, answer))],
                         h.accepted.Keys, core', key)
  {
    var req := ticks[t].batch[ticks[t].next];
    assert Agrees(req, key);
    var k := NaturalKeyOf(req);
    var core' := Committing(core, k, committed);
    if committed.Some? {
      IngestingKeepsThePromise(q, core, key, h.delivered, req.id, committed.value);
    }
    TicksKnowStillMore(ticks, h.accepted.Keys, core, key, h.accepted.Keys, core', key);
    AnAnswerIsKnown(ticks, t, h.accepted.Keys, core', key, IngestOne(req, answer));
  }

  lemma IngestingLeavesOneLive(w: World, act: Action)
    requires OneLiveEach(w.q, w.ticks, Keys(w)) && act.Ingest? && Enabled(w, act)
    ensures OneLiveEach(w.q, Step(w, act).ticks, Keys(w))
  {
    forall id ensures HeldByATick(Step(w, act).ticks, id) ==> HeldByATick(w.ticks, id) {
      HoldingOn(w.ticks, Step(w, act).ticks, id);
    }
    LivesEndOneByOne(w.q, w.ticks, w.q, Step(w, act).ticks, Keys(w));
  }

  lemma IngestingKeepsTheRun(w: World, act: Action)
    requires Kept(w) && act.Ingest? && Enabled(w, act)
    ensures Kept(Step(w, act))
  {
    StepIsAccounted(w, act);
    IngestingKeepsTheRunParts(w.q, w.core, Keys(w), w.h, w.ticks, act.t, act.core, act.committed);
    IngestingLeavesOneLive(w, act);
  }

  lemma DeliveringLeavesOneLive(w: World, act: Action)
    requires Accounted(w) && OneLiveEach(w.q, w.ticks, Keys(w)) && act.Archive? && Enabled(w, act)
    ensures Keys(Step(w, act)) == Keys(w)
    ensures OneLiveEach(Step(w, act).q, Step(w, act).ticks, Keys(w))
  {
    DeliverKeepsTheBooks(w.q, act.a, act.order, act.cause, act.event, w.now);
    KeysAreUnchanged(w, Step(w, act));
    ADeliveryEndsLives(w.q, w.ticks, act.a, act.order, act.cause, act.event, w.now, Keys(w));
  }

  lemma ADeliveryEndsLives(q: Queue, ticks: map<TickId, Tick>, a: Activity, order: seq<RequestId>, cause: string,
                           event: string, now: Time, key: map<RequestId, string>)
    requires OneLiveEach(q, ticks, key) && Enumerates(order, Claiming(q, a))
    ensures OneLiveEach(Deliver(q, a, order, cause, event, now), ticks, key)
  {
    var q' := Deliver(q, a, order, cause, event, now);
    forall id | Live(q', ticks, id) ensures Live(q, ticks, id) {
    }
    LivesEndOneByOne(q, ticks, q', ticks, key);
  }

  lemma DeliveringKeepsTheRun(w: World, act: Action)
    requires Kept(w) && act.Archive? && Enabled(w, act)
    ensures Kept(Step(w, act))
  {
    StepIsAccounted(w, act);
    DeliveringLeavesOneLive(w, act);
    NoneWaits(w.q, w.ticks, w.core, Keys(w));
    DeliveringKeepsThePromise(w.q, w.core, Keys(w), w.h.delivered, act.a, act.order, act.cause, act.event, w.now);
  }

  lemma SweepingKeepsTheRun(w: World, act: Action)
    requires Kept(w) && act.SweepTables? && Enabled(w, act) && SparesNeededMarkers(w, act)
    ensures Kept(Step(w, act))
  {
    var w' := Step(w, act);
    StepIsAccounted(w, act);
    KeysAreUnchanged(w, w');
    forall id ensures HeldByATick(w'.ticks, id) ==> HeldByATick(w.ticks, id) {
      HoldingOn(w.ticks, w'.ticks, id);
    }
    LivesEndOneByOne(w.q, w.ticks, w'.q, w'.ticks, Keys(w));
    SweepingKeepsThePromise(w.q, w.core, Keys(w), w.h.delivered, w.now);
  }

  lemma StepKeepsTheRun(w: World, act: Action)
    requires Kept(w) && Enabled(w, act) && OneClaimant(w, act)
    ensures Kept(Step(w, act))
  {
    match act {
      case InsertRow(_, _, _, _, _, _) => InsertingKeepsTheRun(w, act);
      case MoveRow(_) => MovingKeepsTheRun(w, act);
      case Ingest(_, _, _) => IngestingKeepsTheRun(w, act);
      case Archive(_, _, _, _) => DeliveringKeepsTheRun(w, act);
      case SweepTables(_) => SweepingKeepsTheRun(w, act);
      case StartTick(_, _) => StartingATickKeepsTheRun(w, act);
      case Open(_, _) => EditingAnEdgeKeepsTheRun(w, act);
      case SetEnabled(_, _) => EditingAnEdgeKeepsTheRun(w, act);
      case _ =>
        StepIsAccounted(w, act);
        QuietActionsDropTicks(w, act);
        DroppingTicksKeepsTheRun(w, Step(w, act));
    }
  }

  lemma StartingLeavesOneLive(w: World, act: Action)
    requires OneLiveEach(w.q, w.ticks, Keys(w)) && act.StartTick? && Enabled(w, act)
    ensures OneLiveEach(w.q, Step(w, act).ticks, Keys(w))
  {
    var ticks := Step(w, act).ticks;
    forall id | Live(w.q, ticks, id) ensures Live(w.q, w.ticks, id) {
      if HeldByATick(ticks, id) {
        var t :| t in ticks && Holding(ticks[t], id);
        assert t != act.t ==> Holding(w.ticks[t], id);
      }
    }
    LivesEndOneByOne(w.q, w.ticks, w.q, ticks, Keys(w));
  }

  lemma StartingLeavesTheTicksKnowing(w: World, act: Action)
    requires Accounted(w) && TicksKnow(w.ticks, w.h.accepted.Keys, w.core, Keys(w)) && act.StartTick? && Enabled(w, act)
    ensures TicksKnow(Step(w, act).ticks, w.h.accepted.Keys, w.core, Keys(w))
  {
    ReadingABatchKnowsIt(w, act.batch);
  }

  lemma StartingATickKeepsTheRun(w: World, act: Action)
    requires Kept(w) && act.StartTick? && Enabled(w, act)
    ensures Kept(Step(w, act))
  {
    StepIsAccounted(w, act);
    assert Keys(Step(w, act)) == Keys(w);
    StartingLeavesOneLive(w, act);
    StartingLeavesTheTicksKnowing(w, act);
  }

  lemma AnEditMovesNoRow(w: World, act: Action)
    requires Accounted(w) && (act.Open? || act.SetEnabled?) && Enabled(w, act)
    ensures var w' := Step(w, act);
            && w' == w.(q := w.q.(edges := w'.q.edges)) && Keys(w') == Keys(w)
  {
    KeysAreUnchanged(w, Step(w, act));
  }

  lemma EditingAnEdgeKeepsTheRun(w: World, act: Action)
    requires Kept(w) && (act.Open? || act.SetEnabled?) && Enabled(w, act)
    ensures Kept(Step(w, act))
  {
    StepIsAccounted(w, act);
    AnEditMovesNoRow(w, act);
    LivesEndOneByOne(w.q, w.ticks, Step(w, act).q, w.ticks, Keys(w));
  }

  lemma DroppingTicksKeepsTheRun(w: World, w': World)
    requires Kept(w) && Accounted(w') && w'.q == w.q && w'.h == w.h && w'.core == w.core
    requires forall t :: t in w'.ticks ==> w'.ticks[t].Deleting? || (t in w.ticks && w'.ticks[t] == w.ticks[t])
    ensures Kept(w')
  {
    forall id ensures HeldByATick(w'.ticks, id) ==> HeldByATick(w.ticks, id) {
      HoldingOn(w.ticks, w'.ticks, id);
    }
    LivesEndOneByOne(w.q, w.ticks, w'.q, w'.ticks, Keys(w));
  }

  lemma QuietActionsDropTicks(w: World, act: Action)
    requires IsQuiet(act) && !act.Ingest? && !act.StartTick? && Enabled(w, act)
    ensures var w' := Step(w, act);
            && w'.q == w.q && w'.h == w.h && w'.core == w.core
            && forall t :: t in w'.ticks ==> w'.ticks[t].Deleting? || (t in w.ticks && w'.ticks[t] == w.ticks[t])
  {
  }

  lemma {:induction false} RunIsKept(w: World, run: seq<Action>)
    requires Kept(w) && ValidRun(w, run) && Throughout(w, run, OneClaimant)
    ensures Kept(After(w, run))
    decreases |run|
  {
    if run != [] {
      StepKeepsTheRun(w, run[0]);
      RunIsKept(Step(w, run[0]), run[1..]);
    }
  }

  // In every interleaving of arrivals, overlapping ticks, crashes, archives
  // and redeliveries where each message is posted afresh, if need be again and
  // again, and no needed marker expired, no row ever claims an entry whose
  // archive was delivered.
  lemma NoRunContradictsAnArchive(run: seq<Action>)
    requires ValidRun(EMPTY, run) && Throughout(EMPTY, run, OneClaimant)
    ensures Honest(After(EMPTY, run).q, After(EMPTY, run).h.delivered)
  {
    RunIsKept(EMPTY, run);
  }

  lemma NobodyInNoOrder(order: seq<RequestId>, ids: set<RequestId>)
    requires Enumerates(order, ids)
    ensures ids == {} ==> order == []
  {
    if order != [] {
      assert order[0] in ids;
    }
  }

  // Delivering an archive again moves no row and records nothing; it leaves a
  // marker, though, where the first delivery had matched and left none.
  lemma ARedeliveryMovesNothing(w: World, act: Action)
    requires Honest(w.q, w.h.delivered) && act.Archive? && Enabled(w, act) && act.a in w.h.delivered
    ensures Step(w, act).q.rows == w.q.rows && Step(w, act).q.trail == w.q.trail
    ensures Step(w, act).q.markers == if act.a in w.q.markers then w.q.markers else w.q.markers[act.a := w.now]
  {
    NobodyInNoOrder(act.order, Claiming(w.q, act.a));
  }
}
