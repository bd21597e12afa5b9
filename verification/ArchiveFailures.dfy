// The runs, each from the empty tables, at the end of which a landed row
// claims an archived entry: two requests of one message, and one request whose
// marker expired while it waited.
module ArchiveFailures {
  import opened Basics
  import opened Records
  import opened DrainFailure
  import opened Inbound
  import opened QueueMachine
  import opened ArchiveRace
  import opened AttemptBudget
  import opened OverlappingTicks

  // Some run ends here, with one tick in flight at a time.
  ghost predicate Reachable(w: World) {
    exists run :: EndsIn(run, w)
  }

  ghost predicate EndsIn(run: seq<Action>, w: World) {
    ValidRun(EMPTY, run) && Throughout(EMPTY, run, OneTick) && After(EMPTY, run) == w
  }

  lemma Onwards(w: World, act: Action)
    requires Reachable(w) && Enabled(w, act) && OneTick(w, act)
    ensures Reachable(Step(w, act))
  {
    var run :| EndsIn(run, w);
    OneMoreStep(EMPTY, run, act);
    OneMoreHolds(EMPTY, run, act, OneTick);
    assert EndsIn(run + [act], Step(w, act));
  }

  function Posted(nonce: string, doc: Arrival): Request {
    Request(0, nonce, Some(doc), 0, Waiting, 0, None, None, 0, 0)
  }

  function OnePosted(): World {
    World(Queue(map[0 := Edge("r", true, 1)], map[0 := Posted("n", MESSAGE)], map[], []),
          0, map[], map[], map[], History(map[0 := Sent(0, Some(MESSAGE))], map[], {}, {}))
  }

  // One member, and two requests at her endpoint.
  function TwoPosted(second: Arrival): World {
    World(Queue(map[0 := Edge("r", true, 2)], map[0 := Posted("n", MESSAGE), 1 := Posted("o", second)], map[], []),
          0, map[], map[], map[],
          History(map[0 := Sent(0, Some(MESSAGE)), 1 := Sent(0, Some(second))], map[], {}, {}))
  }

  // An arrival up to its insert, at the one endpoint there is.
  lemma AnArrivalIsCounted(w: World)
    requires Reachable(w) && w.arriving == map[]
    requires w.q.edges.Keys == {0} && w.q.edges[0].ref == "r" && w.q.edges[0].enabled
    requires |WaitingFor(w.q, 0)| < MAX_PENDING_INBOUND
    ensures Reachable(w.(arriving := map[0 := Counted(0)]))
  {
    assert 0 in w.q.edges;
    assert Accepting(w.q, "r") == Some(0);
    Onwards(w, Resolve(0, "r"));
    var resolved := Step(w, Resolve(0, "r"));
    Onwards(resolved, Count(0));
    assert Step(resolved, Count(0)).arriving == map[0 := Counted(0)];
  }

  lemma AnArrivalIsHeld(w: World, id: RequestId, nonce: string, doc: Arrival, w': World)
    requires Reachable(w.(arriving := map[0 := Counted(0)])) && w.arriving == map[]
    requires 0 in w.q.edges && id !in w.q.rows && id !in w.h.accepted && !NonceTaken(w.q, 0, nonce) && w.now == 0
    requires w' == w.(q := Insert(w.q, 0, id, nonce, Some(doc), 0, 0).0,
                      h := w.h.(accepted := w.h.accepted[id := Sent(0, Some(doc))]))
    ensures Reachable(w')
  {
    var counted := w.(arriving := map[0 := Counted(0)]);
    Onwards(counted, InsertRow(0, id, nonce, Some(doc), 0, 0));
    assert counted.arriving - {0} == map[];
  }

  lemma OneIsPosted()
    ensures Reachable(OnePosted())
  {
    assert EndsIn([], EMPTY);
    Onwards(EMPTY, Open(0, "r"));
    var w := Step(EMPTY, Open(0, "r"));
    assert WaitingFor(w.q, 0) == {};
    AnArrivalIsCounted(w);
    AnArrivalIsHeld(w, 0, "n", MESSAGE, OnePosted());
  }

  lemma TwoArePosted(second: Arrival)
    ensures Reachable(TwoPosted(second))
  {
    OneIsPosted();
    assert WaitingFor(OnePosted().q, 0) == {0};
    AnArrivalIsCounted(OnePosted());
    AnArrivalIsHeld(OnePosted(), 1, "o", second, TwoPosted(second));
  }

  function First(): Queued { Queued(0, 0, "r", Some(MESSAGE), 0, 0) }
  function Second(doc: Arrival): Queued { Queued(1, 0, "r", Some(doc), 0, 0) }
  function Both(second: Arrival): seq<Queued> { [First(), Second(second)] }

  // Two waiting requests, whatever the trail and the markers.
  lemma BothAreRead(q: Queue, second: Arrival)
    requires q.edges == TwoPosted(second).q.edges && q.rows == TwoPosted(second).q.rows
    ensures IsBatch(q, Both(second))
  {
    var batch := Both(second);
    assert batch[0].id in Ids(batch) && batch[1].id in Ids(batch);
  }

  lemma ItHasAKey(doc: Arrival)
    requires doc.messageId == "m" || doc.messageId == "p"
    ensures NaturalKeyOf(Second(doc)).Some?
  {
    assert TrimSpace("m") == "m" && TrimSpace("p") == "p";
  }

  // One message posted twice under two nonces: the archive of its entry finds
  // no row, the first landing takes the marker, the second claims the entry.
  lemma OneMessageTwiceContradicts()
    ensures exists run :: ValidRun(EMPTY, run) && !Honest(After(EMPTY, run).q, After(EMPTY, run).h.delivered)
  {
    TwoArePosted(MESSAGE);
    var w := TwoPosted(MESSAGE);
    var run :| EndsIn(run, w);
    BothAreRead(w.q, MESSAGE);
    ItHasAKey(MESSAGE);
    TwoRequestsOfOneMessageCanContradict(w, 0, First(), Second(MESSAGE), NaturalKeyOf(First()).value, 0);
    var more :| ValidRun(w, more) && !Honest(After(w, more).q, After(w, more).h.delivered);
    RunInTwo(EMPTY, run, more);
  }

  /* ----- a marker that expires ----- */

  const ANOTHER := MESSAGE.(messageId := "p")

  lemma TheTickStarts(w: World, batch: seq<Queued>)
    requires Reachable(w) && w.ticks == map[] && IsBatch(w.q, batch)
    ensures Reachable(w.(ticks := map[0 := Taking(batch, 0, 0, [])]))
  {
    Onwards(w, StartTick(0, batch));
    assert Step(w, StartTick(0, batch)) == w.(ticks := map[0 := Taking(batch, 0, 0, [])]);
  }

  lemma TheTickAsks(w: World, tick: Tick, answer: Answer, committed: Option<Activity>)
    requires Reachable(w) && w.ticks == map[0 := tick] && tick.Taking? && tick.next < |tick.batch|
    requires NaturalKeyOf(tick.batch[tick.next]).Some?
    requires CoreAllows(w.core, w.h.delivered, NaturalKeyOf(tick.batch[tick.next]), answer, committed)
    ensures Reachable(w.(core := Committing(w.core, NaturalKeyOf(tick.batch[tick.next]), committed),
                         ticks := map[0 := Answered(tick.batch, tick.next, tick.landed, tick.stalled, answer)]))
  {
    Onwards(w, Ingest(0, answer, committed));
    assert Step(w, Ingest(0, answer, committed)).ticks
        == map[0 := Answered(tick.batch, tick.next, tick.landed, tick.stalled, answer)];
  }

  lemma TheTickMoves(w: World, tick: Tick, tick': Tick)
    requires Reachable(w) && w.ticks == map[0 := tick] && tick.Answered? && tick.next < |tick.batch|
    requires var o := OutcomeOf(tick.answer);
             tick' == Taking(tick.batch, tick.next + 1, tick.landed + (if o.Landing? then 1 else 0),
                             tick.stalled + StalledOnly(o))
    ensures Reachable(w.(q := Mark(w.q, tick.batch[tick.next], tick.answer, w.now), ticks := map[0 := tick']))
  {
    Onwards(w, MoveRow(0));
    assert Step(w, MoveRow(0)).ticks == map[0 := tick'];
  }

  // The core keeps the first request as entry 0, and its tick stops before the
  // row moves.
  lemma TheCoreKeptIt(k: string)
    requires NaturalKeyOf(First()) == Some(k)
    ensures Reachable(TwoPosted(ANOTHER).(core := map[k := 0]))
  {
    TwoArePosted(ANOTHER);
    var w, batch, answer := TwoPosted(ANOTHER), Both(ANOTHER), Disposed(Disposition.Kept(0));
    BothAreRead(w.q, ANOTHER);
    TheTickStarts(w, batch);
    TheTickAsks(w.(ticks := map[0 := Taking(batch, 0, 0, [])]), Taking(batch, 0, 0, []), answer, Some(0));
    var kept := w.(core := map[k := 0], ticks := map[0 := Answered(batch, 0, 0, [], answer)]);
    assert Committing(w.core, NaturalKeyOf(batch[0]), Some(0)) == map[k := 0];
    Onwards(kept, Crash(0));
    assert kept.ticks - {0} == map[];
  }

  // Its archive was delivered over an hour ago.
  function Archived(k: string): World {
    var w := TwoPosted(ANOTHER);
    w.(q := w.q.(markers := map[0 := 0]), now := 3601, core := map[k := 0], h := w.h.(delivered := {0}))
  }

  lemma ItIsArchived(k: string)
    requires NaturalKeyOf(First()) == Some(k)
    ensures Reachable(Archived(k))
  {
    TheCoreKeptIt(k);
    var w, archive := TwoPosted(ANOTHER).(core := map[k := 0]), Archive(0, [], "", "");
    assert Claiming(w.q, 0) == {};
    Onwards(w, archive);
    assert Step(w, archive) == w.(q := w.q.(markers := map[0 := 0]), h := w.h.(delivered := {0}));
    Onwards(Step(w, archive), Wait(3601));
  }

  const STALLED := Posted("n", MESSAGE).(fault := Some(CaptureUnavailable), updatedAt := 3601)
  const LANDED := Posted("o", ANOTHER).(state := Landed, attempts := 1, updatedAt := 3601)

  // The next tick finds the core out of reach for the first request,
  lemma TheFirstStalls(k: string)
    requires NaturalKeyOf(First()) == Some(k)
    ensures Reachable(Archived(k).(q := Archived(k).q.(rows := map[0 := STALLED, 1 := Posted("o", ANOTHER)]),
                                   ticks := map[0 := Taking(Both(ANOTHER), 1, 0, [CaptureUnavailable])]))
  {
    ItIsArchived(k);
    var w, batch, none: Answer := Archived(k), Both(ANOTHER), Refused({});
    BothAreRead(w.q, ANOTHER);
    TheTickStarts(w, batch);
    TheTickAsks(w.(ticks := map[0 := Taking(batch, 0, 0, [])]), Taking(batch, 0, 0, []), none, None);
    TheTickMoves(w.(ticks := map[0 := Answered(batch, 0, 0, [], none)]), Answered(batch, 0, 0, [], none),
                 Taking(batch, 1, 0, [CaptureUnavailable]));
    assert Mark(w.q, batch[0], none, 3601) == w.q.(rows := map[0 := STALLED, 1 := Posted("o", ANOTHER)]);
  }

  // and lands the second, so that it may sweep.
  lemma TheSecondLands(k: string)
    requires NaturalKeyOf(First()) == Some(k)
    ensures Reachable(Archived(k).(q := Archived(k).q.(rows := map[0 := STALLED, 1 := LANDED]),
                                   ticks := map[0 := Taking(Both(ANOTHER), 2, 1, [CaptureUnavailable])]))
  {
    TheFirstStalls(k);
    ItHasAKey(ANOTHER);
    var w := Archived(k).(q := Archived(k).q.(rows := map[0 := STALLED, 1 := Posted("o", ANOTHER)]));
    var batch, skipped := Both(ANOTHER), Disposed(Skipped);
    var taking := Taking(batch, 1, 0, [CaptureUnavailable]);
    var answered := Answered(batch, 1, 0, [CaptureUnavailable], skipped);
    TheTickAsks(w.(ticks := map[0 := taking]), taking, skipped, None);
    TheTickMoves(w.(ticks := map[0 := answered]), answered, Taking(batch, 2, 1, [CaptureUnavailable]));
    assert Mark(w.q, batch[1], skipped, 3601) == w.q.(rows := map[0 := STALLED, 1 := LANDED]);
  }

  lemma OnlyTheMarkerGoes(q: Queue)
    requires q.rows == map[0 := STALLED, 1 := LANDED] && q.markers == map[0 := 0]
    ensures Expired(q, 3601) == {} && Sweep(q, 3601) == q.(markers := map[])
  {
  }

  // The sweep takes the expired marker and nothing else.
  lemma TheMarkerIsSwept(k: string)
    requires NaturalKeyOf(First()) == Some(k)
    ensures Reachable(Archived(k).(q := Archived(k).q.(rows := map[0 := STALLED, 1 := LANDED], markers := map[])))
  {
    TheSecondLands(k);
    var w := Archived(k).(q := Archived(k).q.(rows := map[0 := STALLED, 1 := LANDED]));
    var done := w.(ticks := map[0 := Taking(Both(ANOTHER), 2, 1, [CaptureUnavailable])]);
    Onwards(done, Report(0, true));
    assert Step(done, Report(0, true)) == w.(ticks := map[0 := Deleting]);
    Onwards(w.(ticks := map[0 := Deleting]), SweepTables(0));
    OnlyTheMarkerGoes(w.q);
    assert w.(ticks := map[0 := Deleting]).ticks - {0} == map[];
  }

  lemma TheFirstIsReadAlone(q: Queue)
    requires q.edges == TwoPosted(ANOTHER).q.edges && q.rows == map[0 := STALLED, 1 := LANDED]
    ensures IsBatch(q, [First()])
  {
    assert [First()][0].id in Ids([First()]);
  }

  // One tick at a time: the request whose marker was swept lands, and claims
  // the entry archived before.
  lemma AnExpiredMarkerContradicts()
    ensures exists run :: ValidRun(EMPTY, run) && Throughout(EMPTY, run, OneTick)
                          && !Honest(After(EMPTY, run).q, After(EMPTY, run).h.delivered)
  {
    ItHasAKey(MESSAGE);
    var k, batch, answer := NaturalKeyOf(First()).value, [First()], Disposed(Disposition.Kept(0));
    TheMarkerIsSwept(k);
    var w := Archived(k).(q := Archived(k).q.(rows := map[0 := STALLED, 1 := LANDED], markers := map[]));
    TheFirstIsReadAlone(w.q);
    TheTickStarts(w, batch);
    TheTickAsks(w.(ticks := map[0 := Taking(batch, 0, 0, [])]), Taking(batch, 0, 0, []), answer, Some(0));
    assert Committing(w.core, Some(k), Some(0)) == w.core;
    TheTickMoves(w.(ticks := map[0 := Answered(batch, 0, 0, [], answer)]), Answered(batch, 0, 0, [], answer),
                 Taking(batch, 1, 1, []));
    var q := Mark(w.q, First(), answer, 3601);
    assert q.rows[0].state == Landed && q.rows[0].activity == Some(0);
    var run :| EndsIn(run, w.(q := q, ticks := map[0 := Taking(batch, 1, 1, [])]));
  }
}
