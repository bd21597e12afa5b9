// The inbound half as a labelled transition system. Each transaction is one
// action; between any two, every other actor may run, and any tick or arrival
// may stop for good. Any number of ticks may overlap unless a claim says
// otherwise.
//
// Histories (what was accepted, swept, delivered, moved) are recorded beside
// the tables. No handler reads them: they constrain only what the outside may
// do, which is mint an id twice or archive an entry before it exists.
module QueueMachine {
  import opened Basics
  import opened Records
  import opened DrainFailure
  import opened Inbound

  type Token = nat
  type TickId = nat

  // An arrival between its transactions: resolved to an endpoint, then past
  // the queue check.
  datatype Arriving = Resolved(owner: Member) | Counted(owner: Member)

  // A tick between its transactions: about to ingest the next request, about
  // to move the row of the one just answered, or about to sweep.
  datatype Tick =
    | Taking(batch: seq<Queued>, next: nat, landed: nat, stalled: seq<Class>)
    | Answered(batch: seq<Queued>, next: nat, landed: nat, stalled: seq<Class>, answer: Answer)
    | Deleting

  datatype Sent = Sent(owner: Member, doc: Option<Arrival>)
  datatype Swept = Swept(row: Request, at: Time)

  datatype History = History(
    accepted: map<RequestId, Sent>,
    swept: map<RequestId, Swept>,
    delivered: set<Activity>,
    moved: set<RequestId>)

  // core is what the capture pipeline holds: the timeline entry each natural
  // key became.
  datatype World = World(
    q: Queue,
    now: Time,
    arriving: map<Token, Arriving>,
    ticks: map<TickId, Tick>,
    core: map<string, Activity>,
    h: History)

  datatype Action =
    | Wait(seconds: nat)
    | Open(m: Member, ref: string)
    | SetEnabled(m: Member, enabled: bool)
    | Resolve(token: Token, ref: string)
    | Count(token: Token)
    | InsertRow(token: Token, id: RequestId, nonce: string, doc: Option<Arrival>, sentAt: Time, stamp: Time)
    | Abandon(token: Token)
    | StartTick(t: TickId, batch: seq<Queued>)
    | Ingest(t: TickId, core: Answer, committed: Option<Activity>)
    | MoveRow(t: TickId)
    | Report(t: TickId, live: bool)
    | SweepTables(t: TickId)
    | Crash(t: TickId)
    | Archive(a: Activity, order: seq<RequestId>, cause: string, event: string)

  // What the core may do with a record: keep it under its key, always as the
  // same entry and never as another key's, whether or not the answer says so.
  // A new entry is one no archive has named yet.
  predicate CoreAllows(core: map<string, Activity>, delivered: set<Activity>,
                       key: Option<string>, answer: Answer, committed: Option<Activity>)
  {
    && (ActivityOf(answer).Some? && key.Some? ==> committed == ActivityOf(answer))
    && (committed.Some? ==>
          key.Some? && if key.value in core then core[key.value] == committed.value
                       else committed.value !in core.Values && committed.value !in delivered)
  }

  function Committing(core: map<string, Activity>, key: Option<string>, committed: Option<Activity>)
    : map<string, Activity>
  {
    if key.Some? && committed.Some? then core[key.value := committed.value] else core
  }

  ghost predicate Enabled(w: World, a: Action) {
    match a
    case Wait(_) => true
    case Open(m, ref) => m !in w.q.edges && ':' !in ref && forall n :: n in w.q.edges ==> w.q.edges[n].ref != ref
    case SetEnabled(m, _) => m in w.q.edges
    case Resolve(token, _) => token !in w.arriving
    case Count(token) => token in w.arriving && w.arriving[token].Resolved?
    case InsertRow(token, id, _, _, _, stamp) =>
      token in w.arriving && w.arriving[token].Counted? && id !in w.h.accepted && stamp <= w.now
    case Abandon(token) => token in w.arriving
    case StartTick(t, batch) => t !in w.ticks && IsBatch(w.q, batch)
    case Ingest(t, core, committed) =>
      t in w.ticks && w.ticks[t].Taking? && w.ticks[t].next < |w.ticks[t].batch|
      && CoreAllows(w.core, w.h.delivered, NaturalKeyOf(w.ticks[t].batch[w.ticks[t].next]), core, committed)
    case MoveRow(t) => t in w.ticks && w.ticks[t].Answered? && w.ticks[t].next < |w.ticks[t].batch|
    case Report(t, _) => t in w.ticks && w.ticks[t].Taking? && w.ticks[t].next == |w.ticks[t].batch|
    case SweepTables(t) => t in w.ticks && w.ticks[t].Deleting?
    case Crash(t) => t in w.ticks
    case Archive(a, order, _, _) => Enumerates(order, Claiming(w.q, a))
  }

  ghost function Accepting(q: Queue, ref: string): Option<Member> {
    if m :| m in q.edges && q.edges[m].ref == ref && q.edges[m].enabled then Some(m) else None
  }

  ghost function Step(w: World, a: Action): World
    requires Enabled(w, a)
  {
    match a
    case Wait(seconds) => w.(now := w.now + seconds)
    case Open(m, ref) => w.(q := w.q.(edges := w.q.edges[m := Edge(ref, true, 0)]))
    case SetEnabled(m, enabled) => w.(q := w.q.(edges := w.q.edges[m := w.q.edges[m].(enabled := enabled)]))
    case Resolve(token, ref) =>
      var target := Accepting(w.q, ref);
      if target.Some? then w.(arriving := w.arriving[token := Resolved(target.value)]) else w
    case Count(token) =>
      var m := w.arriving[token].owner;
      if |WaitingFor(w.q, m)| >= MAX_PENDING_INBOUND then w.(arriving := w.arriving - {token})
      else w.(arriving := w.arriving[token := Counted(m)])
    case InsertRow(token, id, nonce, doc, sentAt, stamp) =>
      var m := w.arriving[token].owner;
      var arriving := w.arriving - {token};
      if m !in w.q.edges || id in w.q.rows then w.(arriving := arriving)
      else
        var (q, admission) := Insert(w.q, m, id, nonce, doc, sentAt, stamp);
        if admission == Accepted
        then w.(q := q, arriving := arriving, h := w.h.(accepted := w.h.accepted[id := Sent(m, doc)]))
        else w.(arriving := arriving)
    case Abandon(token) => w.(arriving := w.arriving - {token})
    case StartTick(t, batch) => w.(ticks := w.ticks[t := Taking(batch, 0, 0, [])])
    case Ingest(t, core, committed) =>
      var tick := w.ticks[t];
      var req := tick.batch[tick.next];
      w.(core := Committing(w.core, NaturalKeyOf(req), committed),
         ticks := w.ticks[t := Answered(tick.batch, tick.next, tick.landed, tick.stalled, IngestOne(req, core))])
    case MoveRow(t) =>
      var tick := w.ticks[t];
      var o := OutcomeOf(tick.answer);
      w.(q := Mark(w.q, tick.batch[tick.next], tick.answer, w.now),
         ticks := w.ticks[t := Taking(tick.batch, tick.next + 1,
                                      tick.landed + (if o.Landing? then 1 else 0),
                                      tick.stalled + StalledOnly(o))])
    case Report(t, live) =>
      if Judge(live, w.ticks[t].landed, w.ticks[t].stalled) == Done
      then w.(ticks := w.ticks[t := Deleting])
      else w.(ticks := w.ticks - {t})
    case SweepTables(t) =>
      var gone := Expired(w.q, w.now);
      w.(q := Sweep(w.q, w.now), ticks := w.ticks - {t},
         h := w.h.(swept := w.h.swept + (map id | id in gone :: Swept(w.q.rows[id], w.now))))
    case Crash(t) => w.(ticks := w.ticks - {t})
    case Archive(a, order, cause, event) =>
      w.(q := Deliver(w.q, a, order, cause, event, w.now),
         h := w.h.(delivered := w.h.delivered + {a}, moved := w.h.moved + Claiming(w.q, a)))
  }

  ghost predicate ValidRun(w: World, run: seq<Action>)
    decreases |run|
  {
    run == [] || (Enabled(w, run[0]) && ValidRun(Step(w, run[0]), run[1..]))
  }

  ghost function After(w: World, run: seq<Action>): World
    requires ValidRun(w, run)
    decreases |run|
  {
    if run == [] then w else After(Step(w, run[0]), run[1..])
  }

  // A side condition on every step of a run.
  ghost predicate Throughout(w: World, run: seq<Action>, holds: (World, Action) -> bool)
    requires ValidRun(w, run)
    decreases |run|
  {
    run == [] || (holds(w, run[0]) && Throughout(Step(w, run[0]), run[1..], holds))
  }

  lemma {:induction false} OneMoreStep(w: World, run: seq<Action>, a: Action)
    requires ValidRun(w, run) && Enabled(After(w, run), a)
    ensures ValidRun(w, run + [a]) && After(w, run + [a]) == Step(After(w, run), a)
    decreases |run|
  {
    if run == [] {
      assert [a][1..] == [];
    } else {
      assert (run + [a])[0] == run[0] && (run + [a])[1..] == run[1..] + [a];
      OneMoreStep(Step(w, run[0]), run[1..], a);
    }
  }

  lemma {:induction false} RunInTwo(w: World, first: seq<Action>, second: seq<Action>)
    requires ValidRun(w, first) && ValidRun(After(w, first), second)
    ensures ValidRun(w, first + second) && After(w, first + second) == After(After(w, first), second)
    decreases |first|
  {
    if first == [] {
      assert first + second == second;
    } else {
      assert (first + second)[0] == first[0] && (first + second)[1..] == first[1..] + second;
      RunInTwo(Step(w, first[0]), first[1..], second);
    }
  }

  lemma {:induction false} OneMoreHolds(w: World, run: seq<Action>, a: Action, holds: (World, Action) -> bool)
    requires ValidRun(w, run) && Enabled(After(w, run), a)
    requires Throughout(w, run, holds) && holds(After(w, run), a)
    ensures ValidRun(w, run + [a]) && Throughout(w, run + [a], holds)
    decreases |run|
  {
    OneMoreStep(w, run, a);
    if run == [] {
      assert [a][1..] == [];
    } else {
      assert (run + [a])[0] == run[0] && (run + [a])[1..] == run[1..] + [a];
      OneMoreHolds(Step(w, run[0]), run[1..], a, holds);
    }
  }

  const EMPTY := World(Queue(map[], map[], map[], []), 0, map[], map[], map[], History(map[], map[], {}, {}))

  /* ----- an arrival in one go ----- */

  // A ref resolves to the one enabled endpoint that has it, and to none where
  // there is no such endpoint.
  lemma ARefResolvesToItsEndpoint(q: Queue, ref: string, m: Member)
    requires Schema(q)
    ensures Accepting(q, ref) == Some(m) <==> m in q.edges && q.edges[m].ref == ref && q.edges[m].enabled
    ensures Accepting(q, ref) == None <==> forall n :: n in q.edges && q.edges[n].ref == ref ==> !q.edges[n].enabled
  {
  }

  lemma ACountedArrivalInserts(w: World, token: Token, m: Member, id: RequestId, nonce: string, doc: Option<Arrival>,
                               sentAt: Time, stamp: Time)
    requires token in w.arriving && w.arriving[token] == Counted(m) && m in w.q.edges
    requires id !in w.h.accepted && id !in w.q.rows && stamp <= w.now
    ensures var insert := InsertRow(token, id, nonce, doc, sentAt, stamp);
            Enabled(w, insert) && Step(w, insert).q == Insert(w.q, m, id, nonce, doc, sentAt, stamp).0
  {
  }

  // Resolved, counted and inserted with nobody else moving, an arrival leaves
  // the tables its handler leaves.
  lemma AnArrivalIsARun(w: World, token: Token, ref: string, m: Member, id: RequestId, nonce: string,
                        doc: Option<Arrival>, sentAt: Time, stamp: Time)
    returns (run: seq<Action>)
    requires Schema(w.q) && m in w.q.edges && w.q.edges[m].ref == ref && w.q.edges[m].enabled
    requires token !in w.arriving && id !in w.h.accepted && id !in w.q.rows && stamp <= w.now
    ensures ValidRun(w, run) && After(w, run).q == Enqueue(w.q, m, id, nonce, doc, sentAt, stamp).0
    ensures After(w, run).now == w.now && After(w, run).ticks == w.ticks && After(w, run).core == w.core
  {
    ARefResolvesToItsEndpoint(w.q, ref, m);
    OneMoreStep(w, [], Resolve(token, ref));
    OneMoreStep(w, [] + [Resolve(token, ref)], Count(token));
    run := [] + [Resolve(token, ref)] + [Count(token)];
    if |WaitingFor(w.q, m)| < MAX_PENDING_INBOUND {
      var insert := InsertRow(token, id, nonce, doc, sentAt, stamp);
      ACountedArrivalInserts(After(w, run), token, m, id, nonce, doc, sentAt, stamp);
      OneMoreStep(w, run, insert);
      run := run + [insert];
    }
  }

  /* ----- nothing accepted is lost ----- */

  function OwnedBy(accepted: map<RequestId, Sent>, m: Member): set<RequestId> {
    set id | id in accepted && accepted[id].owner == m
  }

  // The tables against the history: held and swept rows partition what was
  // accepted, each under the name it was accepted with.
  ghost predicate Partition(q: Queue, h: History) {
    && (forall id :: id in h.accepted <==> id in q.rows || id in h.swept)
    && (forall id :: id in q.rows ==> id !in h.swept)
    && (forall id :: id in q.rows ==> Sent(q.rows[id].owner, q.rows[id].doc) == h.accepted[id])
    && (forall id :: id in h.swept ==> Sent(h.swept[id].row.owner, h.swept[id].row.doc) == h.accepted[id])
    && (forall id :: id in h.swept ==> PastRetention(h.swept[id].row, h.swept[id].at))
  }

  ghost predicate CounterAgrees(q: Queue, h: History) {
    && (forall id :: id in h.accepted ==> h.accepted[id].owner in q.edges)
    && (forall m :: m in q.edges ==> q.edges[m].received == |OwnedBy(h.accepted, m)|)
    && (forall m :: m in q.edges ==> ':' !in q.edges[m].ref)
  }

  ghost predicate Accounted(w: World) {
    && Schema(w.q) && Partition(w.q, w.h) && CounterAgrees(w.q, w.h)
    && (forall k :: k in w.arriving ==> w.arriving[k].owner in w.q.edges)
  }

  lemma OnlyInsertingAndOpeningCount(q: Queue, h: History, q': Queue, h': History)
    requires CounterAgrees(q, h) && h'.accepted == h.accepted && q'.edges.Keys == q.edges.Keys
    requires forall m :: m in q.edges ==>
               q'.edges[m].received == q.edges[m].received && q'.edges[m].ref == q.edges[m].ref
    ensures CounterAgrees(q', h')
  {
  }

  lemma OneMoreOwned(accepted: map<RequestId, Sent>, id: RequestId, sent: Sent, m: Member)
    requires id !in accepted
    ensures |OwnedBy(accepted[id := sent], m)| == |OwnedBy(accepted, m)| + if sent.owner == m then 1 else 0
  {
    assert OwnedBy(accepted[id := sent], m) - {id} == OwnedBy(accepted, m);
    SizeWithout(OwnedBy(accepted[id := sent], m), id);
  }

  lemma OneMoreIsCountedOnce(q: Queue, h: History, m: Member, id: RequestId, doc: Option<Arrival>, q': Queue,
                             h': History)
    requires CounterAgrees(q, h) && m in q.edges && id !in h.accepted
    requires q'.edges == q.edges[m := q.edges[m].(received := q.edges[m].received + 1)]
    requires h'.accepted == h.accepted[id := Sent(m, doc)]
    ensures CounterAgrees(q', h')
  {
    forall n | n in q'.edges ensures q'.edges[n].received == |OwnedBy(h'.accepted, n)| {
      OneMoreOwned(h.accepted, id, Sent(m, doc), n);
    }
  }

  lemma AnInsertIsCountedOnce(q: Queue, h: History, m: Member, id: RequestId, nonce: string, doc: Option<Arrival>,
                              sentAt: Time, stamp: Time)
    requires CounterAgrees(q, h) && m in q.edges && id !in h.accepted && id !in q.rows
    requires !NonceTaken(q, m, nonce)
    ensures CounterAgrees(Insert(q, m, id, nonce, doc, sentAt, stamp).0, h.(accepted := h.accepted[id := Sent(m, doc)]))
  {
    OneMoreIsCountedOnce(q, h, m, id, doc, Insert(q, m, id, nonce, doc, sentAt, stamp).0,
                         h.(accepted := h.accepted[id := Sent(m, doc)]));
  }

  lemma InsertKeepsThePartition(q: Queue, h: History, m: Member, id: RequestId, nonce: string, doc: Option<Arrival>,
                                sentAt: Time, stamp: Time)
    requires Partition(q, h) && m in q.edges && id !in h.accepted
    requires !NonceTaken(q, m, nonce)
    ensures Partition(Insert(q, m, id, nonce, doc, sentAt, stamp).0, h.(accepted := h.accepted[id := Sent(m, doc)]))
  {
  }

  // What no row move of the drain or of an archive touches.
  ghost predicate SameBooks(q: Queue, q': Queue) {
    && q'.edges == q.edges
    && q'.rows.Keys == q.rows.Keys
    && (forall id :: id in q.rows ==> q'.rows[id].owner == q.rows[id].owner && q'.rows[id].doc == q.rows[id].doc)
  }

  lemma MarkKeepsTheBooks(q: Queue, req: Queued, answer: Answer, now: Time)
    ensures SameBooks(q, Mark(q, req, answer, now))
  {
  }

  lemma DeliverKeepsTheBooks(q: Queue, e: Activity, order: seq<RequestId>, cause: string, event: string, now: Time)
    requires Enumerates(order, Claiming(q, e))
    ensures SameBooks(q, Deliver(q, e, order, cause, event, now))
  {
  }

  lemma TheSameBooksBalance(q: Queue, h: History, q': Queue, h': History)
    requires SameBooks(q, q') && h'.accepted == h.accepted && h'.swept == h.swept
    requires Partition(q, h) && CounterAgrees(q, h)
    ensures Partition(q', h') && CounterAgrees(q', h')
  {
  }

  lemma SweepKeepsThePartition(q: Queue, h: History, now: Time)
    requires Partition(q, h)
    ensures Partition(Sweep(q, now),
                      h.(swept := h.swept + (map id | id in Expired(q, now) :: Swept(q.rows[id], now))))
  {
  }

  lemma InsertIsAccounted(w: World, a: Action)
    requires Accounted(w) && a.InsertRow? && Enabled(w, a)
    ensures Accounted(Step(w, a))
  {
    var m := w.arriving[a.token].owner;
    InsertKeepsTheSchema(w.q, m, a.id, a.nonce, a.doc, a.sentAt, a.stamp);
    if !NonceTaken(w.q, m, a.nonce) {
      InsertKeepsThePartition(w.q, w.h, m, a.id, a.nonce, a.doc, a.sentAt, a.stamp);
      AnInsertIsCountedOnce(w.q, w.h, m, a.id, a.nonce, a.doc, a.sentAt, a.stamp);
      assert Step(w, a).q == Insert(w.q, m, a.id, a.nonce, a.doc, a.sentAt, a.stamp).0;
    }
  }

  lemma OpenIsAccounted(w: World, a: Action)
    requires Accounted(w) && a.Open? && Enabled(w, a)
    ensures Accounted(Step(w, a))
  {
    var w' := Step(w, a);
    assert OwnedBy(w.h.accepted, a.m) == {};
    assert CounterAgrees(w'.q, w'.h);
  }

  lemma PausingIsAccounted(w: World, a: Action)
    requires Accounted(w) && a.SetEnabled? && Enabled(w, a)
    ensures Accounted(Step(w, a))
  {
    var w' := Step(w, a);
    OnlyInsertingAndOpeningCount(w.q, w.h, w'.q, w'.h);
  }

  lemma MoveIsAccounted(w: World, a: Action)
    requires Accounted(w) && a.MoveRow? && Enabled(w, a)
    ensures Accounted(Step(w, a))
  {
    var w', req, answer := Step(w, a), w.ticks[a.t].batch[w.ticks[a.t].next], w.ticks[a.t].answer;
    MarkKeepsTheSchema(w.q, req, answer, w.now);
    MarkKeepsTheBooks(w.q, req, answer, w.now);
    TheSameBooksBalance(w.q, w.h, w'.q, w'.h);
  }

  lemma ArchiveIsAccounted(w: World, a: Action)
    requires Accounted(w) && a.Archive? && Enabled(w, a)
    ensures Accounted(Step(w, a))
  {
    var w' := Step(w, a);
    DeliverKeepsTheSchema(w.q, a.a, a.order, a.cause, a.event, w.now);
    DeliverKeepsTheBooks(w.q, a.a, a.order, a.cause, a.event, w.now);
    TheSameBooksBalance(w.q, w.h, w'.q, w'.h);
  }

  lemma SweepIsAccounted(w: World, a: Action)
    requires Accounted(w) && a.SweepTables? && Enabled(w, a)
    ensures Accounted(Step(w, a))
  {
    var w' := Step(w, a);
    SweepKeepsTheSchema(w.q, w.now);
    SweepKeepsThePartition(w.q, w.h, w.now);
    OnlyInsertingAndOpeningCount(w.q, w.h, w'.q, w'.h);
  }

  // The actions that leave the tables and the history alone.
  predicate IsQuiet(a: Action) {
    a.Wait? || a.Resolve? || a.Count? || a.Abandon? || a.StartTick? || a.Ingest? || a.Report? || a.Crash?
  }

  lemma QuietActionsMoveNoTable(w: World, a: Action)
    requires Enabled(w, a) && IsQuiet(a)
    ensures Step(w, a).q == w.q && Step(w, a).h == w.h && Step(w, a).now >= w.now
    ensures (forall k :: k in w.arriving ==> w.arriving[k].owner in w.q.edges) ==>
              forall k :: k in Step(w, a).arriving ==> Step(w, a).arriving[k].owner in w.q.edges
  {
  }

  lemma StepIsAccounted(w: World, a: Action)
    requires Accounted(w) && Enabled(w, a)
    ensures Accounted(Step(w, a))
  {
    match a {
      case InsertRow(_, _, _, _, _, _) => InsertIsAccounted(w, a);
      case Open(_, _) => OpenIsAccounted(w, a);
      case MoveRow(_) => MoveIsAccounted(w, a);
      case Archive(_, _, _, _) => ArchiveIsAccounted(w, a);
      case SweepTables(_) => SweepIsAccounted(w, a);
      case SetEnabled(_, _) => PausingIsAccounted(w, a);
      case _ => QuietActionsMoveNoTable(w, a);
    }
  }

  lemma {:induction false} RunIsAccounted(w: World, run: seq<Action>)
    requires Accounted(w) && ValidRun(w, run)
    ensures Accounted(After(w, run))
    decreases |run|
  {
    if run != [] {
      StepIsAccounted(w, run[0]);
      RunIsAccounted(Step(w, run[0]), run[1..]);
    }
  }

  // What every later state keeps of an earlier one: no accepted request is
  // forgotten, none is waiting that was not, and a decision is undone by
  // nothing but an archive taking a landed claim off.
  ghost predicate Remembers(h: History, h': History) {
    && h.delivered <= h'.delivered && h.moved <= h'.moved
    && (forall id :: id in h.accepted ==> id in h'.accepted && h'.accepted[id] == h.accepted[id])
    && (forall id :: id in h.swept ==> id in h'.swept && h'.swept[id] == h.swept[id])
  }

  ghost predicate RowFollows(row: Request, row': Request) {
    && row'.receivedAt == row.receivedAt
    && row'.attempts >= row.attempts
    && (row.state != Waiting ==>
          row' == row
          || (row.state == Landed && row' == row.(state := Withdrawn, updatedAt := row'.updatedAt)))
  }

  ghost predicate TablesFollow(q: Queue, known: set<RequestId>, q': Queue) {
    && (forall id :: id in q'.rows && id in known ==> id in q.rows)
    && (forall id :: id in q'.rows && id in q.rows ==> RowFollows(q.rows[id], q'.rows[id]))
    && (forall m :: m in q.edges ==> m in q'.edges && q'.edges[m].received >= q.edges[m].received)
  }

  ghost predicate Follows(w: World, w': World) {
    && w.now <= w'.now
    && Remembers(w.h, w'.h)
    && TablesFollow(w.q, w.h.accepted.Keys, w'.q)
  }

  lemma MovesFollow(q: Queue, known: set<RequestId>, req: Queued, answer: Answer, now: Time)
    requires q.rows.Keys <= known
    ensures TablesFollow(q, known, Mark(q, req, answer, now))
  {
  }

  lemma DeliveriesFollow(q: Queue, known: set<RequestId>, e: Activity, order: seq<RequestId>, cause: string,
                         event: string, now: Time)
    requires Enumerates(order, Claiming(q, e)) && q.rows.Keys <= known
    ensures TablesFollow(q, known, Deliver(q, e, order, cause, event, now))
  {
  }

  lemma InsertsFollow(q: Queue, known: set<RequestId>, m: Member, id: RequestId, nonce: string, doc: Option<Arrival>,
                      sentAt: Time, stamp: Time)
    requires m in q.edges && id !in known && q.rows.Keys <= known
    ensures TablesFollow(q, known, Insert(q, m, id, nonce, doc, sentAt, stamp).0)
  {
  }

  lemma SweepsFollow(q: Queue, known: set<RequestId>, now: Time)
    ensures TablesFollow(q, known, Sweep(q, now))
  {
  }

  lemma StepFollows(w: World, a: Action)
    requires Partition(w.q, w.h) && Enabled(w, a)
    ensures Follows(w, Step(w, a))
  {
    match a {
      case MoveRow(t) =>
        MovesFollow(w.q, w.h.accepted.Keys, w.ticks[t].batch[w.ticks[t].next], w.ticks[t].answer, w.now);
      case Archive(e, order, cause, event) =>
        DeliveriesFollow(w.q, w.h.accepted.Keys, e, order, cause, event, w.now);
      case InsertRow(token, id, nonce, doc, sentAt, stamp) =>
        if w.arriving[token].owner in w.q.edges {
          InsertsFollow(w.q, w.h.accepted.Keys, w.arriving[token].owner, id, nonce, doc, sentAt, stamp);
        }
      case SweepTables(_) => SweepsFollow(w.q, w.h.accepted.Keys, w.now);
      case Open(_, _) =>
      case SetEnabled(_, _) =>
      case _ => QuietActionsMoveNoTable(w, a);
    }
  }

  lemma FollowsIsTransitive(u: World, v: World, w: World)
    requires Partition(u.q, u.h) && Partition(v.q, v.h)
    requires Follows(u, v) && Follows(v, w)
    ensures Follows(u, w)
  {
    forall id | id in w.q.rows && id in u.q.rows
      ensures RowFollows(u.q.rows[id], w.q.rows[id])
    {
      assert id in u.h.accepted && id in v.h.accepted;
    }
  }

  lemma {:induction false} RunFollows(w: World, run: seq<Action>)
    requires Accounted(w) && ValidRun(w, run)
    ensures Follows(w, After(w, run))
    decreases |run|
  {
    if run != [] {
      var v := Step(w, run[0]);
      StepIsAccounted(w, run[0]);
      StepFollows(w, run[0]);
      RunFollows(v, run[1..]);
      RunIsAccounted(v, run[1..]);
      FollowsIsTransitive(w, v, After(w, run));
    }
  }

  function HeldFor(q: Queue, m: Member): set<RequestId> {
    set id | id in q.rows && q.rows[id].owner == m
  }

  function SweptFor(h: History, m: Member): set<RequestId> {
    set id | id in h.swept && h.swept[id].row.owner == m
  }

  lemma TheCounterIsBothTables(q: Queue, h: History, m: Member)
    requires Partition(q, h) && CounterAgrees(q, h) && m in q.edges
    ensures q.edges[m].received == |HeldFor(q, m)| + |SweptFor(h, m)|
  {
    var all, held, swept := OwnedBy(h.accepted, m), HeldFor(q, m), SweptFor(h, m);
    forall id ensures id in all <==> id in held || id in swept {
      if id in h.swept {
        assert h.accepted[id].owner == h.swept[id].row.owner;
      }
    }
    assert all == held + swept;
    DisjointUnionSize(held, swept);
  }

  /* ----- when a row last changed, by the clock ----- */

  // The state of a row is not what it was.
  ghost predicate Changes(q: Queue, q': Queue, id: RequestId) {
    id in q.rows && id in q'.rows && q'.rows[id].state != q.rows[id].state
  }

  // The time of the last step of a run that changed the state of a row, read
  // off the states before and after each step and off no column of the row.
  ghost function LastChange(w: World, run: seq<Action>, id: RequestId): Option<Time>
    requires ValidRun(w, run)
    decreases |run|
  {
    if run == [] then None
    else
      var later := LastChange(Step(w, run[0]), run[1..], id);
      if later.Some? then later else if Changes(w.q, Step(w, run[0]).q, id) then Some(w.now) else None
  }

  // A change is stamped with the time it was made, a decision that stands
  // keeps its stamp, and a new row waits.
  ghost predicate Stamps(q: Queue, q': Queue, now: Time) {
    && (forall id :: Changes(q, q', id) ==> q'.rows[id].updatedAt == now)
    && (forall id :: id in q.rows && id in q'.rows && !Changes(q, q', id) && q.rows[id].state != Waiting ==>
          q'.rows[id].updatedAt == q.rows[id].updatedAt)
    && (forall id :: id in q'.rows && id !in q.rows ==> q'.rows[id].state == Waiting)
  }

  lemma MovesStamp(q: Queue, req: Queued, answer: Answer, now: Time)
    ensures Stamps(q, Mark(q, req, answer, now), now)
  {
  }

  lemma DeliveriesStamp(q: Queue, e: Activity, order: seq<RequestId>, cause: string, event: string, now: Time)
    requires Enumerates(order, Claiming(q, e))
    ensures Stamps(q, Deliver(q, e, order, cause, event, now), now)
  {
  }

  lemma StepStamps(w: World, a: Action)
    requires Enabled(w, a)
    ensures Stamps(w.q, Step(w, a).q, w.now)
  {
    match a {
      case MoveRow(t) => MovesStamp(w.q, w.ticks[t].batch[w.ticks[t].next], w.ticks[t].answer, w.now);
      case Archive(e, order, cause, event) => DeliveriesStamp(w.q, e, order, cause, event, w.now);
      case InsertRow(_, _, _, _, _, _) =>
      case SweepTables(_) =>
      case Open(_, _) =>
      case SetEnabled(_, _) =>
      case _ => QuietActionsMoveNoTable(w, a);
    }
  }

  lemma {:induction false} NoChangeOnceSwept(w: World, run: seq<Action>, id: RequestId)
    requires Accounted(w) && ValidRun(w, run) && id in w.h.swept
    ensures LastChange(w, run, id) == None
    ensures id in After(w, run).h.swept && After(w, run).h.swept[id] == w.h.swept[id]
    decreases |run|
  {
    if run != [] {
      StepIsAccounted(w, run[0]);
      StepFollows(w, run[0]);
      NoChangeOnceSwept(Step(w, run[0]), run[1..], id);
    }
  }

  // Decided at that time: by a change of the run, or before it.
  ghost predicate DecidedAt(w: World, run: seq<Action>, id: RequestId, at: Time)
    requires ValidRun(w, run)
  {
    match LastChange(w, run, id)
    case Some(changed) => at == changed
    case None => id in w.q.rows && w.q.rows[id].state != Waiting && at == w.q.rows[id].updatedAt
  }

  lemma TheStampIsTheChange(q: Queue, q': Queue, now: Time, id: RequestId)
    requires Stamps(q, q', now) && id in q'.rows && q'.rows[id].state != Waiting
    ensures if Changes(q, q', id) then q'.rows[id].updatedAt == now
            else id in q.rows && q.rows[id].state != Waiting && q'.rows[id].updatedAt == q.rows[id].updatedAt
  {
  }

  lemma OneStepEarlier(w: World, run: seq<Action>, id: RequestId, at: Time)
    requires run != [] && ValidRun(w, run) && DecidedAt(Step(w, run[0]), run[1..], id, at)
    ensures DecidedAt(w, run, id, at)
  {
    StepStamps(w, run[0]);
    if LastChange(Step(w, run[0]), run[1..], id) == None {
      TheStampIsTheChange(w.q, Step(w, run[0]).q, w.now, id);
    }
  }

  lemma {:induction false} ADecidedRowIsStamped(w: World, run: seq<Action>, id: RequestId)
    requires Accounted(w) && ValidRun(w, run)
    requires id in After(w, run).q.rows && After(w, run).q.rows[id].state != Waiting
    ensures DecidedAt(w, run, id, After(w, run).q.rows[id].updatedAt)
    decreases |run|
  {
    if run != [] {
      StepIsAccounted(w, run[0]);
      ADecidedRowIsStamped(Step(w, run[0]), run[1..], id);
      OneStepEarlier(w, run, id, After(w, run).q.rows[id].updatedAt);
    }
  }

  lemma OnlyASweepSweeps(w: World, a: Action)
    requires Enabled(w, a)
    ensures !a.SweepTables? ==> Step(w, a).h.swept == w.h.swept
  {
  }

  lemma WhatASweepTakes(w: World, a: Action, id: RequestId)
    requires Enabled(w, a) && id in Step(w, a).h.swept && id !in w.h.swept
    ensures id in w.q.rows && w.q.rows[id].state != Waiting && Step(w, a).h.swept[id] == Swept(w.q.rows[id], w.now)
    ensures w.now - w.q.rows[id].updatedAt > 30 * 86400
  {
    OnlyASweepSweeps(w, a);
  }

  lemma OnlyASweepTakesARow(w: World, a: Action, id: RequestId)
    requires Enabled(w, a) && id in w.q.rows
    ensures id !in Step(w, a).q.rows <==>
              a.SweepTables? && w.q.rows[id].state != Waiting && w.now - w.q.rows[id].updatedAt > 30 * 86400
  {
    match a {
      case MoveRow(t) => MarkKeepsTheBooks(w.q, w.ticks[t].batch[w.ticks[t].next], w.ticks[t].answer, w.now);
      case Archive(e, order, cause, event) => DeliverKeepsTheBooks(w.q, e, order, cause, event, w.now);
      case InsertRow(_, _, _, _, _, _) =>
      case SweepTables(_) =>
      case Open(_, _) =>
      case SetEnabled(_, _) =>
      case _ => QuietActionsMoveNoTable(w, a);
    }
  }

  ghost predicate SweptInTime(w: World, run: seq<Action>, id: RequestId)
    requires ValidRun(w, run)
  {
    && id in After(w, run).h.swept
    && var swept := After(w, run).h.swept[id];
       DecidedAt(w, run, id, swept.row.updatedAt)
       && swept.row.state != Waiting && swept.at - swept.row.updatedAt > 30 * 86400
  }

  lemma ASweptRowIsGone(w: World, run: seq<Action>, id: RequestId)
    requires Accounted(w) && run != [] && ValidRun(w, run) && id in Step(w, run[0]).h.swept
    ensures LastChange(w, run, id) == None
    ensures id in After(w, run).h.swept && After(w, run).h.swept[id] == Step(w, run[0]).h.swept[id]
  {
    StepIsAccounted(w, run[0]);
    NoChangeOnceSwept(Step(w, run[0]), run[1..], id);
  }

  lemma SweptByTheFirstStep(w: World, run: seq<Action>, id: RequestId)
    requires Accounted(w) && run != [] && ValidRun(w, run) && id !in w.h.swept && id in Step(w, run[0]).h.swept
    ensures SweptInTime(w, run, id)
  {
    ASweptRowIsGone(w, run, id);
    WhatASweepTakes(w, run[0], id);
  }

  lemma {:induction false} ASweptRowWasStamped(w: World, run: seq<Action>, id: RequestId)
    requires Accounted(w) && ValidRun(w, run) && id in After(w, run).h.swept && id !in w.h.swept
    ensures SweptInTime(w, run, id)
    decreases |run|
  {
    if id in Step(w, run[0]).h.swept {
      SweptByTheFirstStep(w, run, id);
    } else {
      StepIsAccounted(w, run[0]);
      ASweptRowWasStamped(Step(w, run[0]), run[1..], id);
      OneStepEarlier(w, run, id, After(w, run).h.swept[id].row.updatedAt);
    }
  }

  // Each accepted request is a held row, or was swept decided, more than
  // thirty days after the last step that changed its state.
  ghost predicate NothingIsLost(run: seq<Action>)
    requires ValidRun(EMPTY, run)
  {
    var w := After(EMPTY, run);
    forall id :: id in w.h.accepted ==>
      if id in w.q.rows then id !in w.h.swept
      else id in w.h.swept && w.h.swept[id].row.state != Waiting && LastChange(EMPTY, run, id).Some?
           && w.h.swept[id].at - LastChange(EMPTY, run, id).value > 30 * 86400
  }

  // At every reachable state: nothing accepted is lost, nothing else is held,
  // each counter is the rows held plus the rows swept, and one row is held
  // per (endpoint, nonce).
  lemma NothingAcceptedIsLost(run: seq<Action>)
    requires ValidRun(EMPTY, run)
    ensures NothingIsLost(run)
    ensures After(EMPTY, run).q.rows.Keys <= After(EMPTY, run).h.accepted.Keys
    ensures forall m :: m in After(EMPTY, run).q.edges ==>
              After(EMPTY, run).q.edges[m].received
              == |HeldFor(After(EMPTY, run).q, m)| + |SweptFor(After(EMPTY, run).h, m)|
    ensures Schema(After(EMPTY, run).q)
  {
    RunIsAccounted(EMPTY, run);
    var w := After(EMPTY, run);
    forall id | id in w.h.swept
      ensures w.h.swept[id].row.state != Waiting && LastChange(EMPTY, run, id).Some?
      ensures w.h.swept[id].at - LastChange(EMPTY, run, id).value > 30 * 86400
    {
      ASweptRowWasStamped(EMPTY, run, id);
    }
    forall m | m in w.q.edges ensures w.q.edges[m].received == |HeldFor(w.q, m)| + |SweptFor(w.h, m)| {
      TheCounterIsBothTables(w.q, w.h, m);
    }
  }

  // A sweep takes exactly the rows whose state last changed more than thirty
  // days before, none of them waiting; and nothing but a sweep takes a row.
  lemma ARowLeavesExactlyWhenItsTimeIsUp(run: seq<Action>, a: Action, id: RequestId)
    requires ValidRun(EMPTY, run) && Enabled(After(EMPTY, run), a) && id in After(EMPTY, run).q.rows
    ensures var w := After(EMPTY, run);
            id !in Step(w, a).q.rows <==>
              && a.SweepTables? && w.q.rows[id].state != Waiting
              && LastChange(EMPTY, run, id).Some? && w.now - LastChange(EMPTY, run, id).value > 30 * 86400
  {
    var w := After(EMPTY, run);
    RunIsAccounted(EMPTY, run);
    OnlyASweepTakesARow(w, a, id);
    if w.q.rows[id].state != Waiting {
      ADecidedRowIsStamped(EMPTY, run, id);
    }
  }

  lemma WhatFollowingMeans(w: World, w': World)
    requires Partition(w.q, w.h) && Partition(w'.q, w'.h) && Follows(w, w')
    ensures forall id :: id in w.h.accepted && !IsWaiting(w.q, id) ==> !IsWaiting(w'.q, id)
    ensures forall id :: id in w.h.accepted && id !in w'.q.rows ==>
              id in w'.h.swept && w'.h.swept[id].row.state != Waiting
  {
  }

  // From any reachable state on: no decided request waits again, and what
  // leaves the table leaves it decided.
  lemma DecisionsStand(before: seq<Action>, run: seq<Action>)
    requires ValidRun(EMPTY, before) && ValidRun(After(EMPTY, before), run)
    ensures forall id :: id in After(EMPTY, before).h.accepted && !IsWaiting(After(EMPTY, before).q, id) ==>
              !IsWaiting(After(After(EMPTY, before), run).q, id)
    ensures forall id :: id in After(EMPTY, before).h.accepted && id !in After(After(EMPTY, before), run).q.rows ==>
              id in After(After(EMPTY, before), run).h.swept
              && After(After(EMPTY, before), run).h.swept[id].row.state != Waiting
  {
    RunIsAccounted(EMPTY, before);
    var w := After(EMPTY, before);
    RunFollows(w, run);
    RunIsAccounted(w, run);
    WhatFollowingMeans(w, After(w, run));
  }
}
