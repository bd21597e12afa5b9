// The inbound half's tables and what each of its transactions does to them:
// admission (extensions/openchannel/inbound.go), the drain's reads and row
// moves (drain.go), the archive subscription (withdraw.go), the retention
// sweep (retention.go) and the two queue entries of the audit trail
// (ledger.go).
//
// Each function here is one rt.Tx body as a step from tables to tables. The
// class InboundStore in InboundStore.dfy performs them in place; the modules
// about interleavings reason over the functions.
module Inbound {
  import opened Basics
  import opened Records
  import opened DrainFailure

  // A row of the endpoint table is named by its owner: the schema admits one
  // endpoint per member per edge, and the unit declares one edge.
  type Member = nat
  type RequestId = nat
  type Activity = nat

  datatype RowState = Waiting | Landed | Parked | Withdrawn

  datatype Request = Request(
    owner: Member,
    nonce: string,
    doc: Option<Arrival>,
    sentAt: Time,
    state: RowState,
    attempts: nat,
    fault: Option<Class>,
    activity: Option<Activity>,
    receivedAt: Time,
    updatedAt: Time)

  // The columns of an endpoint row that the inbound half reads or moves.
  datatype Edge = Edge(ref: string, enabled: bool, received: nat)

  datatype Entry =
    | RequestParked(id: RequestId, fault: Class, attempts: nat, reason: string)
    | RequestWithdrawn(id: RequestId, cause: string, activity: Activity, event: string)

  datatype Queue = Queue(
    edges: map<Member, Edge>,
    rows: map<RequestId, Request>,
    markers: map<Activity, Time>,
    trail: seq<Entry>)

  // What the drain holds of one request between its read and its row move.
  datatype Queued = Queued(
    id: RequestId, owner: Member, ref: string, doc: Option<Arrival>, sentAt: Time, attempts: nat)

  datatype Admission = Accepted | OverCapacity | Unauthenticated | Transient

  const MAX_PENDING_INBOUND := 1000
  const DRAIN_BATCH := 100
  const MAX_DRAIN_ATTEMPTS := 5
  const DAY := 86400
  const HOUR := 3600
  const RETAIN_DECIDED := 30 * DAY
  const EXPIRE_UNCLAIMED_ARCHIVE := 1 * HOUR

  // The schema's own constraints: unique refs, the endpoint foreign key, and
  // one row per (endpoint, nonce).
  ghost predicate Schema(q: Queue) {
    && (forall m, n :: m in q.edges && n in q.edges && q.edges[m].ref == q.edges[n].ref ==> m == n)
    && (forall id :: id in q.rows ==> q.rows[id].owner in q.edges)
    && (forall a, b :: a in q.rows && b in q.rows && SameKey(q.rows[a], q.rows[b]) ==> a == b)
  }

  predicate SameKey(a: Request, b: Request) {
    a.owner == b.owner && a.nonce == b.nonce
  }

  /* ----- admission ----- */

  predicate IsWaiting(q: Queue, id: RequestId) {
    id in q.rows && q.rows[id].state == Waiting
  }

  function WaitingFor(q: Queue, m: Member): set<RequestId> {
    set id | id in q.rows && q.rows[id].owner == m && q.rows[id].state == Waiting
  }

  predicate NonceTaken(q: Queue, m: Member, nonce: string) {
    exists id :: id in q.rows && q.rows[id].owner == m && q.rows[id].nonce == nonce
  }

  // The insert and the counter that counts it, once the queue check passed.
  function Insert(q: Queue, m: Member, id: RequestId, nonce: string, doc: Option<Arrival>, sentAt: Time, now: Time)
    : (r: (Queue, Admission))
    requires m in q.edges && id !in q.rows
  {
    if NonceTaken(q, m, nonce) then (q, Unauthenticated)
    else
      var row := Request(m, nonce, doc, sentAt, Waiting, 0, None, None, now, now);
      (q.(rows := q.rows[id := row],
          edges := q.edges[m := q.edges[m].(received := q.edges[m].received + 1)]),
       Accepted)
  }

  function Enqueue(q: Queue, m: Member, id: RequestId, nonce: string, doc: Option<Arrival>, sentAt: Time, now: Time)
    : (Queue, Admission)
    requires m in q.edges && id !in q.rows
  {
    if |WaitingFor(q, m)| >= MAX_PENDING_INBOUND then (q, OverCapacity)
    else Insert(q, m, id, nonce, doc, sentAt, now)
  }

  // The cap is asked first, then the nonce.
  lemma WhenAnArrivalIsRefused(q: Queue, m: Member, id: RequestId, nonce: string, doc: Option<Arrival>, sentAt: Time,
                               now: Time)
    requires m in q.edges && id !in q.rows
    ensures var waiting := set r | r in q.rows && q.rows[r].owner == m && q.rows[r].state == Waiting;
            var taken := exists r :: r in q.rows && (q.rows[r].owner, q.rows[r].nonce) == (m, nonce);
            Enqueue(q, m, id, nonce, doc, sentAt, now).1
            == if |waiting| >= 1000 then OverCapacity else if taken then Unauthenticated else Accepted
  {
    assert WaitingFor(q, m) == set r | r in q.rows && q.rows[r].owner == m && q.rows[r].state == Waiting;
  }

  /* ----- the batch ----- */

  predicate Before(q: Queue, a: RequestId, b: RequestId)
    requires a in q.rows && b in q.rows
  {
    q.rows[a].receivedAt < q.rows[b].receivedAt || (q.rows[a].receivedAt == q.rows[b].receivedAt && a < b)
  }

  function WaitingRows(q: Queue): set<RequestId> {
    set id | id in q.rows && q.rows[id].state == Waiting
  }

  // The waiting requests ahead of one, in the drain's order.
  function Ahead(q: Queue, id: RequestId): set<RequestId>
    requires id in q.rows
  {
    set other | other in q.rows && q.rows[other].state == Waiting && Before(q, other, id)
  }

  function AsQueued(q: Queue, id: RequestId): Queued
    requires id in q.rows && q.rows[id].owner in q.edges
  {
    var row := q.rows[id];
    Queued(id, row.owner, q.edges[row.owner].ref, row.doc, row.sentAt, row.attempts)
  }

  function Ids(batch: seq<Queued>): set<RequestId> {
    set i | 0 <= i < |batch| :: batch[i].id
  }

  lemma IdsOfAppended(batch: seq<Queued>, req: Queued)
    ensures Ids(batch + [req]) == Ids(batch) + {req.id}
  {
    var longer := batch + [req];
    forall id ensures id in Ids(longer) <==> id in Ids(batch) + {req.id} {
      if id in Ids(batch) {
        var i :| 0 <= i < |batch| && batch[i].id == id;
        assert longer[i].id == id;
      }
      assert longer[|batch|] == req;
    }
  }

  // ORDER BY received_at, id LIMIT 100, over every endpoint: the waiting rows
  // with fewer than a hundred ahead of them, oldest first.
  ghost predicate IsBatch(q: Queue, batch: seq<Queued>) {
    && (forall i :: 0 <= i < |batch| ==>
          IsWaiting(q, batch[i].id) && q.rows[batch[i].id].owner in q.edges
          && batch[i] == AsQueued(q, batch[i].id))
    && (forall i, j :: 0 <= i < j < |batch| ==> Before(q, batch[i].id, batch[j].id))
    && (forall id :: id in WaitingRows(q) && id !in Ids(batch) ==>
          |batch| == DRAIN_BATCH && forall i :: 0 <= i < |batch| ==> Before(q, batch[i].id, id))
    && |batch| <= DRAIN_BATCH
  }

  // A batch half read: what was taken, oldest first, and what is left.
  ghost predicate Taken(q: Queue, found: seq<Queued>, unread: set<RequestId>) {
    && unread <= WaitingRows(q)
    && (forall i :: 0 <= i < |found| ==>
          IsWaiting(q, found[i].id) && q.rows[found[i].id].owner in q.edges
          && found[i] == AsQueued(q, found[i].id))
    && (forall i, j :: 0 <= i < j < |found| ==> Before(q, found[i].id, found[j].id))
    && (forall id, i :: id in unread && 0 <= i < |found| ==> Before(q, found[i].id, id))
    && (forall id :: id in WaitingRows(q) ==> id in unread || id in Ids(found))
  }

  lemma OneMoreTaken(q: Queue, found: seq<Queued>, unread: set<RequestId>, first: RequestId)
    requires Schema(q) && Taken(q, found, unread) && first in unread
    requires forall id :: id in unread && id != first ==> Before(q, first, id)
    ensures Taken(q, found + [AsQueued(q, first)], unread - {first})
  {
    IdsOfAppended(found, AsQueued(q, first));
  }

  // A batch read until nothing is left, or until it is full, is the oldest.
  lemma TheOldestWereTaken(q: Queue, found: seq<Queued>, unread: set<RequestId>)
    requires Taken(q, found, unread) && (unread == {} || |found| == 100)
    ensures forall id :: id in q.rows && q.rows[id].state == Waiting ==>
              (exists i :: 0 <= i < |found| && found[i].id == id)
              || (|found| == 100 && forall i :: 0 <= i < |found| ==> Before(q, found[i].id, id))
  {
    forall id | id in q.rows && q.rows[id].state == Waiting
      ensures (exists i :: 0 <= i < |found| && found[i].id == id)
              || (|found| == 100 && forall i :: 0 <= i < |found| ==> Before(q, found[i].id, id))
    {
      assert id in WaitingRows(q);
    }
  }

  /* ----- the core's answer ----- */

  datatype Disposition =
    | Kept(activity: Activity)
    | Skipped
    | Unrepresentable(reason: string)
    | Unrecognised(reason: string)

  datatype Answer = Disposed(disposition: Disposition) | Refused(cause: Cause)

  function NaturalKeyOf(req: Queued): Option<string> {
    KeyFor(req.ref, req.doc)
  }

  // ingestOne: a body this unit cannot build a record from never reaches the
  // core.
  function IngestOne(req: Queued, core: Answer): Answer {
    if NaturalKeyOf(req).Some? then core else Refused({Payload})
  }

  function OutcomeOf(answer: Answer): Outcome {
    match answer
    case Disposed(Kept(_)) => Landing
    case Disposed(Skipped) => Landing
    case Disposed(_) => Stall(RefusedByTheCore, true)
    case Refused(cause) => var (fault, terminal) := Classify(cause); Stall(fault, terminal)
  }

  function ReasonOf(answer: Answer): string {
    match answer
    case Disposed(Unrepresentable(reason)) => reason
    case Disposed(Unrecognised(reason)) => reason
    case _ => ""
  }

  function ActivityOf(answer: Answer): Option<Activity> {
    match answer
    case Disposed(Kept(a)) => Some(a)
    case _ => None
  }

  /* ----- the row moves ----- */

  // One statement: consume the marker, and land the row withdrawn if there
  // was one. The marker goes whether or not the row still waits.
  function MarkLanded(q: Queue, id: RequestId, activity: Option<Activity>, now: Time): Queue {
    var consumed := activity.Some? && activity.value in q.markers;
    var markers := if consumed then q.markers - {activity.value} else q.markers;
    if IsWaiting(q, id) then
      var row := q.rows[id].(state := if consumed then Withdrawn else Landed, activity := activity,
                             attempts := q.rows[id].attempts + 1, fault := None, updatedAt := now);
      q.(rows := q.rows[id := row], markers := markers)
    else q.(markers := markers)
  }

  predicate IsOutage(fault: Class, terminal: bool) {
    fault == CaptureUnavailable && !terminal
  }

  predicate Parks(attempts: nat, fault: Class, terminal: bool) {
    terminal || (!IsOutage(fault, terminal) && attempts + 1 >= MAX_DRAIN_ATTEMPTS)
  }

  // The park decision reads the attempts the batch was read with; the row's
  // own counter is what the statement adds to. The entry is written whenever
  // the decision is to park, whether or not the row still waited.
  function MarkStalled(q: Queue, req: Queued, fault: Class, terminal: bool, reason: string, now: Time): Queue {
    var parks := Parks(req.attempts, fault, terminal);
    var spend := if IsOutage(fault, terminal) then 0 else 1;
    var rows :=
      if IsWaiting(q, req.id) then
        q.rows[req.id := q.rows[req.id].(state := if parks then Parked else Waiting,
                                         attempts := q.rows[req.id].attempts + spend,
                                         fault := Some(fault), updatedAt := now)]
      else q.rows;
    var trail := if parks then q.trail + [RequestParked(req.id, fault, req.attempts + 1, reason)] else q.trail;
    q.(rows := rows, trail := trail)
  }

  function Mark(q: Queue, req: Queued, answer: Answer, now: Time): Queue {
    match OutcomeOf(answer)
    case Landing => MarkLanded(q, req.id, ActivityOf(answer), now)
    case Stall(fault, terminal) => MarkStalled(q, req, fault, terminal, ReasonOf(answer), now)
  }

  /* ----- one batch with nobody else running ----- */

  // What the core answers one request, when its row is then moved, and
  // whether storage took that write.
  datatype Turn = Turn(core: Answer, now: Time, stored: bool)

  function AnswerTo(req: Queued, turns: Queued -> Turn): Answer {
    IngestOne(req, turns(req).core)
  }

  function AfterLanding(q: Queue, batch: seq<Queued>, turns: Queued -> Turn): Queue {
    if batch == [] then q
    else
      var last := batch[|batch| - 1];
      Mark(AfterLanding(q, batch[..|batch| - 1], turns), last, AnswerTo(last, turns), turns(last).now)
  }

  function Outcomes(batch: seq<Queued>, turns: Queued -> Turn): seq<Outcome> {
    seq(|batch|, i requires 0 <= i < |batch| => OutcomeOf(AnswerTo(batch[i], turns)))
  }

  lemma {:induction false} OneMoreOutcome(batch: seq<Queued>, turns: Queued -> Turn, i: nat)
    requires i < |batch|
    ensures Outcomes(batch[..i + 1], turns) == Outcomes(batch[..i], turns) + [OutcomeOf(AnswerTo(batch[i], turns))]
    ensures LandedCount(Outcomes(batch[..i + 1], turns))
         == LandedCount(Outcomes(batch[..i], turns)) + (if OutcomeOf(AnswerTo(batch[i], turns)).Landing? then 1 else 0)
    ensures Stalled(Outcomes(batch[..i + 1], turns))
         == Stalled(Outcomes(batch[..i], turns)) + StalledOnly(OutcomeOf(AnswerTo(batch[i], turns)))
  {
    var longer, shorter := Outcomes(batch[..i + 1], turns), Outcomes(batch[..i], turns);
    assert longer == shorter + [OutcomeOf(AnswerTo(batch[i], turns))];
    assert longer[..|longer| - 1] == shorter;
  }

  lemma {:induction false} OneMoreMove(q: Queue, batch: seq<Queued>, turns: Queued -> Turn, i: nat)
    requires i < |batch|
    ensures AfterLanding(q, batch[..i + 1], turns)
         == Mark(AfterLanding(q, batch[..i], turns), batch[i], AnswerTo(batch[i], turns), turns(batch[i]).now)
  {
    assert batch[..i + 1][..i] == batch[..i];
  }

  // How much of the batch is reached before a row write is refused.
  function Reached(batch: seq<Queued>, turns: Queued -> Turn): (n: nat)
    ensures n <= |batch|
    ensures forall i :: 0 <= i < n ==> turns(batch[i]).stored
    ensures n < |batch| ==> !turns(batch[n]).stored
  {
    if batch == [] then 0
    else if !turns(batch[0]).stored then 0
    else 1 + Reached(batch[1..], turns)
  }

  /* ----- the archive subscription ----- */

  // The rows whose landed claim an archive of this activity takes off.
  function Claiming(q: Queue, a: Activity): set<RequestId> {
    set id | id in q.rows && q.rows[id].state == Landed && q.rows[id].activity == Some(a)
  }

  predicate Enumerates(order: seq<RequestId>, ids: set<RequestId>) {
    && (forall i :: 0 <= i < |order| ==> order[i] in ids)
    && (forall id :: id in ids ==> id in order)
    && (forall i, j :: 0 <= i < j < |order| ==> order[i] != order[j])
  }

  function TakeClaims(q: Queue, a: Activity, now: Time): map<RequestId, Request> {
    map id | id in q.rows ::
      if id in Claiming(q, a) then q.rows[id].(state := Withdrawn, updatedAt := now) else q.rows[id]
  }

  function WithdrawnEntries(order: seq<RequestId>, cause: string, a: Activity, event: string): seq<Entry> {
    seq(|order|, i requires 0 <= i < |order| => RequestWithdrawn(order[i], cause, a, event))
  }

  lemma OneMoreWithdrawn(order: seq<RequestId>, id: RequestId, cause: string, a: Activity, event: string)
    ensures WithdrawnEntries(order + [id], cause, a, event)
         == WithdrawnEntries(order, cause, a, event) + [RequestWithdrawn(id, cause, a, event)]
  {
  }

  lemma OneMoreEntry(trail: seq<Entry>, more: seq<Entry>, e: Entry)
    ensures trail + (more + [e]) == trail + more + [e]
  {
  }

  // One delivery, in the order the update happened to return its rows.
  function Deliver(q: Queue, a: Activity, order: seq<RequestId>, cause: string, event: string, now: Time): Queue
    requires Enumerates(order, Claiming(q, a))
  {
    if order == [] then
      if a in q.markers then q else q.(markers := q.markers[a := now])
    else
      q.(rows := TakeClaims(q, a, now), trail := q.trail + WithdrawnEntries(order, cause, a, event))
  }

  // Whatever a delivery finds, in the tables' own columns: a row that landed
  // as this entry is withdrawn, dated and recorded, once each; a marker is
  // held only where no row had, dated by the first notice; all else stays.
  lemma WhatADeliveryLeaves(q: Queue, a: Activity, order: seq<RequestId>, cause: string, event: string, now: Time)
    requires Enumerates(order, Claiming(q, a))
    ensures var q' := Deliver(q, a, order, cause, event, now);
            && q'.edges == q.edges && q'.rows.Keys == q.rows.Keys
            && (forall id :: id in q.rows ==>
                  q'.rows[id] == if q.rows[id].state == Landed && q.rows[id].activity == Some(a)
                                 then q.rows[id].(state := Withdrawn, updatedAt := now) else q.rows[id])
            && (forall id :: id in order <==>
                  id in q.rows && q.rows[id].state == Landed && q.rows[id].activity == Some(a))
            && |q'.trail| == |q.trail| + |order| && q'.trail[..|q.trail|] == q.trail
            && (forall i :: 0 <= i < |order| ==> q'.trail[|q.trail| + i] == RequestWithdrawn(order[i], cause, a, event))
            && q'.markers == if order == [] && a !in q.markers then q.markers[a := now] else q.markers
  {
    assert order != [] ==> order[0] in Claiming(q, a);
    forall id | id in q.rows ensures id in order <==> q.rows[id].state == Landed && q.rows[id].activity == Some(a) {
      assert id in Claiming(q, a) <==> id in order;
    }
  }

  // A body without a message id, or that no document was read from, stalls as
  // its own fault without the core being asked; any other is the core's to
  // answer.
  lemma OnlyAReadableRequestIsTheCores(req: Queued, core: Answer)
    ensures req.doc.Some? && TrimSpace(req.doc.value.messageId) != "" ==> IngestOne(req, core) == core
    ensures req.doc == None || TrimSpace(req.doc.value.messageId) == "" ==>
              OutcomeOf(IngestOne(req, core)) == Stall(PayloadUnusable, true)
  {
  }

  /* ----- retention ----- */

  predicate PastRetention(row: Request, now: Time) {
    row.state != Waiting && row.updatedAt < now - RETAIN_DECIDED
  }

  predicate MarkerExpired(noticedAt: Time, now: Time) {
    noticedAt < now - EXPIRE_UNCLAIMED_ARCHIVE
  }

  function Expired(q: Queue, now: Time): set<RequestId> {
    set id | id in q.rows && PastRetention(q.rows[id], now)
  }

  function Sweep(q: Queue, now: Time): Queue {
    q.(rows := q.rows - Expired(q, now),
       markers := map a | a in q.markers && !MarkerExpired(q.markers[a], now) :: q.markers[a])
  }

  // A whole tick from its batch on: the moves up to the first row write that
  // storage refuses, then the verdict, then the sweep of a tick that is done,
  // which storage may refuse too.
  function Drained(q: Queue, batch: seq<Queued>, turns: Queued -> Turn, live: bool, now: Time, swept: bool)
    : (Queue, Verdict)
  {
    var moved := AfterLanding(q, batch[..Reached(batch, turns)], turns);
    var verdict := TickVerdict(live, Outcomes(batch, turns));
    if Reached(batch, turns) < |batch| then (moved, Failed(DrainFailed))
    else if verdict != Done then (moved, verdict)
    else if !swept then (moved, Failed(DrainFailed))
    else (Sweep(moved, now), Done)
  }

  /* ----- every transaction keeps the schema ----- */

  lemma InsertKeepsTheSchema(q: Queue, m: Member, id: RequestId, nonce: string, doc: Option<Arrival>, sentAt: Time,
                             now: Time)
    requires Schema(q) && m in q.edges && id !in q.rows
    ensures Schema(Insert(q, m, id, nonce, doc, sentAt, now).0)
  {
  }

  lemma MarkKeepsTheSchema(q: Queue, req: Queued, answer: Answer, now: Time)
    requires Schema(q)
    ensures Schema(Mark(q, req, answer, now))
  {
  }

  lemma DeliverKeepsTheSchema(q: Queue, a: Activity, order: seq<RequestId>, cause: string, event: string, now: Time)
    requires Schema(q) && Enumerates(order, Claiming(q, a))
    ensures Schema(Deliver(q, a, order, cause, event, now))
  {
  }

  lemma SweepKeepsTheSchema(q: Queue, now: Time)
    requires Schema(q)
    ensures Schema(Sweep(q, now))
  {
  }
}
