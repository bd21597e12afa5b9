// The inbound tables as the code moves them: one method per handler, each
// transaction performed in place and tied to its function in Inbound.dfy.
//
// Clocks, minted ids, the core's answers and whether storage took a write are
// parameters: they are what these handlers do not decide.
module InboundStores {
  import opened Basics
  import opened Records
  import opened DrainFailure
  import opened Inbound

  class InboundStore {
    var edges: map<Member, Edge>
    var rows: map<RequestId, Request>
    var markers: map<Activity, Time>
    var trail: seq<Entry>

    function Tables(): Queue
      reads this
    {
      Queue(edges, rows, markers, trail)
    }

    constructor ()
      ensures Tables() == Queue(map[], map[], map[], [])
      ensures Schema(Tables())
    {
      edges, rows, markers, trail := map[], map[], map[], [];
    }

    // The member whose endpoint is currently taking requests on this ref. A
    // paused endpoint answers nothing, exactly as a ref nobody minted does.
    method AcceptingEndpoint(ref: string) returns (target: Option<Member>)
      requires Schema(Tables())
      ensures target == None <==> !exists m :: m in edges && edges[m].ref == ref && edges[m].enabled
      ensures forall m :: target == Some(m) <==> m in edges && edges[m].ref == ref && edges[m].enabled
    {
      var unread := edges.Keys;
      while unread != {}
        invariant unread <= edges.Keys
        invariant forall m :: m in edges && m !in unread ==> edges[m].ref != ref
        decreases unread
      {
        var m :| m in unread;
        if edges[m].ref == ref {
          return if edges[m].enabled then Some(m) else None;
        }
        unread := unread - {m};
      }
      return None;
    }

    // signed says whether the presented signature holds against the owner's
    // secret, or against the stand-in for a ref nobody answers on; lookedUp
    // and stored are what storage did with the two reads and the enqueuing.
    method Receive(ref: string, signed: bool, lookedUp: bool, stored: bool, id: RequestId, nonce: string,
                   doc: Option<Arrival>, sentAt: Time, now: Time)
      returns (answer: Admission)
      requires Schema(Tables()) && id !in rows
      modifies this
      ensures Schema(Tables())
      ensures forall m :: lookedUp && stored && signed
                          && m in old(edges) && old(edges)[m].ref == ref && old(edges)[m].enabled ==>
                (Tables(), answer) == Inbound.Enqueue(old(Tables()), m, id, nonce, doc, sentAt, now)
      ensures lookedUp
              && (!signed || !exists m :: m in old(edges) && old(edges)[m].ref == ref && old(edges)[m].enabled) ==>
                Tables() == old(Tables()) && answer == Unauthenticated
      ensures answer == Transient <==>
                !lookedUp
                || (!stored && signed
                    && exists m :: m in old(edges) && old(edges)[m].ref == ref && old(edges)[m].enabled)
      ensures answer == Transient ==> Tables() == old(Tables())
    {
      if !lookedUp {
        return Transient;
      }
      var target := AcceptingEndpoint(ref);
      if target == None || !signed {
        return Unauthenticated;
      }
      assert target == Some(target.value);
      if !stored {
        return Transient;
      }
      answer := Enqueue(target.value, id, nonce, doc, sentAt, now);
    }

    method Enqueue(m: Member, id: RequestId, nonce: string, doc: Option<Arrival>, sentAt: Time, now: Time)
      returns (outcome: Admission)
      requires Schema(Tables()) && m in edges && id !in rows
      modifies this
      ensures Schema(Tables())
      ensures (Tables(), outcome) == Inbound.Enqueue(old(Tables()), m, id, nonce, doc, sentAt, now)
      // A refusal writes nothing; an acceptance one waiting row as it came, and
      // one count.
      ensures outcome != Accepted ==> Tables() == old(Tables())
      ensures outcome == Accepted ==>
                && rows == old(rows)[id := Request(m, nonce, doc, sentAt, Waiting, 0, None, None, now, now)]
                && edges == old(edges)[m := old(edges)[m].(received := old(edges)[m].received + 1)]
                && (markers, trail) == (old(markers), old(trail))
    {
      outcome := Accepted;
      InsertKeepsTheSchema(Tables(), m, id, nonce, doc, sentAt, now);
      var pending := |WaitingFor(Tables(), m)|;
      if pending >= MAX_PENDING_INBOUND {
        outcome := OverCapacity;
        return;
      }
      if NonceTaken(Tables(), m, nonce) {
        outcome := Unauthenticated;
        return;
      }
      rows := rows[id := Request(m, nonce, doc, sentAt, Waiting, 0, None, None, now, now)];
      edges := edges[m := edges[m].(received := edges[m].received + 1)];
    }

    method Oldest(ids: set<RequestId>) returns (first: RequestId)
      requires ids <= rows.Keys && ids != {}
      ensures first in ids
      ensures forall id :: id in ids && id != first ==> Before(Tables(), first, id)
    {
      first :| first in ids;
      var unread := ids - {first};
      while unread != {}
        invariant unread <= ids && first in ids && first !in unread
        invariant forall id :: id in ids && id !in unread && id != first ==> Before(Tables(), first, id)
        decreases unread
      {
        var id :| id in unread;
        if Before(Tables(), id, first) {
          first := id;
        }
        unread := unread - {id};
      }
    }

    method PendingRequests() returns (found: seq<Queued>)
      requires Schema(Tables())
      ensures IsBatch(Tables(), found)
      ensures forall i :: 0 <= i < |found| ==>
                var id := found[i].id;
                && id in rows && rows[id].state == Waiting
                && found[i] == Queued(id, rows[id].owner, edges[rows[id].owner].ref, rows[id].doc, rows[id].sentAt,
                                      rows[id].attempts)
      ensures forall i, j :: 0 <= i < j < |found| ==>
                rows[found[i].id].receivedAt < rows[found[j].id].receivedAt
                || (rows[found[i].id].receivedAt == rows[found[j].id].receivedAt && found[i].id < found[j].id)
      ensures forall id :: id in rows && rows[id].state == Waiting ==>
                (exists i :: 0 <= i < |found| && found[i].id == id)
                || (|found| == 100
                    && forall i :: 0 <= i < |found| ==>
                         rows[found[i].id].receivedAt < rows[id].receivedAt
                         || (rows[found[i].id].receivedAt == rows[id].receivedAt && found[i].id < id))
    {
      found := [];
      var unread := WaitingRows(Tables());
      while unread != {} && |found| < DRAIN_BATCH
        invariant Taken(Tables(), found, unread) && |found| <= DRAIN_BATCH
        decreases unread
      {
        var first := Oldest(unread);
        OneMoreTaken(Tables(), found, unread, first);
        found := found + [AsQueued(Tables(), first)];
        unread := unread - {first};
      }
      TheOldestWereTaken(Tables(), found, unread);
    }

    method MarkLanded(req: Queued, activity: Option<Activity>, now: Time)
      modifies this`rows, this`markers
      ensures Tables() == Inbound.MarkLanded(old(Tables()), req.id, activity, now)
      // The marker goes in any case; only a row that waits is moved, and it is
      // dated by the move.
      ensures markers == if activity.Some? then old(markers) - {activity.value} else old(markers)
      ensures rows == if req.id !in old(rows) || old(rows)[req.id].state != Waiting then old(rows)
                      else old(rows)[req.id := old(rows)[req.id].(
                                       state := if activity.Some? && activity.value in old(markers) then Withdrawn
                                                else Landed,
                                       activity := activity, attempts := old(rows)[req.id].attempts + 1,
                                       fault := None, updatedAt := now)]
    {
      var consumed := false;
      if activity.Some? && activity.value in markers {
        markers := markers - {activity.value};
        consumed := true;
      }
      assert activity.Some? && !consumed ==> markers - {activity.value} == markers;
      if req.id in rows && rows[req.id].state == Waiting {
        rows := rows[req.id := rows[req.id].(state := if consumed then Withdrawn else Landed, activity := activity,
                                             attempts := rows[req.id].attempts + 1, fault := None, updatedAt := now)];
      }
    }

    method MarkStalled(req: Queued, fault: Class, terminal: bool, reason: string, now: Time)
      modifies this`rows, this`trail
      ensures Tables() == Inbound.MarkStalled(old(Tables()), req, fault, terminal, reason, now)
      // The outage spends nothing and parks nothing; a terminal class parks,
      // and so does the fifth attempt. The row is dated by the move, parked or
      // not, and a parking is recorded.
      ensures var outage := fault == CaptureUnavailable && !terminal;
              var parks := terminal || (!outage && req.attempts >= 4);
              && rows == (if req.id !in old(rows) || old(rows)[req.id].state != Waiting then old(rows)
                          else old(rows)[req.id := old(rows)[req.id].(
                                           state := if parks then Parked else Waiting,
                                           attempts := old(rows)[req.id].attempts + if outage then 0 else 1,
                                           fault := Some(fault), updatedAt := now)])
              && trail == old(trail) + if parks then [RequestParked(req.id, fault, req.attempts + 1, reason)] else []
    {
      var shared := fault == CaptureUnavailable && !terminal;
      var state := Waiting;
      if terminal || (!shared && req.attempts + 1 >= MAX_DRAIN_ATTEMPTS) {
        state := Parked;
      }
      var spend := 1;
      if shared {
        spend := 0;
      }
      if req.id in rows && rows[req.id].state == Waiting {
        rows := rows[req.id := rows[req.id].(state := state, attempts := rows[req.id].attempts + spend,
                                             fault := Some(fault), updatedAt := now)];
      }
      if state != Parked {
        return;
      }
      trail := trail + [RequestParked(req.id, fault, req.attempts + 1, reason)];
    }

    // The row move one answer calls for, by the accepting dispositions first:
    // an answer nobody named is a refusal.
    method MoveRow(req: Queued, answer: Answer, now: Time) returns (outcome: Outcome)
      requires Schema(Tables())
      modifies this`rows, this`markers, this`trail
      ensures Schema(Tables())
      ensures Tables() == Mark(old(Tables()), req, answer, now)
      ensures outcome == OutcomeOf(answer)
      ensures outcome == Landing <==> answer.Disposed? && (answer.disposition.Kept? || answer.disposition.Skipped?)
      ensures answer.Disposed? && outcome != Landing ==> outcome == Stall(RefusedByTheCore, true)
      ensures answer.Refused? ==> outcome == Stall(Classify(answer.cause).0, Classify(answer.cause).1)
      // A landed row names the entry the core kept, or none, and a parking
      // the reason the core gave, or none.
      ensures outcome == Landing && req.id in old(rows) && old(rows)[req.id].state == Waiting ==>
                rows[req.id].activity == if answer.disposition.Kept? then Some(answer.disposition.activity) else None
      ensures outcome != Landing && trail != old(trail) ==>
                && |trail| == |old(trail)| + 1 && trail[|old(trail)|].RequestParked?
                && (answer.Refused? ==> trail[|old(trail)|].reason == "")
                && (answer.Disposed? ==> trail[|old(trail)|].reason == answer.disposition.reason)
    {
      MarkKeepsTheSchema(Tables(), req, answer, now);
      outcome := OutcomeOf(answer);
      match outcome {
        case Landing => MarkLanded(req, ActivityOf(answer), now);
        case Stall(fault, terminal) => MarkStalled(req, fault, terminal, ReasonOf(answer), now);
      }
    }

    // One batch, one request at a time. One request's failure does not stop
    // the others; a row write that storage refuses stops the tick where it is.
    method LandAll(batch: seq<Queued>, turns: Queued -> Turn, live: bool) returns (verdict: Verdict)
      requires Schema(Tables())
      modifies this
      ensures Schema(Tables())
      ensures Tables() == AfterLanding(old(Tables()), batch[..Reached(batch, turns)], turns)
      ensures verdict == if Reached(batch, turns) < |batch| then Failed(DrainFailed)
                         else TickVerdict(live, Outcomes(batch, turns))
    {
      var stalled: seq<Class> := [];
      var landed := 0;
      for i := 0 to |batch|
        invariant Schema(Tables())
        invariant i <= Reached(batch, turns)
        invariant Tables() == AfterLanding(old(Tables()), batch[..i], turns)
        invariant landed == LandedCount(Outcomes(batch[..i], turns))
        invariant stalled == DrainFailure.Stalled(Outcomes(batch[..i], turns))
      {
        if !turns(batch[i]).stored {
          return Failed(DrainFailed);
        }
        OneMoreOutcome(batch, turns, i);
        OneMoreMove(old(Tables()), batch, turns, i);
        var outcome := MoveRow(batch[i], IngestOne(batch[i], turns(batch[i]).core), turns(batch[i]).now);
        landed, stalled := Tallied(landed, stalled, outcome);
      }
      assert batch[..|batch|] == batch;
      if landed == 0 && stalled != [] {
        return StallFailure(live, stalled);
      }
      return Done;
    }

    // Only what is decided goes, and only once its decision is thirty days
    // old; a marker goes after an hour. stored says whether storage took it.
    method SweepDecided(now: Time, stored: bool) returns (verdict: Verdict)
      modifies this`rows, this`markers
      ensures verdict == if stored then Done else Failed(DrainFailed)
      ensures !stored ==> Tables() == old(Tables())
      ensures stored ==> forall id :: id in rows <==>
                id in old(rows)
                && (old(rows)[id].state == Waiting || now - old(rows)[id].updatedAt <= 30 * 86400)
      ensures stored ==> forall a :: a in markers <==>
                a in old(markers) && now - old(markers)[a] <= 60 * 60
      ensures forall id :: id in rows ==> rows[id] == old(rows)[id]
      ensures forall a :: a in markers ==> markers[a] == old(markers)[a]
      ensures stored ==> Tables() == Inbound.Sweep(old(Tables()), now)
    {
      if !stored {
        return Failed(DrainFailed);
      }
      rows := rows - Expired(Tables(), now);
      markers := map a | a in markers && !MarkerExpired(markers[a], now) :: markers[a];
      return Done;
    }

    // The workspace tick. A tick that failed or postponed itself is not also
    // one that deleted things. read and swept are what storage did with the
    // batch read and the sweep.
    method Drain(read: bool, turns: Queued -> Turn, live: bool, now: Time, swept: bool)
      returns (verdict: Verdict, ghost batch: seq<Queued>)
      requires Schema(Tables())
      modifies this
      ensures !read ==> Tables() == old(Tables()) && verdict == Failed(DrainFailed)
      ensures read ==>
                IsBatch(old(Tables()), batch)
                && (Tables(), verdict) == Drained(old(Tables()), batch, turns, live, now, swept)
      // A sweep is the last thing of a tick that is done, and of no other.
      ensures read ==>
                (verdict == Done <==>
                   Reached(batch, turns) == |batch| && TickVerdict(live, Outcomes(batch, turns)) == Done && swept)
      ensures read && verdict != Done ==>
                Tables() == AfterLanding(old(Tables()), batch[..Reached(batch, turns)], turns)
      ensures read && verdict == Done ==> Tables() == Sweep(AfterLanding(old(Tables()), batch, turns), now)
    {
      batch := [];
      if !read {
        return Failed(DrainFailed), batch;
      }
      var pending := PendingRequests();
      batch := pending;
      verdict := LandAll(pending, turns, live);
      if verdict != Done {
        return;
      }
      assert pending[..|pending|] == pending;
      verdict := SweepDecided(now, swept);
    }

    method WithdrawFor(a: Activity, now: Time) returns (withdrawn: seq<RequestId>)
      modifies this`rows
      ensures Enumerates(withdrawn, Claiming(old(Tables()), a))
      ensures rows == TakeClaims(old(Tables()), a, now)
      ensures forall id :: id in withdrawn <==>
                id in old(rows) && old(rows)[id].state == Landed && old(rows)[id].activity == Some(a)
      ensures rows.Keys == old(rows).Keys
      ensures forall id :: id in rows ==>
                rows[id] == if id in withdrawn then old(rows)[id].(state := Withdrawn, updatedAt := now)
                            else old(rows)[id]
    {
      withdrawn := [];
      ghost var before := Tables();
      var unread := Claiming(Tables(), a);
      while unread != {}
        invariant unread <= Claiming(before, a)
        invariant Enumerates(withdrawn, Claiming(before, a) - unread)
        invariant rows.Keys == before.rows.Keys
        invariant forall id :: id in rows ==>
                    rows[id] == if id in Claiming(before, a) - unread
                                then before.rows[id].(state := Withdrawn, updatedAt := now) else before.rows[id]
        decreases unread
      {
        var id :| id in unread;
        rows := rows[id := rows[id].(state := Withdrawn, updatedAt := now)];
        withdrawn := withdrawn + [id];
        unread := unread - {id};
      }
    }

    // ours says whether the delivery names an activity by a canonical id;
    // anything else is acknowledged and touches nothing.
    method WithdrawCaptured(ours: bool, a: Activity, cause: string, event: string, now: Time)
      returns (ghost order: seq<RequestId>)
      requires Schema(Tables())
      modifies this
      ensures Schema(Tables())
      ensures Enumerates(order, Claiming(old(Tables()), a))
      ensures Tables() == if ours then Inbound.Deliver(old(Tables()), a, order, cause, event, now) else old(Tables())
    {
      if !ours {
        order := AnyOrder(Claiming(Tables(), a));
        return;
      }
      ghost var before := Tables();
      var withdrawn := WithdrawFor(a, now);
      order := withdrawn;
      DeliverKeepsTheSchema(before, a, order, cause, event, now);
      if |withdrawn| == 0 {
        assert Claiming(before, a) == {};
        assert rows == before.rows;
        if a !in markers {
          markers := markers[a := now];
        }
        return;
      }
      RecordWithdrawn(withdrawn, cause, a, event);
    }

    method RecordWithdrawn(withdrawn: seq<RequestId>, cause: string, a: Activity, event: string)
      modifies this`trail
      ensures trail == old(trail) + WithdrawnEntries(withdrawn, cause, a, event)
    {
      for i := 0 to |withdrawn|
        invariant trail == old(trail) + WithdrawnEntries(withdrawn[..i], cause, a, event)
      {
        assert withdrawn[..i + 1] == withdrawn[..i] + [withdrawn[i]];
        OneMoreWithdrawn(withdrawn[..i], withdrawn[i], cause, a, event);
        OneMoreEntry(old(trail), WithdrawnEntries(withdrawn[..i], cause, a, event),
                     RequestWithdrawn(withdrawn[i], cause, a, event));
        trail := trail + [RequestWithdrawn(withdrawn[i], cause, a, event)];
      }
      assert withdrawn[..|withdrawn|] == withdrawn;
    }
  }

  // One more request's outcome in the two counters a tick keeps.
  method Tallied(landed: nat, stalled: seq<Class>, outcome: Outcome) returns (landed': nat, stalled': seq<Class>)
    ensures landed' == landed + if outcome.Landing? then 1 else 0
    ensures stalled' == stalled + StalledOnly(outcome)
  {
    if outcome.Landing? {
      return landed + 1, stalled;
    }
    if !outcome.terminal {
      return landed, stalled + [outcome.fault];
    }
    return landed, stalled;
  }

  ghost function AnyOrder(ids: set<RequestId>): (order: seq<RequestId>)
    ensures Enumerates(order, ids)
  {
    if ids == {} then [] else var id :| id in ids; AnyOrder(ids - {id}) + [id]
  }
}
