// How full one endpoint's queue can get (extensions/openchannel/inbound.go:46,
// 164-211). The count and the insert are separate statements, so arrivals that
// overlap between them each admit a row past the cap.
module SoftCap {
  import opened Basics
  import opened Records
  import opened Inbound
  import opened QueueMachine

  // The arrivals past the queue check and not yet inserted.
  function Overlapping(w: World, m: Member): set<Token> {
    set token | token in w.arriving && w.arriving[token] == Counted(m)
  }

  ghost function AtMost(m: Member, k: nat): (World, Action) -> bool {
    (w, act) => Enabled(w, act) && |Overlapping(Step(w, act), m)| <= k
  }

  ghost predicate Bounded(w: World, m: Member, k: nat) {
    && Partition(w.q, w.h)
    && |WaitingFor(w.q, m)| + |Overlapping(w, m)| <= MAX_PENDING_INBOUND - 1 + k
  }

  lemma WaitingOnlyShrinks(w: World, w': World, m: Member)
    requires forall id :: IsWaiting(w'.q, id) && w'.q.rows[id].owner == m ==>
               IsWaiting(w.q, id) && w.q.rows[id].owner == m
    requires w'.arriving == w.arriving
    ensures |WaitingFor(w'.q, m)| + |Overlapping(w', m)| <= |WaitingFor(w.q, m)| + |Overlapping(w, m)|
  {
    assert WaitingFor(w'.q, m) <= WaitingFor(w.q, m);
    SubsetSize(WaitingFor(w'.q, m), WaitingFor(w.q, m));
    assert Overlapping(w', m) == Overlapping(w, m);
  }

  lemma OneFewerOverlaps(w: World, w': World, token: Token, m: Member)
    requires token in w.arriving && w.arriving[token].Counted? && w'.arriving == w.arriving - {token}
    ensures |Overlapping(w', m)| == |Overlapping(w, m)| - if w.arriving[token].owner == m then 1 else 0
  {
    assert Overlapping(w', m) == Overlapping(w, m) - {token};
    SizeWithout(Overlapping(w, m), token);
  }

  lemma OneMoreWaits(q: Queue, owner: Member, id: RequestId, nonce: string, doc: Option<Arrival>, sentAt: Time,
                     stamp: Time, m: Member)
    requires owner in q.edges && id !in q.rows
    ensures |WaitingFor(Insert(q, owner, id, nonce, doc, sentAt, stamp).0, m)|
         <= |WaitingFor(q, m)| + if owner == m then 1 else 0
  {
    var q' := Insert(q, owner, id, nonce, doc, sentAt, stamp).0;
    var more: set<RequestId> := if owner == m then {id} else {};
    assert WaitingFor(q', m) <= WaitingFor(q, m) + more;
    SubsetSize(WaitingFor(q', m), WaitingFor(q, m) + more);
  }

  lemma InsertingTradesOneForOne(w: World, act: Action, m: Member)
    requires Partition(w.q, w.h) && act.InsertRow? && Enabled(w, act)
    ensures var w' := Step(w, act);
            |WaitingFor(w'.q, m)| + |Overlapping(w', m)| <= |WaitingFor(w.q, m)| + |Overlapping(w, m)|
  {
    var owner := w.arriving[act.token].owner;
    OneFewerOverlaps(w, Step(w, act), act.token, m);
    if owner in w.q.edges && act.id !in w.q.rows {
      OneMoreWaits(w.q, owner, act.id, act.nonce, act.doc, act.sentAt, act.stamp, m);
    }
  }

  lemma CountingIsBounded(w: World, act: Action, m: Member, k: nat)
    requires Bounded(w, m, k) && act.Count? && Enabled(w, act) && AtMost(m, k)(w, act)
    ensures Bounded(Step(w, act), m, k)
  {
    var w', owner := Step(w, act), w.arriving[act.token].owner;
    if owner == m && |WaitingFor(w.q, m)| < MAX_PENDING_INBOUND {
      assert |Overlapping(w', m)| <= k;
    } else {
      assert Overlapping(w', m) == Overlapping(w, m);
    }
  }

  lemma ArrivingOnlyShrinks(w: World, act: Action, m: Member)
    requires (act.Resolve? || act.Abandon?) && Enabled(w, act)
    ensures Step(w, act).q == w.q && Step(w, act).h == w.h
    ensures |Overlapping(Step(w, act), m)| <= |Overlapping(w, m)|
  {
    assert Overlapping(Step(w, act), m) <= Overlapping(w, m);
    SubsetSize(Overlapping(Step(w, act), m), Overlapping(w, m));
  }

  lemma RowsOnlyLeave(w: World, act: Action, m: Member)
    requires (act.MoveRow? || act.Archive? || act.SweepTables?) && Enabled(w, act)
    ensures |WaitingFor(Step(w, act).q, m)| + |Overlapping(Step(w, act), m)|
         <= |WaitingFor(w.q, m)| + |Overlapping(w, m)|
  {
    if act.MoveRow? {
      MarkKeepsTheBooks(w.q, w.ticks[act.t].batch[w.ticks[act.t].next], w.ticks[act.t].answer, w.now);
    } else if act.Archive? {
      DeliverKeepsTheBooks(w.q, act.a, act.order, act.cause, act.event, w.now);
    }
    WaitingOnlyShrinks(w, Step(w, act), m);
  }

  lemma OthersStandStill(w: World, act: Action, m: Member)
    requires act.Open? || act.SetEnabled? || act.Wait? || act.StartTick? || act.Ingest? || act.Report? || act.Crash?
    requires Enabled(w, act)
    ensures |WaitingFor(Step(w, act).q, m)| + |Overlapping(Step(w, act), m)|
         <= |WaitingFor(w.q, m)| + |Overlapping(w, m)|
  {
    assert Step(w, act).q.rows == w.q.rows && Step(w, act).arriving == w.arriving;
    WaitingOnlyShrinks(w, Step(w, act), m);
  }

  lemma StepIsBounded(w: World, act: Action, m: Member, k: nat)
    requires Accounted(w) && Bounded(w, m, k) && Enabled(w, act) && AtMost(m, k)(w, act)
    ensures Bounded(Step(w, act), m, k)
  {
    StepIsAccounted(w, act);
    match act {
      case Count(_) => CountingIsBounded(w, act, m, k);
      case InsertRow(_, _, _, _, _, _) => InsertingTradesOneForOne(w, act, m);
      case Resolve(_, _) => ArrivingOnlyShrinks(w, act, m);
      case Abandon(_) => ArrivingOnlyShrinks(w, act, m);
      case MoveRow(_) => RowsOnlyLeave(w, act, m);
      case Archive(_, _, _, _) => RowsOnlyLeave(w, act, m);
      case SweepTables(_) => RowsOnlyLeave(w, act, m);
      case _ => OthersStandStill(w, act, m);
    }
  }

  lemma {:induction false} RunIsBounded(w: World, run: seq<Action>, m: Member, k: nat)
    requires Accounted(w) && Bounded(w, m, k) && ValidRun(w, run) && Throughout(w, run, AtMost(m, k))
    ensures Bounded(After(w, run), m, k)
    decreases |run|
  {
    if run != [] {
      StepIsAccounted(w, run[0]);
      StepIsBounded(w, run[0], m, k);
      RunIsBounded(Step(w, run[0]), run[1..], m, k);
    }
  }

  // If at most k of an endpoint's arrivals overlap between their count and
  // their insert, it never holds more than 999 + k waiting, with drains,
  // archives and sweeps running freely: 1000 where arrivals are serial.
  lemma TheQueueStaysUnderItsCap(run: seq<Action>, m: Member, k: nat)
    requires ValidRun(EMPTY, run) && Throughout(EMPTY, run, AtMost(m, k))
    ensures |WaitingFor(After(EMPTY, run).q, m)| <= 999 + k
  {
    assert WaitingFor(EMPTY.q, m) == {} && Overlapping(EMPTY, m) == {};
    RunIsBounded(EMPTY, run, m, k);
  }

  /* ----- and the bound is met ----- */

  function Below(n: nat): (ids: set<nat>)
    ensures |ids| == n
    ensures forall i: nat :: i in ids <==> i < n
  {
    if n == 0 then {} else Below(n - 1) + {n - 1}
  }

  // n rows waiting and c arrivals counted, all on member 0's endpoint.
  ghost predicate Filled(w: World, n: nat, c: nat) {
    && 0 in w.q.edges && w.q.edges[0].ref == "r" && w.q.edges[0].enabled && w.q.edges.Keys == {0}
    && (forall i: nat :: i in w.q.rows <==> i < n) && (forall i: nat :: i in w.h.accepted <==> i < n)
    && (forall i :: i in w.q.rows ==>
          w.q.rows[i].owner == 0 && w.q.rows[i].state == Waiting && |w.q.rows[i].nonce| == i)
    && (forall token: nat :: token in w.arriving <==> token < c)
    && (forall token :: token in w.arriving ==> w.arriving[token] == Counted(0))
    && w.now == 0
  }

  lemma WhatFilledCounts(w: World, n: nat, c: nat)
    requires Filled(w, n, c)
    ensures |WaitingFor(w.q, 0)| == n && |Overlapping(w, 0)| == c
  {
    assert WaitingFor(w.q, 0) == Below(n) && Overlapping(w, 0) == Below(c);
  }

  ghost predicate Reaches(run: seq<Action>, k: nat, n: nat, c: nat) {
    ValidRun(EMPTY, run) && Throughout(EMPTY, run, AtMost(0, k)) && Filled(After(EMPTY, run), n, c)
  }

  lemma OneMoreCounted(run: seq<Action>, k: nat, n: nat, c: nat) returns (longer: seq<Action>)
    requires Reaches(run, k, n, c) && n < MAX_PENDING_INBOUND && c < k
    ensures Reaches(longer, k, n, c + 1)
  {
    var w := After(EMPTY, run);
    var resolve := Resolve(c, "r");
    assert Accepting(w.q, "r") == Some(0);
    var resolved := Step(w, resolve);
    WhatFilledCounts(w, n, c);
    assert Overlapping(resolved, 0) == Overlapping(w, 0);
    OneMoreStep(EMPTY, run, resolve);
    OneMoreHolds(EMPTY, run, resolve, AtMost(0, k));
    var count := Count(c);
    var counted := Step(resolved, count);
    assert WaitingFor(resolved.q, 0) == WaitingFor(w.q, 0);
    assert Filled(counted, n, c + 1);
    WhatFilledCounts(counted, n, c + 1);
    OneMoreStep(EMPTY, run + [resolve], count);
    OneMoreHolds(EMPTY, run + [resolve], count, AtMost(0, k));
    longer := run + [resolve] + [count];
  }

  function Unary(n: nat): string {
    seq(n, _ => 'a')
  }

  lemma OneMoreInserted(run: seq<Action>, k: nat, n: nat, c: nat) returns (longer: seq<Action>)
    requires Reaches(run, k, n, c + 1) && c < k
    ensures Reaches(longer, k, n + 1, c)
  {
    var w := After(EMPTY, run);
    var insert := InsertRow(c, n, Unary(n), None, 0, 0);
    assert !NonceTaken(w.q, 0, Unary(n));
    var inserted := Step(w, insert);
    assert inserted.q == Insert(w.q, 0, n, Unary(n), None, 0, 0).0;
    assert Filled(inserted, n + 1, c);
    WhatFilledCounts(inserted, n + 1, c);
    OneMoreStep(EMPTY, run, insert);
    OneMoreHolds(EMPTY, run, insert, AtMost(0, k));
    longer := run + [insert];
  }

  lemma {:induction false} ARunThatFills(k: nat, n: nat) returns (run: seq<Action>)
    requires k >= 1 && n < MAX_PENDING_INBOUND
    ensures Reaches(run, k, n, 0)
  {
    if n == 0 {
      var open := Open(0, "r");
      var w := Step(EMPTY, open);
      assert Filled(w, 0, 0);
      WhatFilledCounts(w, 0, 0);
      OneMoreStep(EMPTY, [], open);
      OneMoreHolds(EMPTY, [], open, AtMost(0, k));
      run := [] + [open];
    } else {
      run := ARunThatFills(k, n - 1);
      run := OneMoreCounted(run, k, n - 1, 0);
      run := OneMoreInserted(run, k, n - 1, 0);
    }
  }

  lemma {:induction false} ARunThatOverlaps(k: nat, c: nat) returns (run: seq<Action>)
    requires 1 <= k && c <= k
    ensures Reaches(run, k, MAX_PENDING_INBOUND - 1, c)
    decreases c
  {
    if c == 0 {
      run := ARunThatFills(k, MAX_PENDING_INBOUND - 1);
    } else {
      run := ARunThatOverlaps(k, c - 1);
      run := OneMoreCounted(run, k, MAX_PENDING_INBOUND - 1, c - 1);
    }
  }

  lemma {:induction false} ARunThatOverfills(k: nat, more: nat) returns (run: seq<Action>)
    requires 1 <= k && more <= k
    ensures Reaches(run, k, MAX_PENDING_INBOUND - 1 + more, k - more)
    decreases more
  {
    if more == 0 {
      run := ARunThatOverlaps(k, k);
    } else {
      run := ARunThatOverfills(k, more - 1);
      run := OneMoreInserted(run, k, MAX_PENDING_INBOUND - 1 + (more - 1), k - more);
    }
  }

  // For every k there is a run with at most k overlapping that leaves exactly
  // 999 + k waiting: exactly 1000 for serial arrivals.
  lemma TheCapIsMet(k: nat)
    requires k >= 1
    ensures exists run :: ValidRun(EMPTY, run) && Throughout(EMPTY, run, AtMost(0, k))
                          && |WaitingFor(After(EMPTY, run).q, 0)| == 999 + k
  {
    var run := ARunThatOverfills(k, k);
    WhatFilledCounts(After(EMPTY, run), 999 + k, 0);
  }
}
