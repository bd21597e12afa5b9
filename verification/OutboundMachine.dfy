// The outward half as a transition system: any number of overlapping sends,
// each two ledger writes around one POST, with crashes, refused writes and
// retention sweeps between any two of them. An action that is not enabled
// changes nothing, so every sequence of actions is a run.
module OutboundMachine {
  import opened Basics
  import opened Outbound

  type CallId = nat

  // A send between its steps: its row announced, then its request gone.
  datatype Call =
    | Announced(a: Attempt, recipient: string)
    | Awaiting(a: Attempt, recipient: string, reply: Transport)

  // Upstream's record of one delivery: which attempt is next, which call is
  // making it, or that the ladder stopped.
  datatype Rung = Next(number: nat) | Climbing(call: CallId, number: nat) | Stopped

  // One POST as it left: its nonce, what came of it, whether the receiver
  // took it, and whether its attempt had a row at that moment.
  datatype Departure = Departure(delivery: string, owner: Member, nonce: string, reply: Transport, taken: bool,
                                 held: bool)

  // Histories no handler reads: every set of rows a sweep deleted, every sent
  // row rewritten to something else, when each attempt's row was first
  // written, and the latest sweep since it was last written.
  datatype History = History(
    sweeps: seq<map<Attempt, Row>>,
    overwritten: seq<Attempt>,
    born: map<Attempt, Time>,
    sweptSince: map<Attempt, Time>,
    posts: seq<Departure>)

  datatype World = World(
    ledger: Ledger,
    now: Time,
    calls: map<CallId, Call>,
    ladder: map<string, Rung>,
    digest: string -> string,
    h: History)

  // stamp is the instant a transaction began, which is what now() answers
  // inside it.
  datatype Action =
    | Wait(seconds: nat)
    | OpenEndpoint(m: Member)
    | Announce(call: CallId, a: Attempt, recipient: string, stored: bool, stamp: Time)
    | Depart(call: CallId, reply: Transport, taken: bool)
    | Complete(call: CallId, stored: bool, stamp: Time)
    | Crash(call: CallId)
    | TurnedAway(delivery: string)
    | SweepRows(stamp: Time)

  function Start(digest: string -> string): World {
    World(Ledger(map[], map[]), 0, map[], map[], digest, History([], [], map[], map[], []))
  }

  function RungOf(w: World, delivery: string): Rung {
    if delivery in w.ladder then w.ladder[delivery] else Next(1)
  }

  // The stop rule: success or an unknown outcome ends the delivery, anything
  // else goes to the next attempt.
  function AfterReport(number: nat, report: Report): Rung {
    if Stops(report) then Stopped else Next(number + 1)
  }

  predicate Enabled(w: World, act: Action) {
    match act
    case Wait(_) => true
    case OpenEndpoint(m) => m !in w.ledger.sent
    case Announce(call, a, _, _, stamp) => call !in w.calls && a.owner in w.ledger.sent && stamp <= w.now
    case Depart(call, reply, taken) =>
      call in w.calls && w.calls[call].Announced? && (taken ==> MayHaveArrived(reply)) && (Accepted(reply) ==> taken)
    case Complete(call, _, stamp) => call in w.calls && w.calls[call].Awaiting? && stamp <= w.now
    case Crash(call) => call in w.calls
    case TurnedAway(_) => true
    case SweepRows(stamp) => stamp <= w.now
  }

  function Written(h: History, l: Ledger, a: Attempt, outcome: Outcome, stamp: Time): History {
    h.(overwritten := if a in l.rows && l.rows[a].outcome == WasSent && outcome != WasSent
                      then h.overwritten + [a] else h.overwritten,
       born := if a in l.rows then h.born else h.born[a := stamp],
       sweptSince := h.sweptSince - {a})
  }

  function Latest(since: map<Attempt, Time>, a: Attempt, stamp: Time): Time {
    if a in since && since[a] > stamp then since[a] else stamp
  }

  function SweptAt(h: History, l: Ledger, stamp: Time): History {
    h.(sweeps := h.sweeps + [map a | a in Expired(l, stamp) :: l.rows[a]],
       sweptSince := map a | a in h.born :: Latest(h.sweptSince, a, stamp))
  }

  function Step(w: World, act: Action): World {
    if !Enabled(w, act) then w else
      match act
      case Wait(seconds) => w.(now := w.now + seconds)
      case OpenEndpoint(m) => w.(ledger := w.ledger.(sent := w.ledger.sent[m := 0]))
      case Announce(call, a, recipient, stored, stamp) =>
        if stored then
          w.(ledger := Write(w.ledger, a, recipient, IsUnknown, Some(DeliveryUnanswered), stamp),
             calls := w.calls[call := Announced(a, recipient)],
             ladder := w.ladder[a.delivery := Climbing(call, a.number)],
             h := Written(w.h, w.ledger, a, IsUnknown, stamp))
        else w.(ladder := w.ladder[a.delivery := AfterReport(a.number, NotRecorded)])
      case Depart(call, reply, taken) =>
        var a := w.calls[call].a;
        var gone := Departure(a.delivery, a.owner, w.digest(a.delivery), reply, taken, a in w.ledger.rows);
        w.(calls := w.calls[call := Awaiting(a, w.calls[call].recipient, reply)],
           h := w.h.(posts := w.h.posts + [gone]))
      case Complete(call, stored, stamp) =>
        var Awaiting(a, recipient, reply) := w.calls[call];
        var done := w.(calls := w.calls - {call},
                       ladder := w.ladder[a.delivery := AfterReport(a.number, ReportOf(Post(reply), stored))]);
        if stored && a.owner in w.ledger.sent then
          done.(ledger := Write(w.ledger, a, recipient, OutcomeOf(Post(reply)), AttemptClass(Post(reply)), stamp),
                h := Written(w.h, w.ledger, a, OutcomeOf(Post(reply)), stamp))
        else done
      case Crash(call) =>
        var a := w.calls[call].a;
        w.(calls := w.calls - {call}, ladder := w.ladder[a.delivery := Next(a.number)])
      case TurnedAway(delivery) =>
        if RungOf(w, delivery).Next?
        then w.(ladder := w.ladder[delivery := Next(RungOf(w, delivery).number + 1)])
        else w
      case SweepRows(stamp) => w.(ledger := Sweep(w.ledger, stamp), h := SweptAt(w.h, w.ledger, stamp))
  }

  function After(w: World, run: seq<Action>): World {
    if run == [] then w else Step(After(w, run[..|run| - 1]), run[|run| - 1])
  }

  lemma OneMore(w: World, run: seq<Action>, act: Action)
    ensures After(w, run + [act]) == Step(After(w, run), act)
  {
    assert (run + [act])[..|run|] == run;
  }

  lemma Extend(s: World, run: seq<Action>, act: Action) returns (longer: seq<Action>, w: World)
    ensures longer == run + [act] && w == After(s, longer) == Step(After(s, run), act)
  {
    OneMore(s, run, act);
    longer, w := run + [act], After(s, run + [act]);
  }

  lemma InThree(w: World, a: Action, b: Action, c: Action)
    ensures After(w, [a, b, c]) == Step(Step(Step(w, a), b), c)
  {
    OneMore(w, [], a);
    OneMore(w, [a], b);
    OneMore(w, [a, b], c);
    assert [] + [a] == [a] && [a] + [b] == [a, b] && [a, b] + [c] == [a, b, c];
  }

  // A whole transmission is three actions of this machine in a row.
  lemma ATransmissionIsARun(w: World, call: CallId, a: Attempt, recipient: string, reply: Transport, taken: bool,
                            announced: bool, completed: bool, now: Time, later: Time)
    requires call !in w.calls && a.owner in w.ledger.sent && now <= w.now && later <= w.now
    requires (taken ==> MayHaveArrived(reply)) && (Accepted(reply) ==> taken)
    ensures var run := [Announce(call, a, recipient, announced, now), Depart(call, reply, taken),
                        Complete(call, completed, later)];
            && After(w, run).ledger == Transmitted(w.ledger, a, recipient, reply, announced, completed, now, later)
            && After(w, run).calls == w.calls
            && |After(w, run).h.posts| == |w.h.posts| + if announced then 1 else 0
  {
    InThree(w, Announce(call, a, recipient, announced, now), Depart(call, reply, taken),
            Complete(call, completed, later));
  }

  /* ----- conservation ----- */

  function SentRows(rows: map<Attempt, Row>, m: Member): set<Attempt> {
    set a | a in rows && a.owner == m && rows[a].outcome == WasSent
  }

  function SweptSent(sweeps: seq<map<Attempt, Row>>, m: Member): nat {
    if sweeps == [] then 0
    else SweptSent(sweeps[..|sweeps| - 1], m) + |SentRows(sweeps[|sweeps| - 1], m)|
  }

  function OverwrittenOf(overwritten: seq<Attempt>, m: Member): nat {
    if overwritten == [] then 0
    else OverwrittenOf(overwritten[..|overwritten| - 1], m)
         + (if overwritten[|overwritten| - 1].owner == m then 1 else 0)
  }

  function Justified(w: World, m: Member): nat {
    |SentRows(w.ledger.rows, m)| + SweptSent(w.h.sweeps, m) + OverwrittenOf(w.h.overwritten, m)
  }

  ghost predicate Conserved(w: World) {
    && (forall a :: a in w.ledger.rows ==> a.owner in w.ledger.sent)
    && (forall k :: k in w.calls ==> w.calls[k].a.owner in w.ledger.sent)
    && (forall m :: m in w.ledger.sent ==> w.ledger.sent[m] == Justified(w, m))
    && (forall m :: m !in w.ledger.sent ==> Justified(w, m) == 0)
  }

  predicate RowWasSent(rows: map<Attempt, Row>, a: Attempt) {
    a in rows && rows[a].outcome == WasSent
  }

  lemma SentRowsWithout(rows: map<Attempt, Row>, a: Attempt, m: Member)
    ensures |SentRows(rows, m)| == |SentRows(rows - {a}, m)| + if m == a.owner && RowWasSent(rows, a) then 1 else 0
  {
    assert SentRows(rows - {a}, m) == SentRows(rows, m) - {a};
    SizeWithout(SentRows(rows, m), a);
  }

  lemma AWriteMovesOneSentRow(rows: map<Attempt, Row>, a: Attempt, row: Row, m: Member)
    ensures |SentRows(rows[a := row], m)| - |SentRows(rows, m)|
         == (if m == a.owner && row.outcome == WasSent then 1 else 0)
            - (if m == a.owner && RowWasSent(rows, a) then 1 else 0)
  {
    SentRowsWithout(rows, a, m);
    SentRowsWithout(rows[a := row], a, m);
    assert rows[a := row] - {a} == rows - {a};
  }

  lemma AWriteOverwritesOneSentRow(l: Ledger, h: History, a: Attempt, outcome: Outcome, stamp: Time, m: Member)
    ensures OverwrittenOf(Written(h, l, a, outcome, stamp).overwritten, m) - OverwrittenOf(h.overwritten, m)
         == if m == a.owner && RowWasSent(l.rows, a) && outcome != WasSent then 1 else 0
  {
  }

  lemma AWriteIsJustified(l: Ledger, h: History, a: Attempt, recipient: string, outcome: Outcome,
                          fault: Option<AttemptFault>, stamp: Time, m: Member)
    requires a.owner in l.sent
    ensures var l', h' := Write(l, a, recipient, outcome, fault, stamp), Written(h, l, a, outcome, stamp);
            |SentRows(l'.rows, m)| + OverwrittenOf(h'.overwritten, m)
            == |SentRows(l.rows, m)| + OverwrittenOf(h.overwritten, m)
               + (if m == a.owner && outcome == WasSent && !RowWasSent(l.rows, a) then 1 else 0)
  {
    AWriteMovesOneSentRow(l.rows, a, Write(l, a, recipient, outcome, fault, stamp).rows[a], m);
    AWriteOverwritesOneSentRow(l, h, a, outcome, stamp, m);
  }

  lemma ASweepMovesRowsToTheHistory(l: Ledger, h: History, stamp: Time, m: Member)
    ensures |SentRows(l.rows, m)| + SweptSent(h.sweeps, m)
         == |SentRows(Sweep(l, stamp).rows, m)| + SweptSent(SweptAt(h, l, stamp).sweeps, m)
  {
    var gone := map a | a in Expired(l, stamp) :: l.rows[a];
    DisjointUnionSize(SentRows(Sweep(l, stamp).rows, m), SentRows(gone, m));
    assert SentRows(l.rows, m) == SentRows(Sweep(l, stamp).rows, m) + SentRows(gone, m);
  }

  lemma WritingConserves(w: World, w': World, a: Attempt, recipient: string, outcome: Outcome,
                         fault: Option<AttemptFault>, stamp: Time)
    requires Conserved(w) && a.owner in w.ledger.sent
    requires w'.ledger == Write(w.ledger, a, recipient, outcome, fault, stamp)
    requires w'.h == Written(w.h, w.ledger, a, outcome, stamp)
    requires forall k :: k in w'.calls ==> w'.calls[k].a.owner in w.ledger.sent
    ensures Conserved(w')
  {
    forall m ensures m in w'.ledger.sent ==> w'.ledger.sent[m] == Justified(w', m)
             ensures m !in w'.ledger.sent ==> Justified(w', m) == 0
    {
      AWriteIsJustified(w.ledger, w.h, a, recipient, outcome, fault, stamp, m);
    }
  }

  lemma SweepingConserves(w: World, stamp: Time)
    requires Conserved(w) && stamp <= w.now
    ensures Conserved(Step(w, SweepRows(stamp)))
  {
    forall m ensures Justified(Step(w, SweepRows(stamp)), m) == Justified(w, m) {
      ASweepMovesRowsToTheHistory(w.ledger, w.h, stamp, m);
    }
  }

  lemma AnnouncingConserves(w: World, act: Action)
    requires Conserved(w) && act.Announce? && Enabled(w, act)
    ensures Conserved(Step(w, act))
  {
    if act.stored {
      WritingConserves(w, Step(w, act), act.a, act.recipient, IsUnknown, Some(DeliveryUnanswered), act.stamp);
    }
  }

  lemma CompletingConserves(w: World, act: Action)
    requires Conserved(w) && act.Complete? && Enabled(w, act)
    ensures Conserved(Step(w, act))
  {
    var Awaiting(a, recipient, reply) := w.calls[act.call];
    if act.stored {
      WritingConserves(w, Step(w, act), a, recipient, OutcomeOf(Post(reply)), AttemptClass(Post(reply)), act.stamp);
    }
  }

  lemma OpeningConserves(w: World, act: Action)
    requires Conserved(w) && act.OpenEndpoint? && Enabled(w, act)
    ensures Conserved(Step(w, act))
  {
    forall n ensures Justified(Step(w, act), n) == Justified(w, n) {
    }
  }

  lemma StepConserves(w: World, act: Action)
    requires Conserved(w)
    ensures Conserved(Step(w, act))
  {
    if Enabled(w, act) {
      match act {
        case Announce(_, _, _, _, _) => AnnouncingConserves(w, act);
        case Complete(_, _, _) => CompletingConserves(w, act);
        case SweepRows(stamp) => SweepingConserves(w, stamp);
        case OpenEndpoint(_) => OpeningConserves(w, act);
        case _ =>
          forall m ensures Justified(Step(w, act), m) == Justified(w, m) {
          }
      }
    }
  }

  // In every run, the counter is the rows now sent, the sent rows swept, and
  // the sent rows a later write replaced.
  lemma {:induction false} TheCounterIsConserved(digest: string -> string, run: seq<Action>)
    ensures Conserved(After(Start(digest), run))
  {
    if run != [] {
      TheCounterIsConserved(digest, run[..|run| - 1]);
      StepConserves(After(Start(digest), run[..|run| - 1]), run[|run| - 1]);
    }
  }

  // The one kind of write that parts the counter from the rows: a stored
  // outcome other than sent over a row now sent, which is what announcing an
  // attempt again does to it.
  predicate RewritesASentRow(w: World, act: Action, m: Member) {
    && Enabled(w, act)
    && match act
       case Announce(_, a, _, stored, _) => stored && a.owner == m && RowWasSent(w.ledger.rows, a)
       case Complete(call, stored, _) =>
         stored && w.calls[call].a.owner == m && RowWasSent(w.ledger.rows, w.calls[call].a)
         && OutcomeOf(Post(w.calls[call].reply)) != WasSent
       case _ => false
  }

  function Rewrites(w: World, run: seq<Action>, m: Member): nat {
    if run == [] then 0
    else Rewrites(w, run[..|run| - 1], m)
         + (if RewritesASentRow(After(w, run[..|run| - 1]), run[|run| - 1], m) then 1 else 0)
  }

  lemma AStepOverwritesAsItRewrites(w: World, act: Action, m: Member)
    requires Conserved(w)
    ensures OverwrittenOf(Step(w, act).h.overwritten, m)
         == OverwrittenOf(w.h.overwritten, m) + if RewritesASentRow(w, act, m) then 1 else 0
  {
    if Enabled(w, act) {
      match act {
        case Announce(_, a, _, _, stamp) => AWriteOverwritesOneSentRow(w.ledger, w.h, a, IsUnknown, stamp, m);
        case Complete(call, _, stamp) =>
          AWriteOverwritesOneSentRow(w.ledger, w.h, w.calls[call].a, OutcomeOf(Post(w.calls[call].reply)), stamp, m);
        case _ =>
      }
    }
  }

  lemma {:induction false} TheHistoryCountsTheRewrites(digest: string -> string, run: seq<Action>, m: Member)
    ensures OverwrittenOf(After(Start(digest), run).h.overwritten, m) == Rewrites(Start(digest), run, m)
  {
    if run != [] {
      TheHistoryCountsTheRewrites(digest, run[..|run| - 1], m);
      TheCounterIsConserved(digest, run[..|run| - 1]);
      AStepOverwritesAsItRewrites(After(Start(digest), run[..|run| - 1]), run[|run| - 1], m);
    }
  }

  predicate NeverRewrites(w: World, run: seq<Action>, m: Member) {
    forall i :: 0 <= i < |run| ==> !RewritesASentRow(After(w, run[..i]), run[i], m)
  }

  lemma {:induction false} NoneCountedExactlyWhenNoneRewrites(w: World, run: seq<Action>, m: Member)
    ensures Rewrites(w, run, m) == 0 <==> NeverRewrites(w, run, m)
  {
    if run != [] {
      var init := run[..|run| - 1];
      NoneCountedExactlyWhenNoneRewrites(w, init, m);
      assert forall i :: 0 <= i < |init| ==> init[..i] == run[..i] && init[i] == run[i];
      assert run[..|init|] == init;
    }
  }

  // The counter follows the rows, as the ledger's own account has it, exactly
  // in the runs no action of which rewrites a sent row of that endpoint.
  lemma {:induction false} TheCounterFollowsTheRowsUnlessOneIsRewritten(digest: string -> string, run: seq<Action>,
                                                                        m: Member)
    requires m in After(Start(digest), run).ledger.sent
    ensures var w := After(Start(digest), run);
            w.ledger.sent[m] == |SentRows(w.ledger.rows, m)| + SweptSent(w.h.sweeps, m)
            <==> NeverRewrites(Start(digest), run, m)
  {
    TheCounterIsConserved(digest, run);
    TheHistoryCountsTheRewrites(digest, run, m);
    NoneCountedExactlyWhenNoneRewrites(Start(digest), run, m);
  }

  /* ----- what the counter never exceeds ----- */

  function AcceptedPosts(posts: seq<Departure>, m: Member): nat {
    if posts == [] then 0
    else AcceptedPosts(posts[..|posts| - 1], m)
         + (if posts[|posts| - 1].owner == m && Accepted(posts[|posts| - 1].reply) then 1 else 0)
  }

  // Calls that hold an acceptance they have not recorded yet.
  function Unrecorded(calls: map<CallId, Call>, m: Member): set<CallId> {
    set k | k in calls && calls[k].Awaiting? && calls[k].a.owner == m && Accepted(calls[k].reply)
  }

  ghost predicate Earned(w: World) {
    && (forall k :: k in w.calls ==> w.calls[k].a.owner in w.ledger.sent)
    && (forall m :: m in w.ledger.sent ==> w.ledger.sent[m] + |Unrecorded(w.calls, m)| <= AcceptedPosts(w.h.posts, m))
    && (forall m :: m !in w.ledger.sent ==> Unrecorded(w.calls, m) == {})
  }

  lemma OneMoreUnrecorded(calls: map<CallId, Call>, k: CallId, a: Attempt, recipient: string, reply: Transport,
                          m: Member)
    requires k in calls && calls[k].Announced?
    ensures |Unrecorded(calls[k := Awaiting(a, recipient, reply)], m)|
         == |Unrecorded(calls, m)| + if a.owner == m && Accepted(reply) then 1 else 0
  {
    var after := Unrecorded(calls[k := Awaiting(a, recipient, reply)], m);
    assert after - {k} == Unrecorded(calls, m);
  }

  lemma OneFewerUnrecorded(calls: map<CallId, Call>, k: CallId, m: Member)
    requires k in calls && calls[k].Awaiting?
    ensures Unrecorded(calls - {k}, m) <= Unrecorded(calls, m)
    ensures |Unrecorded(calls - {k}, m)|
         == |Unrecorded(calls, m)| - if calls[k].a.owner == m && Accepted(calls[k].reply) then 1 else 0
  {
    assert Unrecorded(calls - {k}, m) == Unrecorded(calls, m) - {k};
  }

  lemma DepartingIsEarned(w: World, act: Action)
    requires Earned(w) && act.Depart? && Enabled(w, act)
    ensures Earned(Step(w, act))
  {
    var call := w.calls[act.call];
    forall m ensures |Unrecorded(Step(w, act).calls, m)|
                  == |Unrecorded(w.calls, m)| + if call.a.owner == m && Accepted(act.reply) then 1 else 0
    {
      OneMoreUnrecorded(w.calls, act.call, call.a, call.recipient, act.reply, m);
    }
  }

  lemma CompletingIsEarned(w: World, act: Action)
    requires Earned(w) && act.Complete? && Enabled(w, act)
    ensures Earned(Step(w, act))
  {
    var w', call := Step(w, act), w.calls[act.call];
    TheRowSaysWhatHappened(call.reply);
    forall m ensures Unrecorded(w'.calls, m) <= Unrecorded(w.calls, m)
             ensures |Unrecorded(w'.calls, m)|
                  == |Unrecorded(w.calls, m)| - if call.a.owner == m && Accepted(call.reply) then 1 else 0
    {
      OneFewerUnrecorded(w.calls, act.call, m);
    }
  }

  lemma AnnouncingIsEarned(w: World, act: Action)
    requires Earned(w) && act.Announce? && Enabled(w, act)
    ensures Earned(Step(w, act))
  {
    forall m ensures Unrecorded(Step(w, act).calls, m) == Unrecorded(w.calls, m) { }
  }

  lemma CrashingIsEarned(w: World, act: Action)
    requires Earned(w) && act.Crash? && Enabled(w, act)
    ensures Earned(Step(w, act))
  {
    forall m ensures Unrecorded(Step(w, act).calls, m) <= Unrecorded(w.calls, m)
             ensures |Unrecorded(Step(w, act).calls, m)| <= |Unrecorded(w.calls, m)|
    {
      SubsetSize(Unrecorded(Step(w, act).calls, m), Unrecorded(w.calls, m));
    }
  }

  lemma StepIsEarned(w: World, act: Action)
    requires Earned(w)
    ensures Earned(Step(w, act))
  {
    if Enabled(w, act) {
      match act {
        case Announce(_, _, _, _, _) => AnnouncingIsEarned(w, act);
        case Depart(_, _, _) => DepartingIsEarned(w, act);
        case Complete(_, _, _) => CompletingIsEarned(w, act);
        case Crash(_) => CrashingIsEarned(w, act);
        case _ =>
      }
    }
  }

  // The counter never claims a message no receiver accepted, nor the same
  // acceptance twice.
  lemma {:induction false} TheCounterNeverExceedsTheAcceptances(digest: string -> string, run: seq<Action>)
    ensures Earned(After(Start(digest), run))
    ensures var w := After(Start(digest), run);
            forall m :: m in w.ledger.sent ==> w.ledger.sent[m] <= AcceptedPosts(w.h.posts, m)
  {
    if run != [] {
      TheCounterNeverExceedsTheAcceptances(digest, run[..|run| - 1]);
      StepIsEarned(After(Start(digest), run[..|run| - 1]), run[|run| - 1]);
    }
  }

  /* ----- every POST left with its row, exactly unless ----- */

  // The row of an attempt outlived the retention window at the latest sweep
  // since it was last written.
  predicate SweptAway(h: History, a: Attempt) {
    a in h.born && a in h.sweptSince && Outlived(h.born[a], h.sweptSince[a])
  }

  ghost predicate Traced(w: World) {
    && (forall a :: a in w.ledger.rows <==> a in w.h.born && !SweptAway(w.h, a))
    && (forall a :: a in w.ledger.rows ==> w.ledger.rows[a].createdAt == w.h.born[a])
    && (forall a :: a in w.h.sweptSince ==> w.h.sweptSince[a] <= w.now)
    && (forall k :: k in w.calls ==> w.calls[k].a in w.h.born)
  }

  lemma WritingIsTraced(w: World, w': World, a: Attempt, recipient: string, outcome: Outcome,
                        fault: Option<AttemptFault>, stamp: Time)
    requires Traced(w) && a.owner in w.ledger.sent && w'.now == w.now
    requires w'.ledger == Write(w.ledger, a, recipient, outcome, fault, stamp)
    requires w'.h == Written(w.h, w.ledger, a, outcome, stamp)
    requires forall k :: k in w'.calls ==> (k in w.calls && w'.calls[k].a == w.calls[k].a) || w'.calls[k].a == a
    ensures Traced(w')
  {
  }

  lemma SweepingIsTraced(w: World, stamp: Time)
    requires Traced(w) && stamp <= w.now
    ensures Traced(Step(w, SweepRows(stamp)))
  {
    var w' := Step(w, SweepRows(stamp));
    forall a ensures a in w'.ledger.rows <==> a in w'.h.born && !SweptAway(w'.h, a) {
      if a in w.h.born {
        assert w'.h.sweptSince[a] == Latest(w.h.sweptSince, a, stamp);
      }
    }
  }

  lemma StepIsTraced(w: World, act: Action)
    requires Traced(w)
    ensures Traced(Step(w, act))
  {
    var w' := Step(w, act);
    if Enabled(w, act) {
      match act {
        case Announce(_, a, recipient, stored, stamp) =>
          if stored { WritingIsTraced(w, w', a, recipient, IsUnknown, Some(DeliveryUnanswered), stamp); }
        case Complete(call, stored, stamp) =>
          var Awaiting(a, recipient, reply) := w.calls[call];
          if stored && a.owner in w.ledger.sent {
            WritingIsTraced(w, w', a, recipient, OutcomeOf(Post(reply)), AttemptClass(Post(reply)), stamp);
          }
        case SweepRows(stamp) => SweepingIsTraced(w, stamp);
        case _ =>
      }
    }
  }

  lemma {:induction false} RunIsTraced(digest: string -> string, run: seq<Action>)
    ensures Traced(After(Start(digest), run))
  {
    if run != [] {
      RunIsTraced(digest, run[..|run| - 1]);
      StepIsTraced(After(Start(digest), run[..|run| - 1]), run[|run| - 1]);
    }
  }

  // A POST leaves with its attempt on the ledger exactly unless a sweep since
  // the attempt was last written found its row's first writing past the
  // window; so always within thirty days of that first writing.
  lemma {:induction false} APostLeavesWithItsRowExactlyUnlessSweptAway(digest: string -> string, run: seq<Action>,
                                                                       call: CallId, reply: Transport, taken: bool)
    requires Enabled(After(Start(digest), run), Depart(call, reply, taken))
    ensures var w := After(Start(digest), run);
            var gone := After(Start(digest), run + [Depart(call, reply, taken)]).h.posts;
            var a := w.calls[call].a;
            && |gone| == |w.h.posts| + 1
            && (gone[|gone| - 1].held <==> !SweptAway(w.h, a))
            && (a in w.h.born && (w.now <= w.h.born[a] + Inbound.RETAIN_DECIDED ==> gone[|gone| - 1].held))
  {
    RunIsTraced(digest, run);
    assert (run + [Depart(call, reply, taken)])[..|run|] == run;
  }

  // An attempt announced once, abandoned, and left for a month.
  lemma {:induction false} AnOldAttempt(digest: string -> string, a: Attempt, month: nat) returns (run: seq<Action>)
    ensures var w := After(Start(digest), run);
            && a.owner in w.ledger.sent && w.calls == map[] && w.now == month && w.h.posts == []
            && w.ledger.rows == map[a := Row("r", IsUnknown, Some(DeliveryUnanswered), 0)]
  {
    var w: World;
    run, w := Extend(Start(digest), [], OpenEndpoint(a.owner));
    run, w := Extend(Start(digest), run, Announce(0, a, "r", true, 0));
    run, w := Extend(Start(digest), run, Crash(0));
    run, w := Extend(Start(digest), run, Wait(month));
  }

  // It does happen: an attempt first written a month ago and re-run keeps its
  // first instant, so a sweep between its announcement and its POST takes the
  // row from under it.
  lemma {:induction false} AnOldAttemptCanLeaveWithoutItsRow(digest: string -> string)
    ensures exists run :: SomePostLeftUnrecorded(After(Start(digest), run))
  {
    var a, month := Attempt(0, "d", 1), Inbound.RETAIN_DECIDED + 1;
    var run := AnOldAttempt(digest, a, month);
    var w: World;
    run, w := Extend(Start(digest), run, Announce(0, a, "r", true, month));
    run, w := Extend(Start(digest), run, SweepRows(month));
    run, w := Extend(Start(digest), run, Depart(0, Answered(200), true));
    assert !w.h.posts[0].held;
  }

  ghost predicate SomePostLeftUnrecorded(w: World) {
    exists i :: 0 <= i < |w.h.posts| && !w.h.posts[i].held
  }
}
