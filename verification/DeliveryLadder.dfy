// At most once outward: the outward machine under the product's ladder, which
// makes one attempt of a delivery at a time, stops on success or an unknown
// outcome, goes to the next attempt on any other answer, and re-runs an
// attempt whose worker died.
module DeliveryLadder {
  import opened Basics
  import opened Outbound
  import opened OutboundMachine

  predicate OnTheLadder(w: World, act: Action) {
    act.Announce? ==> RungOf(w, act.a.delivery) == Next(act.a.number)
  }

  predicate Climbs(w: World, run: seq<Action>) {
    run == [] || (Climbs(w, run[..|run| - 1]) && OnTheLadder(After(w, run[..|run| - 1]), run[|run| - 1]))
  }

  // The POSTs of one delivery after which the receiver may hold it.
  function Arrived(posts: seq<Departure>, d: string): nat {
    if posts == [] then 0
    else Arrived(posts[..|posts| - 1], d)
         + (if posts[|posts| - 1].delivery == d && MayHaveArrived(posts[|posts| - 1].reply) then 1 else 0)
  }

  predicate InFlight(calls: map<CallId, Call>, call: CallId, d: string) {
    call in calls && calls[call].Awaiting? && calls[call].a.delivery == d && MayHaveArrived(calls[call].reply)
  }

  // The crashes that struck a send of this delivery after such a POST left and
  // before its answer was reported.
  function Lost(w: World, run: seq<Action>, d: string): nat {
    if run == [] then 0
    else Lost(w, run[..|run| - 1], d)
         + (if run[|run| - 1].Crash? && InFlight(After(w, run[..|run| - 1]).calls, run[|run| - 1].call, d)
            then 1 else 0)
  }

  // What the ladder knows of a delivery's arrivals beyond those lost: one when
  // it stopped, and one when the attempt being made has one in flight.
  function Settled(w: World, d: string): nat {
    match RungOf(w, d)
    case Next(_) => 0
    case Climbing(call, _) => if InFlight(w.calls, call, d) then 1 else 0
    case Stopped => 1
  }

  ghost predicate InStep(w: World) {
    && (forall k :: k in w.calls ==> RungOf(w, w.calls[k].a.delivery) == Climbing(k, w.calls[k].a.number))
    && (forall d :: RungOf(w, d).Climbing? ==>
          RungOf(w, d).call in w.calls && w.calls[RungOf(w, d).call].a.delivery == d)
  }

  // A step moves the ladder of at most the one delivery it is about.
  lemma OnlyItsRungMoves(w: World, w': World, e: string, rung: Rung)
    requires w'.ladder == w.ladder[e := rung]
    ensures forall d :: RungOf(w', d) == if d == e then rung else RungOf(w, d)
  {
  }

  lemma AnnouncingStaysInStep(w: World, act: Action)
    requires InStep(w) && OnTheLadder(w, act) && act.Announce? && Enabled(w, act)
    ensures InStep(Step(w, act))
  {
    var w' := Step(w, act);
    assert forall k :: k in w.calls ==> w.calls[k].a.delivery != act.a.delivery;
    OnlyItsRungMoves(w, w', act.a.delivery, w'.ladder[act.a.delivery]);
  }

  lemma LeavingStaysInStep(w: World, act: Action)
    requires InStep(w) && (act.Complete? || act.Crash?) && Enabled(w, act)
    ensures InStep(Step(w, act))
  {
    var w', d := Step(w, act), w.calls[act.call].a.delivery;
    assert forall k :: k in w.calls && k != act.call ==> w.calls[k].a.delivery != d;
    OnlyItsRungMoves(w, w', d, w'.ladder[d]);
  }

  lemma DepartingStaysInStep(w: World, act: Action)
    requires InStep(w) && act.Depart? && Enabled(w, act)
    ensures InStep(Step(w, act))
  {
    assert forall d :: RungOf(Step(w, act), d) == RungOf(w, d);
  }

  lemma TurnedAwayStaysInStep(w: World, act: Action)
    requires InStep(w) && act.TurnedAway?
    ensures InStep(Step(w, act))
  {
    if RungOf(w, act.delivery).Next? {
      OnlyItsRungMoves(w, Step(w, act), act.delivery, Next(RungOf(w, act.delivery).number + 1));
    }
  }

  lemma StepStaysInStep(w: World, act: Action)
    requires InStep(w) && OnTheLadder(w, act)
    ensures InStep(Step(w, act))
  {
    if Enabled(w, act) {
      match act {
        case Announce(_, _, _, _, _) => AnnouncingStaysInStep(w, act);
        case Depart(_, _, _) => DepartingStaysInStep(w, act);
        case Complete(_, _, _) => LeavingStaysInStep(w, act);
        case Crash(_) => LeavingStaysInStep(w, act);
        case TurnedAway(_) => TurnedAwayStaysInStep(w, act);
        case _ => assert forall d :: RungOf(Step(w, act), d) == RungOf(w, d);
      }
    }
  }

  // One step's arrivals, against what the ladder knows before and after it.
  predicate Balances(w: World, act: Action, d: string) {
    Arrived(Step(w, act).h.posts, d) - Settled(Step(w, act), d)
    == Arrived(w.h.posts, d) - Settled(w, d) + (if act.Crash? && InFlight(w.calls, act.call, d) then 1 else 0)
  }

  lemma AnnouncingSettles(w: World, act: Action, d: string)
    requires InStep(w) && OnTheLadder(w, act) && act.Announce? && Enabled(w, act)
    ensures Balances(w, act, d)
  {
    AnnouncingStaysInStep(w, act);
  }

  lemma LeavingSettles(w: World, act: Action, d: string)
    requires InStep(w) && (act.Complete? || act.Crash?) && Enabled(w, act)
    ensures Balances(w, act, d)
  {
    LeavingStaysInStep(w, act);
    if act.Complete? {
      TheLadderStopsExactlyWhenItMayHaveArrived(w.calls[act.call].reply, act.stored);
    }
  }

  lemma OneMorePost(posts: seq<Departure>, gone: Departure, d: string)
    ensures Arrived(posts + [gone], d)
         == Arrived(posts, d) + if gone.delivery == d && MayHaveArrived(gone.reply) then 1 else 0
  {
    assert (posts + [gone])[..|posts|] == posts;
  }

  lemma DepartingSettles(w: World, act: Action, d: string)
    requires InStep(w) && act.Depart? && Enabled(w, act)
    ensures Balances(w, act, d)
  {
    DepartingStaysInStep(w, act);
    var posts := Step(w, act).h.posts;
    assert RungOf(w, w.calls[act.call].a.delivery) == Climbing(act.call, w.calls[act.call].a.number);
    OneMorePost(w.h.posts, posts[|posts| - 1], d);
  }

  lemma StepSettles(w: World, act: Action, d: string)
    requires InStep(w) && OnTheLadder(w, act)
    ensures Balances(w, act, d)
  {
    if Enabled(w, act) {
      match act {
        case Announce(_, _, _, _, _) => AnnouncingSettles(w, act, d);
        case Depart(_, _, _) => DepartingSettles(w, act, d);
        case Complete(_, _, _) => LeavingSettles(w, act, d);
        case Crash(_) => LeavingSettles(w, act, d);
        case _ =>
      }
    }
  }

  // Where a send leaves its delivery: stopped after one that may have arrived,
  // at the next attempt after one that did not, and at the same attempt again
  // where it crashed.
  lemma WhereASendLeads(w: World, act: Action)
    requires (act.Complete? || act.Crash?) && Enabled(w, act)
    ensures var a := w.calls[act.call].a;
            && (act.Crash? ==> RungOf(Step(w, act), a.delivery) == Next(a.number))
            && (act.Complete? ==>
                  RungOf(Step(w, act), a.delivery)
                  == if MayHaveArrived(w.calls[act.call].reply) then Stopped else Next(a.number + 1))
  {
    if act.Complete? {
      TheLadderStopsExactlyWhenItMayHaveArrived(w.calls[act.call].reply, act.stored);
    }
  }

  // In every run up the ladder, the POSTs of a delivery that may have reached
  // the receiver are one for each crash that struck one in flight, and one
  // more exactly when the ladder stopped or has one in flight now.
  lemma {:induction false} EveryArrivalIsLostOrSettled(digest: string -> string, run: seq<Action>, d: string)
    requires Climbs(Start(digest), run)
    ensures var w := After(Start(digest), run);
            InStep(w) && Arrived(w.h.posts, d) == Lost(Start(digest), run, d) + Settled(w, d)
  {
    if run != [] {
      var init, act := run[..|run| - 1], run[|run| - 1];
      EveryArrivalIsLostOrSettled(digest, init, d);
      StepStaysInStep(After(Start(digest), init), act);
      StepSettles(After(Start(digest), init), act, d);
    }
  }

  // Without crashes no delivery has more than one POST that may have reached
  // its receiver, and it has one exactly when the ladder stopped or is waiting
  // on it.
  lemma {:induction false} AtMostOnceWithoutCrashes(digest: string -> string, run: seq<Action>, d: string)
    requires Climbs(Start(digest), run)
    requires forall i :: 0 <= i < |run| ==> !run[i].Crash?
    ensures var w := After(Start(digest), run);
            && Arrived(w.h.posts, d) <= 1
            && (RungOf(w, d) == Stopped ==> Arrived(w.h.posts, d) == 1)
            && (RungOf(w, d).Next? ==> Arrived(w.h.posts, d) == 0)
  {
    EveryArrivalIsLostOrSettled(digest, run, d);
    NothingLostWithoutCrashes(Start(digest), run, d);
  }

  lemma {:induction false} NothingLostWithoutCrashes(w: World, run: seq<Action>, d: string)
    requires forall i :: 0 <= i < |run| ==> !run[i].Crash?
    ensures Lost(w, run, d) == 0
  {
    if run != [] {
      NothingLostWithoutCrashes(w, run[..|run| - 1], d);
    }
  }

  /* ----- with crashes: one nonce, one message kept ----- */

  lemma {:induction false} EveryPostCarriesItsDeliverysNonce(digest: string -> string, run: seq<Action>)
    ensures var w := After(Start(digest), run);
            w.digest == digest && forall i :: 0 <= i < |w.h.posts| ==>
              w.h.posts[i].nonce == digest(w.h.posts[i].delivery)
  {
    if run != [] {
      EveryPostCarriesItsDeliverysNonce(digest, run[..|run| - 1]);
    }
  }

  predicate Seen(kept: seq<Departure>, nonce: string) {
    exists i :: 0 <= i < |kept| && kept[i].nonce == nonce
  }

  // What a receiver holds that keeps the first message under each nonce.
  function Kept(posts: seq<Departure>): seq<Departure> {
    if posts == [] then []
    else
      var before, last := Kept(posts[..|posts| - 1]), posts[|posts| - 1];
      if last.taken && !Seen(before, last.nonce) then before + [last] else before
  }

  lemma {:induction false} KeptOncePerNonce(posts: seq<Departure>)
    ensures forall i, j :: 0 <= i < j < |Kept(posts)| ==> Kept(posts)[i].nonce != Kept(posts)[j].nonce
    ensures forall i :: 0 <= i < |Kept(posts)| ==> Kept(posts)[i] in posts && Kept(posts)[i].taken
    ensures forall i :: 0 <= i < |posts| && posts[i].taken ==> Seen(Kept(posts), posts[i].nonce)
  {
    if posts != [] {
      var init, last := posts[..|posts| - 1], posts[|posts| - 1];
      KeptOncePerNonce(init);
      assert posts == init + [last];
      if last.taken && !Seen(Kept(init), last.nonce) {
        assert Kept(posts)[|Kept(init)|] == last;
        forall i | 0 <= i < |init| && init[i].taken ensures Seen(Kept(posts), init[i].nonce) {
          var k :| 0 <= k < |Kept(init)| && Kept(init)[k].nonce == init[i].nonce;
          assert Kept(posts)[k] == Kept(init)[k];
        }
      }
    }
  }

  ghost predicate TakenFor(posts: seq<Departure>, d: string) {
    exists i :: 0 <= i < |posts| && posts[i].delivery == d && posts[i].taken
  }

  // In every run, crashes and overlapping calls included, a receiver keeping
  // one message per nonce holds at most one message of a delivery; and it
  // holds one exactly when it took any, where no other delivery's id has the
  // same digest.
  lemma {:induction false} AReceiverKeepsOneMessagePerDelivery(digest: string -> string, run: seq<Action>, d: string)
    ensures var kept := Kept(After(Start(digest), run).h.posts);
            && (forall i, j :: 0 <= i < |kept| && 0 <= j < |kept| && kept[i].delivery == kept[j].delivery == d ==>
                i == j)
            && ((forall e :: digest(e) == digest(d) ==> e == d) ==>
                  (TakenFor(kept, d) <==> TakenFor(After(Start(digest), run).h.posts, d)))
  {
    EveryPostCarriesItsDeliverysNonce(digest, run);
    var posts := After(Start(digest), run).h.posts;
    KeptOncePerNonce(posts);
    var kept := Kept(posts);
    forall i, j | 0 <= i < |kept| && 0 <= j < |kept| && kept[i].delivery == kept[j].delivery == d ensures i == j {
      assert kept[i].nonce == kept[j].nonce;
    }
    if TakenFor(posts, d) && forall e :: digest(e) == digest(d) ==> e == d {
      var i :| 0 <= i < |posts| && posts[i].delivery == d && posts[i].taken;
      assert Seen(kept, posts[i].nonce);
      var k :| 0 <= k < |kept| && kept[k].nonce == digest(d);
      assert kept[k].delivery == d;
    }
  }

  // Ready for the first attempt of "d", which n posts have brought so far.
  predicate ReadyAgain(w: World, n: nat) {
    && 0 in w.ledger.sent && 0 !in w.calls && RungOf(w, "d") == Next(1) && 0 <= w.now
    && Arrived(w.h.posts, "d") == n
  }

  predicate OneInFlight(w: World, n: nat) {
    && 0 in w.ledger.sent && 0 in w.calls && w.calls[0].Awaiting? && w.calls[0].a == Attempt(0, "d", 1)
    && 0 <= w.now && Arrived(w.h.posts, "d") == n
  }

  predicate OneAnnounced(w: World, n: nat) {
    && 0 in w.ledger.sent && 0 in w.calls && w.calls[0].Announced? && w.calls[0].a == Attempt(0, "d", 1)
    && 0 <= w.now && Arrived(w.h.posts, "d") == n
  }

  lemma ItIsAnnounced(w: World, n: nat)
    requires ReadyAgain(w, n)
    ensures var announce := Announce(0, Attempt(0, "d", 1), "r", true, 0);
            OnTheLadder(w, announce) && OneAnnounced(Step(w, announce), n)
  {
  }

  lemma ItLeaves(w: World, n: nat)
    requires OneAnnounced(w, n)
    ensures OneInFlight(Step(w, Depart(0, Answered(200), true)), n + 1)
  {
    var a := Attempt(0, "d", 1);
    OneMorePost(w.h.posts, Departure("d", 0, w.digest("d"), Answered(200), true, a in w.ledger.rows), "d");
  }

  lemma OneMoreArrives(s: World, run: seq<Action>, n: nat) returns (longer: seq<Action>)
    requires Climbs(s, run) && ReadyAgain(After(s, run), n)
    ensures Climbs(s, longer) && OneInFlight(After(s, longer), n + 1)
  {
    var w := After(s, run);
    ItIsAnnounced(w, n);
    longer, w := Climb(s, run, Announce(0, Attempt(0, "d", 1), "r", true, 0));
    ItLeaves(w, n);
    longer, w := Climb(s, longer, Depart(0, Answered(200), true));
  }

  // Without a receiver that deduplicates, one crash after the POST is enough
  // for two of them to have been accepted.
  lemma {:induction false} OneCrashCanLandTwice(digest: string -> string)
    ensures exists run :: Climbs(Start(digest), run) && Arrived(After(Start(digest), run).h.posts, "d") == 2
  {
    var s := Start(digest);
    var run, w := Climb(s, [], OpenEndpoint(0));
    run := OneMoreArrives(s, run, 0);
    run, w := Climb(s, run, Crash(0));
    run := OneMoreArrives(s, run, 1);
  }

  lemma Climb(s: World, run: seq<Action>, act: Action) returns (longer: seq<Action>, w: World)
    requires Climbs(s, run) && OnTheLadder(After(s, run), act)
    ensures longer == run + [act] && w == After(s, longer) == Step(After(s, run), act) && Climbs(s, longer)
  {
    longer, w := Extend(s, run, act);
    assert longer[..|longer| - 1] == run;
  }
}
