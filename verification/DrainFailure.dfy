// What a failed ingest is called, whether its request can ever land, and what
// the tick then reports (extensions/openchannel/drainfailure.go).
module DrainFailure {

  // The sentinels errors.Is can find in a cause. A cause is the set it
  // matches: one wrapped error may match several, and the order of the switch
  // decides between them.
  datatype Sentinel =
    | Payload | Invalid | Forbidden
    | IngressNotDeclared | AttendedIngest | NestedIngest
    | NotFound | Conflict

  type Cause = set<Sentinel>

  // The classes a request's own row can carry.
  datatype Class =
    | PayloadUnusable | RefusedByTheCore | MemberNotPermitted
    | CaptureNotDeclared | RecordGone | CaptureUnavailable

  // What a tick reports: a request class every stall shared, or one of the
  // two that belong to the tick alone.
  datatype TickClass = Shared(fault: Class) | EveryRequestFailed | DrainFailed

  datatype Verdict =
    | Done
    | Failed(reported: TickClass)
    | Postponed(reported: TickClass, seconds: nat)

  const POLL_RETRY_SECONDS := 60

  // What one request of a batch came to: landed, or stalled under a class
  // that is terminal for the row or is not.
  datatype Outcome = Landing | Stall(fault: Class, terminal: bool)

  lemma TheSentinelsAreClosed(cause: Cause)
    ensures cause <= {Payload, Invalid, Forbidden, IngressNotDeclared, AttendedIngest, NestedIngest, NotFound, Conflict}
  {
    forall s | s in cause
      ensures s in {Payload, Invalid, Forbidden, IngressNotDeclared, AttendedIngest, NestedIngest, NotFound, Conflict}
    {
      match s {
        case Payload => case Invalid => case Forbidden => case IngressNotDeclared =>
        case AttendedIngest => case NestedIngest => case NotFound => case Conflict =>
      }
    }
  }

  function Classify(cause: Cause): (r: (Class, bool))
    // The outage class is what is left when nothing matched, and it is the
    // only one exempt from the attempt budget: no sentinel reaches it, and it
    // never parks a row.
    ensures r.0 == CaptureUnavailable <==> cause == {}
    ensures r.0 == CaptureUnavailable ==> !r.1
    // A member's authority outranks this unit's own standing at the port, and
    // both keep the row waiting even where the cause also names the record.
    ensures Forbidden in cause && Payload !in cause && Invalid !in cause ==> r == (MemberNotPermitted, false)
    // A row parks at once exactly for a fault of its own.
    ensures r.0 == PayloadUnusable <==> Payload in cause
    ensures r.0 == RefusedByTheCore <==> Invalid in cause && Payload !in cause
    ensures r.0 == RecordGone ==> r.1 && (NotFound in cause || Conflict in cause)
    ensures r.0 == CaptureNotDeclared ==>
              !r.1 && !(cause !! {IngressNotDeclared, AttendedIngest, NestedIngest}) && Forbidden !in cause
    ensures r.0 == MemberNotPermitted ==> !r.1 && Forbidden in cause
    ensures r.1 <==> Payload in cause || Invalid in cause
                     || ((NotFound in cause || Conflict in cause)
                         && cause !! {Forbidden, IngressNotDeclared, AttendedIngest, NestedIngest})
  {
    TheSentinelsAreClosed(cause);
    if Payload in cause then (PayloadUnusable, true)
    else if Invalid in cause then (RefusedByTheCore, true)
    else if Forbidden in cause then (MemberNotPermitted, false)
    else if IngressNotDeclared in cause || AttendedIngest in cause || NestedIngest in cause then
      (CaptureNotDeclared, false)
    else if NotFound in cause || Conflict in cause then (RecordGone, true)
    else (CaptureUnavailable, false)
  }

  function LandedCount(outcomes: seq<Outcome>): nat {
    if outcomes == [] then 0
    else LandedCount(outcomes[..|outcomes| - 1]) + (if outcomes[|outcomes| - 1].Landing? then 1 else 0)
  }

  // The classes landAll collects: the stalls that did not park their row.
  function StalledOnly(o: Outcome): seq<Class> {
    if o.Stall? && !o.terminal then [o.fault] else []
  }

  function Stalled(outcomes: seq<Outcome>): seq<Class> {
    if outcomes == [] then []
    else Stalled(outcomes[..|outcomes| - 1]) + StalledOnly(outcomes[|outcomes| - 1])
  }

  predicate OneClass(stalled: seq<Class>)
    requires stalled != []
  {
    forall i :: 0 <= i < |stalled| ==> stalled[i] == stalled[0]
  }

  function DispositionFor(live: bool, fault: Class): Verdict {
    if fault == CaptureUnavailable && live then Postponed(Shared(fault), POLL_RETRY_SECONDS)
    else Failed(Shared(fault))
  }

  function StallFailure(live: bool, stalled: seq<Class>): Verdict
    requires stalled != []
  {
    if OneClass(stalled) then DispositionFor(live, stalled[0]) else Failed(EveryRequestFailed)
  }

  // What landAll answers for its batch, from the counters it kept.
  function Judge(live: bool, landed: nat, stalled: seq<Class>): Verdict {
    if landed == 0 && stalled != [] then StallFailure(live, stalled) else Done
  }

  function TickVerdict(live: bool, outcomes: seq<Outcome>): Verdict {
    Judge(live, LandedCount(outcomes), Stalled(outcomes))
  }

  /* ----- the verdict as a statement about the outcomes ----- */

  lemma {:induction false} CountersReadTheOutcomes(outcomes: seq<Outcome>)
    ensures LandedCount(outcomes) > 0 <==> Landing in outcomes
    ensures forall c :: c in Stalled(outcomes) <==> Stall(c, false) in outcomes
  {
    if outcomes != [] {
      var init, last := outcomes[..|outcomes| - 1], outcomes[|outcomes| - 1];
      CountersReadTheOutcomes(init);
      assert outcomes == init + [last];
      assert forall o :: o in outcomes <==> o in init || o == last;
    }
  }

  // The tick is done when something landed or nothing kept its row waiting;
  // it postpones itself exactly for a live tick whose every waiting row met
  // the outage; it reports the mixed class exactly when two of them differ.
  lemma WhatTheVerdictMeans(live: bool, outcomes: seq<Outcome>)
    ensures var verdict := TickVerdict(live, outcomes);
            var waiting := Landing !in outcomes && exists c :: Stall(c, false) in outcomes;
            && (verdict == Done <==> !waiting)
            && (verdict.Postponed? <==>
                  waiting && live && forall c :: Stall(c, false) in outcomes ==> c == CaptureUnavailable)
            && (verdict.Postponed? ==> verdict == Postponed(Shared(CaptureUnavailable), 60))
            && (verdict == Failed(EveryRequestFailed) <==>
                  waiting && exists c, d :: c != d && Stall(c, false) in outcomes && Stall(d, false) in outcomes)
            && (forall c :: verdict == Failed(Shared(c)) <==>
                  waiting && !(c == CaptureUnavailable && live)
                  && forall d :: Stall(d, false) in outcomes <==> d == c)
  {
    CountersReadTheOutcomes(outcomes);
    var stalled := Stalled(outcomes);
    if stalled == [] {
      forall c ensures Stall(c, false) !in outcomes {
        assert c !in stalled;
      }
    } else {
      assert stalled[0] in stalled;
      if OneClass(stalled) {
        forall c | c in stalled ensures c == stalled[0] {
        }
      } else {
        var i :| 0 <= i < |stalled| && stalled[i] != stalled[0];
        assert stalled[i] in stalled;
      }
    }
  }

  // Nothing about the order of the batch reaches the verdict.
  lemma TheVerdictIsOrderFree(live: bool, one: seq<Outcome>, other: seq<Outcome>)
    requires multiset(one) == multiset(other)
    ensures TickVerdict(live, one) == TickVerdict(live, other)
  {
    forall o ensures o in one <==> o in other {
      assert o in multiset(one) <==> o in multiset(other);
    }
    WhatTheVerdictMeans(live, one);
    WhatTheVerdictMeans(live, other);
    var v, w := TickVerdict(live, one), TickVerdict(live, other);
    if v.Failed? && v.reported.Shared? {
      assert w == Failed(Shared(v.reported.fault));
    }
    if w.Failed? && w.reported.Shared? {
      assert v == Failed(Shared(w.reported.fault));
    }
  }
}
