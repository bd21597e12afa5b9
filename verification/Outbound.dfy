// The outward half: what one POST's answer is called, the attempt ledger and
// its counter (extensions/openchannel/outbound.go, client.go), and the send
// around it (send.go).
module Outbound {
  import opened Basics
  import Records
  import Inbound

  type Member = Inbound.Member
  type Time = Records.Time

  /* ----- what came back ----- */

  // The sentinels errors.Is can find in a post's failure.
  datatype Sentinel = EgressRefused | Unanswered | Refused

  datatype PostResult = Clean | Failure(matches: set<Sentinel>)

  // What the transport did with one request: it could not be built, no answer
  // came back (because the guard declined the dial, or for any other reason),
  // or the receiver answered.
  datatype Transport = Unbuildable | NoAnswer(blocked: bool) | Answered(status: int)

  function Post(reply: Transport): PostResult {
    match reply
    case Unbuildable => Failure({Refused})
    case NoAnswer(blocked) => if blocked then Failure({EgressRefused}) else Failure({Unanswered})
    case Answered(status) => if status < 200 || status >= 300 then Failure({Refused}) else Clean
  }

  predicate Accepted(reply: Transport) {
    reply.Answered? && 200 <= reply.status < 300
  }

  // The receiver may hold the message after this.
  predicate MayHaveArrived(reply: Transport) {
    Accepted(reply) || reply == NoAnswer(false)
  }

  datatype Outcome = WasSent | WasRefused | IsUnknown

  datatype AttemptFault = DeliveryBlocked | DeliveryUnanswered | DeliveryRefused

  function OutcomeOf(result: PostResult): Outcome {
    if result == Clean then WasSent
    else if EgressRefused in result.matches then WasRefused
    else if Unanswered in result.matches then IsUnknown
    else WasRefused
  }

  function AttemptClass(result: PostResult): Option<AttemptFault> {
    if result == Clean then None
    else if EgressRefused in result.matches then Some(DeliveryBlocked)
    else if Unanswered in result.matches then Some(DeliveryUnanswered)
    else Some(DeliveryRefused)
  }

  // What a send tells the product's ladder. Everything but a receipt and an
  // unknown outcome is an answer the ladder may retry.
  datatype Report =
    | Receipt
    | OutcomeUnknown
    | NotRecorded
    | Declined(matches: set<Sentinel>)
    | NoDeliveryId
    | NothingToSendThrough
    | CouldNotLookUp
    | NotDialable

  predicate Stops(report: Report) {
    report == Receipt || report == OutcomeUnknown
  }

  function TransmissionRefusal(matches: set<Sentinel>): Report {
    if Unanswered in matches then OutcomeUnknown else Declined(matches)
  }

  // What transmit answers once the request has left.
  function ReportOf(result: PostResult, stored: bool): Report {
    if !stored then
      if result == Clean || Unanswered in result.matches then OutcomeUnknown else NotRecorded
    else if result == Clean then Receipt
    else TransmissionRefusal(result.matches)
  }

  // The row says sent exactly for an acceptance and unknown exactly for a
  // request that went out unanswered, and the class it carries says which.
  lemma TheRowSaysWhatHappened(reply: Transport)
    ensures OutcomeOf(Post(reply)) == WasSent <==> Accepted(reply)
    ensures OutcomeOf(Post(reply)) == IsUnknown <==> reply == NoAnswer(false)
    ensures AttemptClass(Post(reply)) == None <==> Accepted(reply)
    ensures AttemptClass(Post(reply)) == Some(DeliveryBlocked) <==> reply == NoAnswer(true)
    ensures AttemptClass(Post(reply)) == Some(DeliveryUnanswered) <==> reply == NoAnswer(false)
  {
  }

  // The ladder is stopped exactly when the receiver may hold the message:
  // whatever storage did with the outcome, no answer that can be retried is
  // given for a message that may have arrived, and none that cannot for one
  // that certainly did not.
  lemma TheLadderStopsExactlyWhenItMayHaveArrived(reply: Transport, stored: bool)
    ensures Stops(ReportOf(Post(reply), stored)) <==> MayHaveArrived(reply)
    ensures ReportOf(Post(reply), stored) == Receipt <==> Accepted(reply) && stored
    ensures ReportOf(Post(reply), stored) == NotRecorded <==> !MayHaveArrived(reply) && !stored
    ensures ReportOf(Post(reply), stored).Declined? <==> !MayHaveArrived(reply) && stored
    ensures ReportOf(Post(reply), stored).Declined? ==>
              ReportOf(Post(reply), stored) == Declined(if reply == NoAnswer(true) then {EgressRefused} else {Refused})
  {
  }

  // The ledger's switch asks for the guard's refusal first and the report's
  // does not ask for it at all: they would disagree about an error matching
  // both sentinels, and about no other.
  lemma TheRowAndTheReportDisagreeExactlyOnBoth(matches: set<Sentinel>)
    ensures (OutcomeOf(Failure(matches)) == IsUnknown <==> TransmissionRefusal(matches) == OutcomeUnknown)
            <==> !(EgressRefused in matches && Unanswered in matches)
    ensures forall reply :: Post(reply) == Failure(matches) ==> !(EgressRefused in matches && Unanswered in matches)
  {
  }

  /* ----- the ledger ----- */

  datatype Attempt = Attempt(owner: Member, delivery: string, number: nat)

  datatype Row = Row(recipient: string, outcome: Outcome, fault: Option<AttemptFault>, createdAt: Time)

  // sent is the endpoint column outbound_sent, by the endpoint's owner.
  datatype Ledger = Ledger(rows: map<Attempt, Row>, sent: map<Member, nat>)

  // One transaction: the upsert keeps the recipient and the instant the row
  // was first written, and the counter moves only when this write is what
  // moves the row to sent.
  function Write(l: Ledger, a: Attempt, recipient: string, outcome: Outcome, fault: Option<AttemptFault>,
                 now: Time): Ledger
    requires a.owner in l.sent
  {
    var wasSent := a in l.rows && l.rows[a].outcome == WasSent;
    var row := if a in l.rows then l.rows[a].(outcome := outcome, fault := fault)
               else Row(recipient, outcome, fault, now);
    Ledger(l.rows[a := row],
           if outcome == WasSent && !wasSent then l.sent[a.owner := l.sent[a.owner] + 1] else l.sent)
  }

  predicate Outlived(createdAt: Time, now: Time) {
    createdAt < now - Inbound.RETAIN_DECIDED
  }

  function Expired(l: Ledger, now: Time): set<Attempt> {
    set a | a in l.rows && Outlived(l.rows[a].createdAt, now)
  }

  function Sweep(l: Ledger, now: Time): Ledger {
    l.(rows := map a | a in l.rows && !Outlived(l.rows[a].createdAt, now) :: l.rows[a])
  }

  // Two calls completing one attempt count it once between them, but a re-run
  // of a completed attempt counts it again: the in-flight write that precedes
  // every post has already taken the row out of sent.
  lemma WhatTheCounterFollows(l: Ledger, a: Attempt, recipient: string, first: Time, second: Time, third: Time)
    requires a.owner in l.sent
    ensures var sent := Write(l, a, recipient, WasSent, None, first);
            && Write(sent, a, recipient, WasSent, None, second) == sent
            && var again := Write(sent, a, recipient, IsUnknown, Some(DeliveryUnanswered), second);
               Write(again, a, recipient, WasSent, None, third).sent[a.owner] == sent.sent[a.owner] + 1
  {
    var sent := Write(l, a, recipient, WasSent, None, first);
    assert Write(sent, a, recipient, WasSent, None, second).rows == sent.rows;
  }

  /* ----- the send ----- */

  // The endpoint columns a send reads, and what the send could find out about
  // the rest.
  datatype Target = Target(enabled: bool, url: string)

  datatype Secret = Held | Missing | Unopenable

  // What stands between a message and its post: the lookup of the endpoint,
  // the grammar of its address, and the secret that signs.
  datatype Standing = Standing(read: bool, endpoint: Option<Target>, postable: bool, secret: Secret)

  datatype Sendable = Ready | ConfirmedNo | LookupFailed

  function SendableBy(s: Standing): Sendable {
    if !s.read then LookupFailed
    else if s.endpoint == None then ConfirmedNo
    else if !s.endpoint.value.enabled then ConfirmedNo
    else if s.endpoint.value.url == "" then ConfirmedNo
    else if !s.postable then ConfirmedNo
    else match s.secret
      case Held => Ready
      case Missing => ConfirmedNo
      case Unopenable => LookupFailed
  }

  // None is an error: the member's standing could not be confirmed.
  function Live(s: Standing): Option<bool> {
    match SendableBy(s)
    case Ready => Some(true)
    case ConfirmedNo => Some(false)
    case LookupFailed => None
  }

  lemma LiveSaysNoExactlyWhenSomethingIsKnownMissing(s: Standing)
    ensures Live(s) == Some(true) <==>
              s.read && s.endpoint.Some? && s.endpoint.value.enabled && s.endpoint.value.url != "" && s.postable
              && s.secret == Held
    ensures Live(s) == None <==>
              !s.read || (s.endpoint.Some? && s.endpoint.value.enabled && s.endpoint.value.url != "" && s.postable
                          && s.secret == Unopenable)
  {
  }

  // The ledger one whole transmission leaves, with nobody else moving.
  function Transmitted(l: Ledger, a: Attempt, recipient: string, reply: Transport, announced: bool, completed: bool,
                       now: Time, later: Time): Ledger
    requires a.owner in l.sent
  {
    if !announced then l
    else
      var before := Write(l, a, recipient, IsUnknown, Some(DeliveryUnanswered), now);
      if !completed then before
      else Write(before, a, recipient, OutcomeOf(Post(reply)), AttemptClass(Post(reply)), later)
  }

  class OutboundStore {
    var rows: map<Attempt, Row>
    var sent: map<Member, nat>

    function Tables(): Ledger
      reads this
    {
      Ledger(rows, sent)
    }

    // stored says whether storage took the write.
    method RecordAttempt(a: Attempt, recipient: string, outcome: Outcome, fault: Option<AttemptFault>, stored: bool,
                         now: Time)
      returns (ok: bool)
      requires a.owner in sent
      modifies this
      ensures ok == stored
      ensures rows.Keys == if stored then old(rows).Keys + {a} else old(rows).Keys
      ensures forall b :: b in old(rows) && b != a ==> rows[b] == old(rows)[b]
      ensures stored ==> a in rows && rows[a].outcome == outcome && rows[a].fault == fault
                         && (rows[a].recipient, rows[a].createdAt)
                            == if a in old(rows) then (old(rows)[a].recipient, old(rows)[a].createdAt)
                              else (recipient, now)
      ensures sent == if stored && outcome == WasSent && !(a in old(rows) && old(rows)[a].outcome == WasSent)
                      then old(sent)[a.owner := old(sent)[a.owner] + 1] else old(sent)
      ensures Tables() == if stored then Write(old(Tables()), a, recipient, outcome, fault, now) else old(Tables())
    {
      if !stored {
        return false;
      }
      var previous: Option<Outcome> := if a in rows then Some(rows[a].outcome) else None;
      if a in rows {
        rows := rows[a := rows[a].(outcome := outcome, fault := fault)];
      } else {
        rows := rows[a := Row(recipient, outcome, fault, now)];
      }
      if outcome == WasSent && previous != Some(WasSent) {
        sent := sent[a.owner := sent[a.owner] + 1];
      }
      return true;
    }

    // posted says whether the request left; announced and completed are what
    // storage did with the two writes around it.
    method Transmit(a: Attempt, recipient: string, reply: Transport, announced: bool, completed: bool, now: Time,
                    later: Time)
      returns (report: Report, posted: bool)
      requires a.owner in sent
      modifies this
      ensures posted == announced
      ensures Tables() == Transmitted(old(Tables()), a, recipient, reply, announced, completed, now, later)
      ensures !announced ==> Tables() == old(Tables()) && report == NotRecorded
      ensures announced ==> a in rows && report == ReportOf(Post(reply), completed)
                            && rows[a].outcome == (if completed then OutcomeOf(Post(reply)) else IsUnknown)
                            && rows[a].fault == (if completed then AttemptClass(Post(reply))
                                                 else Some(DeliveryUnanswered))
                            && (rows[a].recipient, rows[a].createdAt)
                               == if a in old(rows) then (old(rows)[a].recipient, old(rows)[a].createdAt)
                                  else (recipient, now)
      ensures Stops(report) <==> posted && MayHaveArrived(reply)
      ensures rows.Keys == if announced then old(rows).Keys + {a} else old(rows).Keys
      ensures forall b :: b in old(rows) && b != a ==> rows[b] == old(rows)[b]
      ensures sent == if announced && completed && Accepted(reply)
                      then old(sent)[a.owner := old(sent)[a.owner] + 1] else old(sent)
    {
      var ok := RecordAttempt(a, recipient, IsUnknown, Some(DeliveryUnanswered), announced, now);
      if !ok {
        return NotRecorded, false;
      }
      posted := true;
      var result := Post(reply);
      ok := RecordAttempt(a, recipient, OutcomeOf(result), AttemptClass(result), completed, later);
      if !ok {
        if result == Clean || Unanswered in result.matches {
          return OutcomeUnknown, posted;
        }
        return NotRecorded, posted;
      }
      if result != Clean {
        return TransmissionRefusal(result.matches), posted;
      }
      return Receipt, posted;
    }

    method SendVia(a: Attempt, recipient: string, standing: Standing, dialable: bool, reply: Transport,
                   announced: bool, completed: bool, now: Time, later: Time)
      returns (report: Report, posted: bool)
      requires SendableBy(standing) == Ready ==> a.owner in sent
      modifies this
      ensures posted <==> a.delivery != "" && SendableBy(standing) == Ready && dialable && announced
      ensures !posted ==> Tables() == old(Tables())
      // The row of a post is the attempt's own: to the recipient and of the
      // instant it was first written with, sent exactly for an acceptance that
      // was recorded, unknown exactly while no answer was; and no other row
      // moves.
      ensures posted ==>
                && a in rows
                && (rows[a].recipient, rows[a].createdAt)
                   == (if a in old(rows) then (old(rows)[a].recipient, old(rows)[a].createdAt) else (recipient, now))
                && (rows[a].outcome == WasSent <==> Accepted(reply) && completed)
                && (rows[a].outcome == IsUnknown <==> !completed || reply == NoAnswer(false))
                && rows[a].fault == if !completed || reply == NoAnswer(false) then Some(DeliveryUnanswered)
                                    else if reply == NoAnswer(true) then Some(DeliveryBlocked)
                                    else if Accepted(reply) then None
                                    else Some(DeliveryRefused)
      ensures posted ==> rows.Keys == old(rows).Keys + {a}
      ensures posted ==> forall b :: b in old(rows) && b != a ==> rows[b] == old(rows)[b]
      ensures sent == if posted && Accepted(reply) && completed then old(sent)[a.owner := old(sent)[a.owner] + 1]
                      else old(sent)
      ensures report == NoDeliveryId <==> a.delivery == ""
      ensures report == NotDialable <==> a.delivery != "" && Live(standing) == Some(true) && !dialable
      ensures report == NotRecorded <==>
                a.delivery != "" && Live(standing) == Some(true) && dialable
                && (!announced || (!completed && !MayHaveArrived(reply)))
      ensures Stops(report) <==> posted && MayHaveArrived(reply)
      ensures report == Receipt <==> posted && Accepted(reply) && completed
      ensures report == NothingToSendThrough <==> a.delivery != "" && Live(standing) == Some(false)
      ensures report == CouldNotLookUp <==> a.delivery != "" && Live(standing) == None
    {
      if a.delivery == "" {
        return NoDeliveryId, false;
      }
      match SendableBy(standing) {
        case ConfirmedNo => return NothingToSendThrough, false;
        case LookupFailed => return CouldNotLookUp, false;
        case Ready =>
      }
      if !dialable {
        return NotDialable, false;
      }
      report, posted := Transmit(a, recipient, reply, announced, completed, now, later);
    }

    // An attempt goes exactly when its row was first written over thirty days
    // ago, whatever was written over it since; nothing else changes.
    method SweepLedger(now: Time)
      modifies this`rows
      ensures forall a :: a in rows <==> a in old(rows) && now - old(rows)[a].createdAt <= 30 * 86400
      ensures forall a :: a in rows ==> rows[a] == old(rows)[a]
      ensures Tables() == Sweep(old(Tables()), now)
    {
      rows := map a | a in rows && !Outlived(rows[a].createdAt, now) :: rows[a];
    }
  }
}
