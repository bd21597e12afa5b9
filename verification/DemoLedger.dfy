// The demonstration ledger of one customer (extensions/finance-demo/ledger.go):
// thirty-nine fortnightly invoices back from the anchor, paid the way the
// customer pays, and one credit note.
//
// Dates are days; every date the generator makes is a whole number of days
// from the anchor. The random source is any stream of numbers.
module DemoLedger {
  import opened Basics

  const INVOICE_COUNT := 39
  const CADENCE_DAYS := 14
  const CREDIT_NOTE_DELAY_DAYS := 14
  const PAYMENT_TERM_DAYS := 30
  const VAT_PERCENT := 19
  const AMOUNT_FLOOR := 800
  const AMOUNT_SPREAD := 9000

  datatype Archetype = Archetype(lateLow: int, lateHigh: int, disputeRate: nat, openTail: nat)

  const ARCHETYPES := [Archetype(-6, 2, 0, 1), Archetype(-2, 12, 30, 2), Archetype(5, 38, 40, 3)]

  datatype Invoice = Invoice(
    externalId: string,
    number: string,
    issuedOn: int,
    dueOn: Option<int>,
    netMinor: int,
    taxMinor: int,
    grossMinor: int,
    paidMinor: int,
    fullyPaidAt: Option<int>,
    disputed: bool,
    credits: Option<string>)

  datatype Payment = Payment(externalId: string, invoiceExternalId: string, paidAt: int, amountMinor: int)

  datatype Ledger = Ledger(invoices: seq<Invoice>, payments: seq<Payment>)

  datatype LedgerError = NoCustomer

  type Stream = nat -> nat

  class Source {
    const stream: Stream
    var pos: nat

    constructor (stream: Stream)
      ensures this.stream == stream && pos == 0
    {
      this.stream, pos := stream, 0;
    }

    method IntN(n: nat) returns (r: nat)
      requires n > 0
      modifies this
      ensures r == Draw(stream, old(pos), n) && pos == old(pos) + 1
    {
      r := stream(pos) % n;
      pos := pos + 1;
    }
  }

  function Draw(stream: Stream, pos: nat, n: nat): (r: nat)
    requires n > 0
    ensures r < n
  {
    stream(pos) % n
  }

  function Digit(n: nat): char {
    ('0' as int + n % 10) as char
  }

  function FourDigits(n: nat): string {
    [Digit(n / 1000), Digit(n / 100), Digit(n / 10), Digit(n)]
  }

  function ThreeDigits(n: nat): string {
    [Digit(n / 100), Digit(n / 10), Digit(n)]
  }

  // Go's division truncates towards zero.
  function Quotient(a: int, b: int): int
    requires b > 0
  {
    if a >= 0 then a / b else -((-a) / b)
  }

  /* ----- one invoice ----- */

  // What a customer is billed under, and where the dates count back from. The
  // year of a day is the calendar's.
  datatype Terms = Terms(customer: string, kind: Archetype, anchor: int, yearOf: int -> string)

  // The invoice of one period before it is settled, its euros drawn at pos.
  function Drafted(t: Terms, period: nat, stream: Stream, pos: nat): Invoice
    requires period < INVOICE_COUNT
  {
    var issued := t.anchor - period * CADENCE_DAYS;
    var net := (Draw(stream, pos, AMOUNT_SPREAD) + AMOUNT_FLOOR) * 100;
    var tax := Quotient(net * VAT_PERCENT, 100);
    Invoice(t.customer + "-INV-" + FourDigits(INVOICE_COUNT - period),
            "INV-" + t.yearOf(issued) + "-" + ThreeDigits(INVOICE_COUNT - period),
            issued, Some(issued + PAYMENT_TERM_DAYS), net, tax, net + tax, 0, None, false, None)
  }

  function Disputes(t: Terms, stream: Stream, pos: nat): bool {
    Draw(stream, pos, 1000) < t.kind.disputeRate
  }

  function LateBy(t: Terms, stream: Stream, pos: nat): (late: int)
    requires t.kind.lateLow <= t.kind.lateHigh
    ensures t.kind.lateLow <= late <= t.kind.lateHigh
  {
    t.kind.lateLow + Draw(stream, pos, t.kind.lateHigh - t.kind.lateLow + 1)
  }

  function Settled(t: Terms, invoice: Invoice, due: int, stream: Stream, pos: nat): (Invoice, nat)
    requires t.kind.lateLow <= t.kind.lateHigh
  {
    if Disputes(t, stream, pos) then (invoice.(disputed := true), pos + 1)
    else
      var paid := due + LateBy(t, stream, pos + 1);
      (if paid > t.anchor then invoice
       else invoice.(fullyPaidAt := Some(paid), paidMinor := invoice.grossMinor), pos + 2)
  }

  function Billed(t: Terms, period: nat, stream: Stream, pos: nat): (Invoice, nat)
    requires period < INVOICE_COUNT && t.kind.lateLow <= t.kind.lateHigh
  {
    var invoice := Drafted(t, period, stream, pos);
    if period >= t.kind.openTail then Settled(t, invoice, invoice.dueOn.value, stream, pos + 1) else (invoice, pos + 1)
  }

  function PaymentOf(invoice: Invoice): seq<Payment> {
    if invoice.fullyPaidAt == None then []
    else [Payment(invoice.externalId + "-PMT", invoice.externalId, invoice.fullyPaidAt.value, invoice.grossMinor)]
  }

  // The first n invoices, oldest first, and where the stream then stands.
  function BilledUpTo(t: Terms, n: nat, stream: Stream, pos: nat): (seq<Invoice>, nat)
    requires n <= INVOICE_COUNT && t.kind.lateLow <= t.kind.lateHigh
  {
    if n == 0 then ([], pos)
    else
      var (before, at) := BilledUpTo(t, n - 1, stream, pos);
      var (invoice, at') := Billed(t, INVOICE_COUNT - n, stream, at);
      (before + [invoice], at')
  }

  function PaymentsOf(invoices: seq<Invoice>): seq<Payment> {
    if invoices == [] then [] else PaymentsOf(invoices[..|invoices| - 1]) + PaymentOf(invoices[|invoices| - 1])
  }

  // How many invoices at the front of the list are old enough.
  function Eligible(invoices: seq<Invoice>, anchor: int): (n: nat)
    ensures n <= |invoices|
  {
    if invoices == [] || invoices[0].issuedOn + CREDIT_NOTE_DELAY_DAYS > anchor then 0
    else 1 + Eligible(invoices[1..], anchor)
  }

  function CreditNote(customer: string, target: Invoice): Invoice {
    var amount := Quotient(target.netMinor, 4);
    Invoice(customer + "-CN-1", "CN-" + target.number, target.issuedOn + CREDIT_NOTE_DELAY_DAYS, None,
            amount, 0, amount, 0, None, false, Some(target.externalId))
  }

  /* ----- the generator ----- */

  method Settle(invoice: Invoice, t: Terms, due: int, source: Source) returns (settled: Invoice)
    requires t.kind.lateLow <= t.kind.lateHigh
    modifies source
    ensures (settled, source.pos) == Settled(t, invoice, due, source.stream, old(source.pos))
    // A first roll out of a thousand disputes it; a second says how late it is
    // paid, and it stays open where that is after the anchor.
    ensures var disputes := source.stream(old(source.pos)) % 1000 < t.kind.disputeRate;
            var days := source.stream(old(source.pos) + 1) % (t.kind.lateHigh - t.kind.lateLow + 1);
            var paid := due + t.kind.lateLow + days;
            && settled == (if disputes then invoice.(disputed := true)
                           else if paid > t.anchor then invoice
                           else invoice.(fullyPaidAt := Some(paid), paidMinor := invoice.grossMinor))
            && source.pos == old(source.pos) + if disputes then 1 else 2
  {
    settled := invoice;
    var roll := source.IntN(1000);
    if roll < t.kind.disputeRate {
      settled := settled.(disputed := true);
      return;
    }
    var late := source.IntN(t.kind.lateHigh - t.kind.lateLow + 1);
    var paid := due + (t.kind.lateLow + late);
    if paid > t.anchor {
      return;
    }
    settled := settled.(fullyPaidAt := Some(paid), paidMinor := settled.grossMinor);
  }

  // One period's invoice, settled unless it is in the open tail.
  method Bill(t: Terms, period: nat, source: Source) returns (invoice: Invoice)
    requires period < INVOICE_COUNT && t.kind.lateLow <= t.kind.lateHigh
    modifies source
    ensures (invoice, source.pos) == Billed(t, period, source.stream, old(source.pos))
  {
    var issued := t.anchor - period * CADENCE_DAYS;
    var due := issued + PAYMENT_TERM_DAYS;
    var euros := source.IntN(AMOUNT_SPREAD);
    var net := (euros + AMOUNT_FLOOR) * 100;
    var tax := Quotient(net * VAT_PERCENT, 100);
    invoice := Invoice(t.customer + "-INV-" + FourDigits(INVOICE_COUNT - period),
                       "INV-" + t.yearOf(issued) + "-" + ThreeDigits(INVOICE_COUNT - period),
                       issued, Some(due), net, tax, net + tax, 0, None, false, None);
    if period >= t.kind.openTail {
      invoice := Settle(invoice, t, due, source);
    }
  }

  method EligibleFor(invoices: seq<Invoice>, anchor: int) returns (eligible: nat)
    ensures eligible == Eligible(invoices, anchor)
  {
    eligible := 0;
    for i := 0 to |invoices|
      invariant eligible == i && Eligible(invoices, anchor) == i + Eligible(invoices[i..], anchor)
    {
      if invoices[i].issuedOn + CREDIT_NOTE_DELAY_DAYS > anchor {
        break;
      }
      assert invoices[i..][1..] == invoices[i + 1..];
      eligible := eligible + 1;
    }
  }

  // The note for a target the stream picks among the eligible.
  function NoteFor(invoices: seq<Invoice>, t: Terms, stream: Stream, pos: nat): Invoice
    requires Eligible(invoices, t.anchor) > 0
  {
    CreditNote(t.customer, invoices[Draw(stream, pos, Eligible(invoices, t.anchor))])
  }

  method CreditNoteFor(invoices: seq<Invoice>, t: Terms, source: Source) returns (note: Invoice)
    requires Eligible(invoices, t.anchor) > 0
    modifies source
    ensures note == NoteFor(invoices, t, source.stream, old(source.pos))
    // A quarter of its target's net, fourteen days after it, named after it.
    ensures var target := invoices[source.stream(old(source.pos)) % Eligible(invoices, t.anchor)];
            && note.externalId == t.customer + "-CN-1" && note.number == "CN-" + target.number
            && note.issuedOn == target.issuedOn + 14 && note.dueOn == None
            && (target.netMinor >= 0 ==> note.netMinor == target.netMinor / 4)
            && note.taxMinor == 0 && note.grossMinor == note.netMinor
            && note.paidMinor == 0 && note.fullyPaidAt == None && !note.disputed
            && note.credits == Some(target.externalId)
  {
    var eligible := EligibleFor(invoices, t.anchor);
    var pick := source.IntN(eligible);
    return CreditNote(t.customer, invoices[pick]);
  }

  // The whole ledger as a function of its stream.
  function Generated(t: Terms, stream: Stream): Ledger
    requires t.kind.lateLow <= t.kind.lateHigh
    requires Eligible(BilledUpTo(t, INVOICE_COUNT, stream, 1).0, t.anchor) > 0
  {
    var (invoices, pos) := BilledUpTo(t, INVOICE_COUNT, stream, 1);
    Ledger(invoices + [NoteFor(invoices, t, stream, pos)], PaymentsOf(invoices))
  }

  function TermsFor(customer: string, anchor: int, yearOf: int -> string, stream: Stream): (t: Terms)
    ensures t.kind in ARCHETYPES && t.kind.lateLow <= t.kind.lateHigh
  {
    Terms(customer, ARCHETYPES[Draw(stream, 0, |ARCHETYPES|)], anchor, yearOf)
  }

  lemma OneMorePaymentsOf(invoices: seq<Invoice>, inv: Invoice)
    ensures PaymentsOf(invoices + [inv]) == if inv.fullyPaidAt == None then PaymentsOf(invoices)
                                            else PaymentsOf(invoices) + PaymentOf(inv)
  {
    assert (invoices + [inv])[..|invoices|] == invoices;
  }

  lemma OneMoreBilled(t: Terms, n: nat, stream: Stream, pos: nat)
    requires n < INVOICE_COUNT && t.kind.lateLow <= t.kind.lateHigh
    ensures var (before, at) := BilledUpTo(t, n, stream, pos);
            var (invoice, at') := Billed(t, INVOICE_COUNT - 1 - n, stream, at);
            BilledUpTo(t, n + 1, stream, pos) == (before + [invoice], at')
  {
  }

  // The next period's invoice, after those already billed.
  method BillNext(t: Terms, ghost start: nat, invoices: seq<Invoice>, payments: seq<Payment>, source: Source)
    returns (invoices': seq<Invoice>, payments': seq<Payment>)
    requires |invoices| < INVOICE_COUNT && t.kind.lateLow <= t.kind.lateHigh
    requires (invoices, source.pos) == BilledUpTo(t, |invoices|, source.stream, start)
    requires payments == PaymentsOf(invoices)
    modifies source
    ensures |invoices'| == |invoices| + 1 && payments' == PaymentsOf(invoices')
    ensures (invoices', source.pos) == BilledUpTo(t, |invoices'|, source.stream, start)
  {
    OneMoreBilled(t, |invoices|, source.stream, start);
    var invoice := Bill(t, INVOICE_COUNT - 1 - |invoices|, source);
    OneMorePaymentsOf(invoices, invoice);
    invoices', payments' := invoices + [invoice], payments;
    if invoice.fullyPaidAt != None {
      payments' := payments + PaymentOf(invoice);
    }
  }

  // Oldest first, so the open tail is the recent end.
  method BillEveryPeriod(t: Terms, source: Source) returns (invoices: seq<Invoice>, payments: seq<Payment>)
    requires t.kind.lateLow <= t.kind.lateHigh
    modifies source
    ensures |invoices| == INVOICE_COUNT && payments == PaymentsOf(invoices)
    ensures (invoices, source.pos) == BilledUpTo(t, |invoices|, source.stream, old(source.pos))
  {
    invoices, payments := [], [];
    var period := INVOICE_COUNT - 1;
    while period >= 0
      invariant -1 <= period < INVOICE_COUNT && |invoices| == INVOICE_COUNT - 1 - period
      invariant (invoices, source.pos) == BilledUpTo(t, |invoices|, source.stream, old(source.pos))
      invariant payments == PaymentsOf(invoices)
    {
      invoices, payments := BillNext(t, old(source.pos), invoices, payments, source);
      period := period - 1;
    }
  }

  method Generate(customer: string, anchor: int, yearOf: int -> string, source: Source)
    returns (ledger: Result<Ledger, LedgerError>)
    requires source.pos == 0
    modifies source
    ensures ledger.Err? <==> customer == ""
    ensures var t := TermsFor(customer, anchor, yearOf, source.stream);
            && Eligible(BilledUpTo(t, INVOICE_COUNT, source.stream, 1).0, anchor) > 0
            && (ledger.Ok? ==> ledger.value == Generated(t, source.stream))
  {
    ghost var t := TermsFor(customer, anchor, yearOf, source.stream);
    TheScanCountsThirtyEight(t, source.stream, 1);
    if customer == "" {
      return Err(NoCustomer);
    }
    var roll := source.IntN(|ARCHETYPES|);
    var terms := Terms(customer, ARCHETYPES[roll], anchor, yearOf);
    assert terms == t;
    var invoices, payments := BillEveryPeriod(terms, source);
    var note := CreditNoteFor(invoices, terms, source);
    return Ok(Ledger(invoices + [note], payments));
  }

  /* ----- what every generated ledger holds ----- */

  // Whole euros between the floor and the floor plus the spread, in cents; so
  // the nineteen per cent and the quarter taken of it lose nothing.
  predicate ExactAmounts(inv: Invoice) {
    && inv.netMinor % 100 == 0 && 800_00 <= inv.netMinor < 9800_00
    && inv.taxMinor * 100 == inv.netMinor * 19
    && inv.grossMinor == inv.netMinor + inv.taxMinor
    && Quotient(inv.netMinor, 4) * 4 == inv.netMinor
  }

  // Open, disputed, or paid in full after it was issued and by the anchor,
  // within the days this customer settles in.
  predicate Consistent(t: Terms, period: nat, inv: Invoice) {
    && inv.issuedOn == t.anchor - 14 * period && inv.dueOn == Some(inv.issuedOn + 30)
    && (inv.fullyPaidAt == None ==> inv.paidMinor == 0)
    && (inv.fullyPaidAt.Some? ==>
          && !inv.disputed && inv.paidMinor == inv.grossMinor
          && inv.issuedOn < inv.fullyPaidAt.value <= t.anchor
          && t.kind.lateLow <= inv.fullyPaidAt.value - inv.dueOn.value <= t.kind.lateHigh)
    && (period < t.kind.openTail ==> inv.fullyPaidAt == None && !inv.disputed)
    && (!inv.disputed && 14 * period >= 30 + t.kind.lateHigh ==> inv.fullyPaidAt.Some?)
    && (t.kind.disputeRate == 0 ==> !inv.disputed)
  }

  lemma ABilledInvoiceIsConsistent(t: Terms, period: nat, stream: Stream, pos: nat)
    requires period < INVOICE_COUNT && t.kind in ARCHETYPES
    ensures t.kind.lateLow <= t.kind.lateHigh
    ensures var inv := Billed(t, period, stream, pos).0;
            ExactAmounts(inv) && Consistent(t, period, inv)
              && inv.externalId == t.customer + "-INV-" + FourDigits(INVOICE_COUNT - period)
  {
    assert t.kind == ARCHETYPES[0] || t.kind == ARCHETYPES[1] || t.kind == ARCHETYPES[2];
    var euros := Draw(stream, pos, AMOUNT_SPREAD) + AMOUNT_FLOOR;
    assert euros * 100 * 19 / 100 == euros * 19;
    assert euros * 100 / 4 == euros * 25;
  }

  // What the invoice at place i of a ledger is, oldest first.
  predicate StandsInPlace(t: Terms, i: nat, inv: Invoice)
    requires i < INVOICE_COUNT
  {
    ExactAmounts(inv) && Consistent(t, INVOICE_COUNT - 1 - i, inv)
    && inv.externalId == t.customer + "-INV-" + FourDigits(i + 1)
  }

  predicate AllInPlace(t: Terms, invoices: seq<Invoice>) {
    |invoices| <= INVOICE_COUNT && forall i :: 0 <= i < |invoices| ==> StandsInPlace(t, i, invoices[i])
  }

  lemma OneMoreInPlace(t: Terms, invoices: seq<Invoice>, inv: Invoice)
    requires |invoices| < INVOICE_COUNT && AllInPlace(t, invoices) && StandsInPlace(t, |invoices|, inv)
    ensures AllInPlace(t, invoices + [inv])
  {
  }

  lemma TheNextStandsInPlace(t: Terms, before: seq<Invoice>, stream: Stream, at: nat)
    requires t.kind in ARCHETYPES && t.kind.lateLow <= t.kind.lateHigh
    requires |before| < INVOICE_COUNT && AllInPlace(t, before)
    ensures AllInPlace(t, before + [Billed(t, INVOICE_COUNT - 1 - |before|, stream, at).0])
  {
    ABilledInvoiceIsConsistent(t, INVOICE_COUNT - 1 - |before|, stream, at);
    OneMoreInPlace(t, before, Billed(t, INVOICE_COUNT - 1 - |before|, stream, at).0);
  }

  lemma OneMoreBill(t: Terms, n: nat, stream: Stream, pos: nat)
    requires n < INVOICE_COUNT && t.kind in ARCHETYPES && t.kind.lateLow <= t.kind.lateHigh
    requires |BilledUpTo(t, n, stream, pos).0| == n && AllInPlace(t, BilledUpTo(t, n, stream, pos).0)
    ensures |BilledUpTo(t, n + 1, stream, pos).0| == n + 1 && AllInPlace(t, BilledUpTo(t, n + 1, stream, pos).0)
  {
    OneMoreBilled(t, n, stream, pos);
    TheNextStandsInPlace(t, BilledUpTo(t, n, stream, pos).0, stream, BilledUpTo(t, n, stream, pos).1);
  }

  lemma {:induction false} EveryInvoiceIsConsistent(t: Terms, n: nat, stream: Stream, pos: nat)
    requires n <= INVOICE_COUNT && t.kind in ARCHETYPES && t.kind.lateLow <= t.kind.lateHigh
    ensures |BilledUpTo(t, n, stream, pos).0| == n && AllInPlace(t, BilledUpTo(t, n, stream, pos).0)
  {
    if n > 0 {
      EveryInvoiceIsConsistent(t, n - 1, stream, pos);
      OneMoreBill(t, n - 1, stream, pos);
    }
  }

  lemma {:induction false} EligibleInOrder(invoices: seq<Invoice>, anchor: int, k: nat)
    requires k <= |invoices|
    requires forall i :: 0 <= i < k ==> invoices[i].issuedOn + CREDIT_NOTE_DELAY_DAYS <= anchor
    requires k < |invoices| ==> invoices[k].issuedOn + CREDIT_NOTE_DELAY_DAYS > anchor
    ensures Eligible(invoices, anchor) == k
  {
    if k > 0 {
      EligibleInOrder(invoices[1..], anchor, k - 1);
    }
  }

  // Only the newest invoice is too young for a credit note, on every anchor
  // and every stream.
  lemma TheScanCountsThirtyEight(t: Terms, stream: Stream, pos: nat)
    requires t.kind in ARCHETYPES && t.kind.lateLow <= t.kind.lateHigh
    ensures Eligible(BilledUpTo(t, INVOICE_COUNT, stream, pos).0, t.anchor) == 38
  {
    EveryInvoiceIsConsistent(t, INVOICE_COUNT, stream, pos);
    EligibleInOrder(BilledUpTo(t, INVOICE_COUNT, stream, pos).0, t.anchor, 38);
  }

  lemma DigitTellsApart(m: nat, n: nat)
    ensures Digit(m) == Digit(n) <==> m % 10 == n % 10
  {
  }

  lemma FourParts(n: nat)
    requires n < 10000
    ensures n == (n / 1000 % 10) * 1000 + (n / 100 % 10) * 100 + (n / 10 % 10) * 10 + n % 10
  {
    assert n / 100 == n / 1000 * 10 + n / 100 % 10;
    assert n / 10 == n / 100 * 10 + n / 10 % 10;
  }

  lemma FourDigitsTellApart(m: nat, n: nat)
    requires m < 10000 && n < 10000
    ensures FourDigits(m) == FourDigits(n) <==> m == n
  {
    if FourDigits(m) == FourDigits(n) {
      var a, b := FourDigits(m), FourDigits(n);
      assert a[0] == b[0] && a[1] == b[1] && a[2] == b[2] && a[3] == b[3];
      DigitTellsApart(m / 1000, n / 1000);
      DigitTellsApart(m / 100, n / 100);
      DigitTellsApart(m / 10, n / 10);
      DigitTellsApart(m, n);
      FourParts(m);
      FourParts(n);
    }
  }

  // Four digits, or three, with their zeros, and the number they stand for.
  lemma TheDigitsAre(n: nat)
    requires n < 1000
    ensures |FourDigits(n)| == 4 && |ThreeDigits(n)| == 3 && FourDigits(n) == "0" + ThreeDigits(n)
    ensures forall k :: 0 <= k < 3 ==> '0' <= ThreeDigits(n)[k] <= '9'
    ensures var d := ThreeDigits(n);
            n == 100 * (d[0] as int - 0x30) + 10 * (d[1] as int - 0x30) + (d[2] as int - 0x30)
  {
    FourParts(n);
  }

  // One period's invoice as it is issued: its dates, its amount by one roll,
  // and its names.
  lemma WhatAnInvoiceSays(t: Terms, period: nat, stream: Stream, pos: nat)
    requires period < 39
    ensures var inv := Drafted(t, period, stream, pos);
            && inv.issuedOn == t.anchor - 14 * period && inv.dueOn == Some(inv.issuedOn + 30)
            && inv.netMinor == (stream(pos) % 9000 + 800) * 100
            && inv.taxMinor * 100 == inv.netMinor * 19 && inv.grossMinor == inv.netMinor + inv.taxMinor
            && inv.externalId == t.customer + "-INV-" + FourDigits(39 - period)
            && inv.number == "INV-" + t.yearOf(inv.issuedOn) + "-" + ThreeDigits(39 - period)
            && inv.credits == None
  {
    var euros := Draw(stream, pos, AMOUNT_SPREAD) + AMOUNT_FLOOR;
    assert Drafted(t, period, stream, pos).netMinor == euros * 100;
    assert Quotient(euros * 100 * VAT_PERCENT, 100) == euros * VAT_PERCENT;
  }

  // It is settled by the rolls after that, unless it is one of the newest few.
  lemma WhatSettlesAnInvoice(t: Terms, period: nat, stream: Stream, pos: nat)
    requires period < 39 && t.kind.lateLow <= t.kind.lateHigh
    ensures var (inv, at) := Billed(t, period, stream, pos);
            var issued := Drafted(t, period, stream, pos);
            var paid := issued.issuedOn + 30 + t.kind.lateLow
                        + stream(pos + 2) % (t.kind.lateHigh - t.kind.lateLow + 1);
            if period < t.kind.openTail then inv == issued && at == pos + 1
            else if stream(pos + 1) % 1000 < t.kind.disputeRate then inv == issued.(disputed := true) && at == pos + 2
            else if paid > t.anchor then inv == issued && at == pos + 3
            else inv == issued.(fullyPaidAt := Some(paid), paidMinor := issued.grossMinor) && at == pos + 3
  {
    var issued := Drafted(t, period, stream, pos);
    assert issued.dueOn == Some(issued.issuedOn + 30);
  }

  // How the customer pays is the first roll, out of three.
  lemma TheKindIs(customer: string, anchor: int, yearOf: int -> string, stream: Stream)
    ensures var t := TermsFor(customer, anchor, yearOf, stream);
            && t.customer == customer && t.anchor == anchor && t.yearOf == yearOf
            && (stream(0) % 3 == 0 ==> t.kind == Archetype(-6, 2, 0, 1))
            && (stream(0) % 3 == 1 ==> t.kind == Archetype(-2, 12, 30, 2))
            && (stream(0) % 3 == 2 ==> t.kind == Archetype(5, 38, 40, 3))
  {
  }

  lemma IdsTellApart(customer: string, m: nat, n: nat)
    requires m < 10000 && n < 10000
    ensures customer + "-INV-" + FourDigits(m) == customer + "-INV-" + FourDigits(n) <==> m == n
  {
    var head := customer + "-INV-";
    FourDigitsTellApart(m, n);
    assert (head + FourDigits(m))[|head|..] == FourDigits(m) && (head + FourDigits(n))[|head|..] == FourDigits(n);
  }

  // A payment is what this invoice was paid.
  predicate Pays(payment: Payment, inv: Invoice) {
    && payment.externalId == inv.externalId + "-PMT"
    && payment.invoiceExternalId == inv.externalId && inv.fullyPaidAt == Some(payment.paidAt)
    && payment.amountMinor == inv.grossMinor == inv.paidMinor
  }

  predicate ForSome(payment: Payment, invoices: seq<Invoice>) {
    exists i :: 0 <= i < |invoices| && Pays(payment, invoices[i])
  }

  predicate PaidBySome(inv: Invoice, payments: seq<Payment>) {
    exists k :: 0 <= k < |payments| && Pays(payments[k], inv)
  }

  predicate OneToOne(invoices: seq<Invoice>, payments: seq<Payment>) {
    && (forall k :: 0 <= k < |payments| ==> ForSome(payments[k], invoices))
    && (forall i :: 0 <= i < |invoices| ==> (invoices[i].fullyPaidAt.Some? <==> PaidBySome(invoices[i], payments)))
    && (forall j, k :: 0 <= j < k < |payments| ==> payments[j].invoiceExternalId != payments[k].invoiceExternalId)
  }

  predicate DifferentIds(invoices: seq<Invoice>) {
    forall i, j :: 0 <= i < j < |invoices| ==> invoices[i].externalId != invoices[j].externalId
  }

  function TotalPaid(invoices: seq<Invoice>): int {
    if invoices == [] then 0 else TotalPaid(invoices[..|invoices| - 1]) + invoices[|invoices| - 1].paidMinor
  }

  function TotalPayments(payments: seq<Payment>): int {
    if payments == [] then 0 else TotalPayments(payments[..|payments| - 1]) + payments[|payments| - 1].amountMinor
  }

  lemma AmongMoreInvoices(payment: Payment, invoices: seq<Invoice>, inv: Invoice)
    requires ForSome(payment, invoices)
    ensures ForSome(payment, invoices + [inv])
    ensures DifferentIds(invoices + [inv]) ==> payment.invoiceExternalId != inv.externalId
  {
    var i :| 0 <= i < |invoices| && Pays(payment, invoices[i]);
    assert (invoices + [inv])[i] == invoices[i] && (invoices + [inv])[|invoices|] == inv;
  }

  lemma AmongMorePayments(inv: Invoice, payments: seq<Payment>, more: seq<Payment>)
    requires PaidBySome(inv, payments)
    ensures PaidBySome(inv, payments + more)
  {
    var k :| 0 <= k < |payments| && Pays(payments[k], inv);
    assert (payments + more)[k] == payments[k];
  }

  lemma OneMoreInvoice(invoices: seq<Invoice>, payments: seq<Payment>, inv: Invoice)
    requires OneToOne(invoices, payments) && DifferentIds(invoices + [inv])
    requires inv.fullyPaidAt.Some? ==> inv.paidMinor == inv.grossMinor
    ensures OneToOne(invoices + [inv], payments + PaymentOf(inv))
  {
    var longer, paid := invoices + [inv], payments + PaymentOf(inv);
    assert longer[|invoices|] == inv;
    forall k | 0 <= k < |payments|
      ensures ForSome(payments[k], longer) && payments[k].invoiceExternalId != inv.externalId
    {
      AmongMoreInvoices(payments[k], invoices, inv);
    }
    if inv.fullyPaidAt.Some? {
      assert Pays(paid[|payments|], longer[|invoices|]);
      assert ForSome(paid[|payments|], longer) && PaidBySome(inv, paid);
    }
    forall i | 0 <= i < |invoices| ensures invoices[i].fullyPaidAt.Some? <==> PaidBySome(invoices[i], paid) {
      if invoices[i].fullyPaidAt.Some? {
        AmongMorePayments(invoices[i], payments, PaymentOf(inv));
      }
    }
    forall k | 0 <= k < |paid| ensures ForSome(paid[k], longer) {
      assert k < |payments| ==> paid[k] == payments[k];
    }
    forall i | 0 <= i < |longer| ensures longer[i].fullyPaidAt.Some? <==> PaidBySome(longer[i], paid) {
      assert i < |invoices| ==> longer[i] == invoices[i];
    }
  }

  predicate PaidOrNot(inv: Invoice) {
    inv.paidMinor == if inv.fullyPaidAt.Some? then inv.grossMinor else 0
  }

  lemma OneMoreTotal(invoices: seq<Invoice>, inv: Invoice)
    requires PaidOrNot(inv)
    requires TotalPaid(invoices) == TotalPayments(PaymentsOf(invoices))
    ensures TotalPaid(invoices + [inv]) == TotalPayments(PaymentsOf(invoices + [inv]))
  {
    assert (invoices + [inv])[..|invoices|] == invoices;
    OneMorePaymentsOf(invoices, inv);
    if inv.fullyPaidAt.Some? {
      var before, payment := PaymentsOf(invoices), PaymentOf(inv)[0];
      assert PaymentOf(inv) == [payment];
      assert (before + [payment])[..|before|] == before;
    }
  }

  lemma OneMoreMatched(invoices: seq<Invoice>, inv: Invoice)
    requires DifferentIds(invoices + [inv]) && PaidOrNot(inv) && OneToOne(invoices, PaymentsOf(invoices))
    ensures OneToOne(invoices + [inv], PaymentsOf(invoices + [inv]))
  {
    OneMoreInvoice(invoices, PaymentsOf(invoices), inv);
    OneMorePaymentsOf(invoices, inv);
    if inv.fullyPaidAt == None {
      assert PaymentsOf(invoices) + PaymentOf(inv) == PaymentsOf(invoices);
    }
  }

  predicate Matched(invoices: seq<Invoice>) {
    && OneToOne(invoices, PaymentsOf(invoices))
    && TotalPaid(invoices) == TotalPayments(PaymentsOf(invoices))
  }

  lemma OneMoreBillMatched(invoices: seq<Invoice>, inv: Invoice)
    requires Matched(invoices) && PaidOrNot(inv) && DifferentIds(invoices + [inv])
    ensures Matched(invoices + [inv])
  {
    OneMoreMatched(invoices, inv);
    OneMoreTotal(invoices, inv);
  }

  lemma {:induction false} PaymentsMatch(invoices: seq<Invoice>, n: nat)
    requires n <= |invoices| && DifferentIds(invoices) && forall i :: 0 <= i < |invoices| ==> PaidOrNot(invoices[i])
    ensures Matched(invoices[..n])
  {
    if n > 0 {
      PaymentsMatch(invoices, n - 1);
      assert invoices[..n] == invoices[..n - 1] + [invoices[n - 1]];
      OneMoreBillMatched(invoices[..n - 1], invoices[n - 1]);
    }
  }

  // The credit note is a quarter, to the cent, of an invoice other than the
  // newest, dated within the ledger, and carries neither tax nor payment.
  predicate CreditsOne(t: Terms, invoices: seq<Invoice>, note: Invoice) {
    exists i :: 0 <= i < 38 && i < |invoices|
      && note.credits == Some(invoices[i].externalId) && note.netMinor * 4 == invoices[i].netMinor
      && note.grossMinor == note.netMinor && note.taxMinor == 0 && note.fullyPaidAt == None
      && invoices[i].issuedOn < note.issuedOn <= t.anchor
  }

  lemma BillsDiffer(t: Terms, stream: Stream, pos: nat)
    requires t.kind in ARCHETYPES && t.kind.lateLow <= t.kind.lateHigh
    ensures DifferentIds(BilledUpTo(t, INVOICE_COUNT, stream, pos).0)
  {
    EveryInvoiceIsConsistent(t, INVOICE_COUNT, stream, pos);
    var bills := BilledUpTo(t, INVOICE_COUNT, stream, pos).0;
    forall i, j | 0 <= i < j < |bills| ensures bills[i].externalId != bills[j].externalId {
      IdsTellApart(t.customer, i + 1, j + 1);
    }
  }

  lemma BillsAreMatched(t: Terms, bills: seq<Invoice>)
    requires DifferentIds(bills) && AllInPlace(t, bills)
    ensures OneToOne(bills, PaymentsOf(bills)) && TotalPaid(bills) == TotalPayments(PaymentsOf(bills))
  {
    forall i | 0 <= i < |bills| ensures PaidOrNot(bills[i]) {
      assert StandsInPlace(t, i, bills[i]);
    }
    PaymentsMatch(bills, |bills|);
    assert bills[..|bills|] == bills;
  }

  lemma ANoteCreditsOne(t: Terms, bills: seq<Invoice>, i: nat)
    requires i < 38 < |bills| && AllInPlace(t, bills)
    ensures CreditsOne(t, bills, CreditNote(t.customer, bills[i]))
  {
    assert StandsInPlace(t, i, bills[i]);
  }

  // For every customer, anchor and stream.
  lemma {:induction false} WhatEveryLedgerHolds(customer: string, anchor: int, yearOf: int -> string, stream: Stream)
    ensures var t := TermsFor(customer, anchor, yearOf, stream);
            && Eligible(BilledUpTo(t, INVOICE_COUNT, stream, 1).0, anchor) == 38
            && var ledger := Generated(t, stream);
               && |ledger.invoices| == INVOICE_COUNT + 1
               && var bills := ledger.invoices[..INVOICE_COUNT];
                  && DifferentIds(bills) && OneToOne(bills, ledger.payments)
                  && TotalPaid(bills) == TotalPayments(ledger.payments)
                  && AllInPlace(t, bills)
                  && CreditsOne(t, bills, ledger.invoices[INVOICE_COUNT])
  {
    var t := TermsFor(customer, anchor, yearOf, stream);
    TheScanCountsThirtyEight(t, stream, 1);
    var (bills, pos) := BilledUpTo(t, INVOICE_COUNT, stream, 1);
    EveryInvoiceIsConsistent(t, INVOICE_COUNT, stream, 1);
    BillsDiffer(t, stream, 1);
    BillsAreMatched(t, bills);
    var ledger := Generated(t, stream);
    assert ledger.invoices[..INVOICE_COUNT] == bills;
    ANoteCreditsOne(t, bills, Draw(stream, pos, 38));
  }
}
