// The record one accepted request becomes (extensions/openchannel/record.go),
// and the ref that namespaces it (extensions/openchannel/ref.go).
//
// JSON decoding is not part of this model: a request body is its decoded
// document, or None when the decoder refuses it. A string is a sequence of
// code points.
module Records {
  import opened Basics

  type Time = int

  datatype Party = Party(account: string, email: string, name: string)

  datatype Arrival = Arrival(
    messageId: string,
    threadId: string,
    occurredAt: Option<Time>,
    subject: string,
    body: string,
    from: Party,
    to: Party,
    participants: seq<Party>)

  datatype Counterparty = Counterparty(
    displayName: string,
    channelUserId: string,
    email: string,
    domain: string)

  datatype Participant = Participant(account: string, email: string, name: string)

  datatype Record = Record(
    key: string,
    threadKey: string,
    subject: string,
    body: string,
    occurredAt: Time,
    counterparty: Counterparty,
    participants: seq<Participant>,
    addresses: seq<string>)

  datatype PayloadError = Unreadable | NoMessageId

  const PROVIDER := "openchannel"

  /* ----- strings.TrimSpace and friends ----- */

  predicate IsSpace(c: char) {
    c in " \t\n\r" || c == '\U{0B}' || c == '\U{0C}' || c == '\U{85}' || c == '\U{A0}'
    || c == '\U{1680}' || '\U{2000}' <= c <= '\U{200A}' || c == '\U{2028}' || c == '\U{2029}'
    || c == '\U{202F}' || c == '\U{205F}' || c == '\U{3000}'
  }

  function TrimLeft(s: string): string {
    if s != "" && IsSpace(s[0]) then TrimLeft(s[1..]) else s
  }

  function TrimRight(s: string): string {
    if s != "" && IsSpace(s[|s| - 1]) then TrimRight(s[..|s| - 1]) else s
  }

  function TrimSpace(s: string): string {
    TrimRight(TrimLeft(s))
  }

  function LastIndexOf(s: string, c: char): (at: int)
    ensures -1 <= at < |s|
    ensures at >= 0 ==> s[at] == c
    ensures forall i :: at < i < |s| ==> s[i] != c
  {
    if s == "" then -1
    else if s[|s| - 1] == c then |s| - 1
    else LastIndexOf(s[..|s| - 1], c)
  }

  // ASCII lower-casing; other code points are left as they are.
  function Lower(s: string): string {
    seq(|s|, i requires 0 <= i < |s| => if 'A' <= s[i] <= 'Z' then s[i] - 'A' + 'a' else s[i])
  }

  function MailDomain(email: string): string {
    var at := LastIndexOf(email, '@');
    if at < 0 || at == |email| - 1 then "" else Lower(TrimSpace(email[at + 1..]))
  }

  /* ----- the record ----- */

  function ThreadOf(doc: Arrival): string {
    var thread := TrimSpace(doc.threadId);
    if thread != "" then thread else doc.messageId
  }

  function NaturalKey(ref: string, doc: Arrival): string {
    ref + ":" + doc.messageId
  }

  function ThreadKey(ref: string, doc: Arrival): string {
    PROVIDER + ":" + ref + ":" + ThreadOf(doc)
  }

  function NonBlank(addresses: seq<string>): seq<string> {
    if addresses == [] then []
    else
      var trimmed := TrimSpace(addresses[0]);
      (if trimmed != "" then [trimmed] else []) + NonBlank(addresses[1..])
  }

  function Addresses(doc: Arrival): seq<string> {
    if TrimSpace(doc.from.email) == "" then [] else NonBlank([doc.from.email, doc.to.email])
  }

  method AddressesOf(doc: Arrival) returns (found: seq<string>)
    ensures found == Addresses(doc)
  {
    if TrimSpace(doc.from.email) == "" {
      return [];
    }
    var named := [doc.from.email, doc.to.email];
    found := [];
    for i := 0 to |named|
      invariant found + NonBlank(named[i..]) == NonBlank(named)
    {
      var trimmed := TrimSpace(named[i]);
      assert named[i..][1..] == named[i + 1..];
      if trimmed != "" {
        found := found + [trimmed];
      }
    }
  }

  function CounterpartyOf(from: Party): Counterparty {
    var name := TrimSpace(from.name);
    var account := TrimSpace(from.account);
    if account != "" then Counterparty(name, account, TrimSpace(from.email), "")
    else Counterparty(name, "", TrimSpace(from.email), MailDomain(from.email))
  }

  predicate HasIdentity(p: Party) {
    TrimSpace(p.account) != "" || TrimSpace(p.email) != ""
  }

  function Attendee(p: Party): Participant {
    Participant(TrimSpace(p.account), TrimSpace(p.email), TrimSpace(p.name))
  }

  function Roster(parties: seq<Party>): seq<Participant> {
    if parties == [] then []
    else (if HasIdentity(parties[0]) then [Attendee(parties[0])] else []) + Roster(parties[1..])
  }

  lemma RosterFrom(parties: seq<Party>, i: nat)
    requires i < |parties|
    ensures Roster(parties[i..])
         == (if HasIdentity(parties[i]) then [Attendee(parties[i])] else []) + Roster(parties[i + 1..])
  {
    assert parties[i..][0] == parties[i] && parties[i..][1..] == parties[i + 1..];
  }

  lemma RosterSoFar(parties: seq<Party>, i: nat, roster: seq<Participant>)
    requires i < |parties| && roster + Roster(parties[i..]) == Roster(parties)
    ensures (if HasIdentity(parties[i]) then roster + [Attendee(parties[i])] else roster) + Roster(parties[i + 1..])
         == Roster(parties)
  {
    RosterFrom(parties, i);
    if HasIdentity(parties[i]) {
      Regroup(roster, [Attendee(parties[i])], Roster(parties[i + 1..]));
    } else {
      assert [] + Roster(parties[i + 1..]) == Roster(parties[i + 1..]);
    }
  }

  method ParticipantsOf(doc: Arrival) returns (roster: seq<Participant>)
    ensures roster == Roster(doc.participants)
  {
    var parties := doc.participants;
    roster := [];
    for i := 0 to |parties|
      invariant roster + Roster(parties[i..]) == Roster(parties)
    {
      RosterSoFar(parties, i, roster);
      if HasIdentity(parties[i]) {
        roster := roster + [Attendee(parties[i])];
      }
    }
    assert parties[|parties|..] == [];
  }

  function RecordFor(ref: string, doc: Option<Arrival>, sentAt: Time): Result<Record, PayloadError> {
    match doc
    case None => Err(Unreadable)
    case Some(d) =>
      if TrimSpace(d.messageId) == "" then Err(NoMessageId)
      else Ok(Record(
                NaturalKey(ref, d), ThreadKey(ref, d), TrimSpace(d.subject), TrimSpace(d.body),
                if d.occurredAt.Some? then d.occurredAt.value else sentAt,
                CounterpartyOf(d.from), Roster(d.participants), Addresses(d)))
  }

  // The key a body lands under, or none for a body no record can be built of.
  function KeyFor(ref: string, doc: Option<Arrival>): Option<string> {
    if doc.Some? && TrimSpace(doc.value.messageId) != "" then Some(NaturalKey(ref, doc.value)) else None
  }

  lemma ARecordIsBuiltExactlyUnderItsKey(ref: string, doc: Option<Arrival>, sentAt: Time)
    ensures RecordFor(ref, doc, sentAt).Ok? <==> KeyFor(ref, doc).Some?
    ensures RecordFor(ref, doc, sentAt).Ok? ==> RecordFor(ref, doc, sentAt).value.key == KeyFor(ref, doc).value
  {
  }

  /* ----- separation ----- */

  lemma ColonFreePrefixSplits(a: string, b: string, x: string, y: string)
    requires ':' !in a && ':' !in b
    requires a + ":" + x == b + ":" + y
    ensures a == b && x == y
  {
    var s, t := a + ":" + x, b + ":" + y;
    assert s[|a|] == ':' && t[|b|] == ':';
    assert forall i :: 0 <= i < |a| ==> s[i] == a[i];
    assert forall i :: 0 <= i < |b| ==> t[i] == b[i];
    assert |a| == |b|;
    assert a == s[..|a|] && b == t[..|b|];
    assert x == s[|a| + 1..] && y == t[|b| + 1..];
  }

  // Two records that were both built share a natural key exactly when they
  // share the endpoint's ref and the sender's message id.
  lemma RecordsShareAKeyExactlyWhenTheyAreOneMessage(
      ref1: string, doc1: Option<Arrival>, at1: Time, ref2: string, doc2: Option<Arrival>, at2: Time)
    requires ':' !in ref1 && ':' !in ref2
    requires RecordFor(ref1, doc1, at1).Ok? && RecordFor(ref2, doc2, at2).Ok?
    ensures RecordFor(ref1, doc1, at1).value.key == RecordFor(ref2, doc2, at2).value.key
       <==> ref1 == ref2 && doc1.value.messageId == doc2.value.messageId
  {
    if NaturalKey(ref1, doc1.value) == NaturalKey(ref2, doc2.value) {
      ColonFreePrefixSplits(ref1, ref2, doc1.value.messageId, doc2.value.messageId);
    }
  }

  // Without the colon-free alphabet the namespace leaks: two different refs,
  // two different message ids, one key.
  lemma AColonInARefMergesTwoEndpoints()
    ensures exists ref1, ref2, doc1: Arrival, doc2: Arrival ::
      ref1 != ref2 && doc1.messageId != doc2.messageId && NaturalKey(ref1, doc1) == NaturalKey(ref2, doc2)
  {
    var nobody := Party("", "", "");
    var doc1 := Arrival("b:c", "", None, "", "", nobody, nobody, []);
    var doc2 := Arrival("c", "", None, "", "", nobody, nobody, []);
    assert NaturalKey("a", doc1) == "a:b:c" == NaturalKey("a:b", doc2);
  }

  lemma ThreadsOfDifferentEndpointsNeverCoincide(ref1: string, doc1: Arrival, ref2: string, doc2: Arrival)
    requires ':' !in ref1 && ':' !in ref2
    ensures ThreadKey(ref1, doc1) == ThreadKey(ref2, doc2) <==> ref1 == ref2 && ThreadOf(doc1) == ThreadOf(doc2)
  {
    if ThreadKey(ref1, doc1) == ThreadKey(ref2, doc2) {
      var t1, t2 := ref1 + ":" + ThreadOf(doc1), ref2 + ":" + ThreadOf(doc2);
      assert PROVIDER + ":" + t1 == ThreadKey(ref1, doc1);
      assert PROVIDER + ":" + t2 == ThreadKey(ref2, doc2);
      ColonFreePrefixSplits(PROVIDER, PROVIDER, t1, t2);
      ColonFreePrefixSplits(ref1, ref2, ThreadOf(doc1), ThreadOf(doc2));
    }
  }

  /* ----- the internal-message gate ----- */

  // The core's gate over a record's address set: colleagues talking, which it
  // drops. onOwn is its own-domain rule for one address, subdomains included;
  // owned says whether any own domain is registered at all. Over an empty set
  // it answers "not internal" and keeps the record.
  predicate JudgedInternal(addresses: seq<string>, owned: bool, onOwn: string -> bool) {
    owned
    && (exists i :: 0 <= i < |addresses| && TrimSpace(addresses[i]) != "")
    && forall i :: 0 <= i < |addresses| && TrimSpace(addresses[i]) != "" ==> onOwn(addresses[i])
  }

  lemma {:induction false} TrimLeftStarts(s: string)
    ensures TrimLeft(s) != "" ==> !IsSpace(TrimLeft(s)[0])
  {
    if s != "" && IsSpace(s[0]) {
      TrimLeftStarts(s[1..]);
    }
  }

  lemma {:induction false} TrimRightKeepsTheStart(s: string)
    ensures TrimRight(s) != "" ==> s != "" && TrimRight(s)[0] == s[0] && !IsSpace(TrimRight(s)[|TrimRight(s)| - 1])
  {
    if s != "" && IsSpace(s[|s| - 1]) {
      TrimRightKeepsTheStart(s[..|s| - 1]);
    }
  }

  lemma TrimmedStaysTrimmed(s: string)
    ensures TrimSpace(TrimSpace(s)) == TrimSpace(s)
  {
    TrimLeftStarts(s);
    TrimRightKeepsTheStart(TrimLeft(s));
  }

  lemma {:induction false} AMessageIsInternalExactlyWhenItsSenderSaidSo(doc: Arrival, owned: bool,
                                                                        onOwn: string -> bool)
    ensures var sender, member := TrimSpace(doc.from.email), TrimSpace(doc.to.email);
            JudgedInternal(Addresses(doc), owned, onOwn)
            <==> owned && sender != "" && onOwn(sender) && (member == "" || onOwn(member))
  {
    var named := [doc.from.email, doc.to.email];
    var sender, member := TrimSpace(doc.from.email), TrimSpace(doc.to.email);
    TrimmedStaysTrimmed(doc.from.email);
    TrimmedStaysTrimmed(doc.to.email);
    if sender != "" {
      assert named[1..] == [doc.to.email] && named[1..][1..] == [];
      assert NonBlank(named) == [sender] + NonBlank([doc.to.email]);
      assert NonBlank([doc.to.email]) == if member != "" then [member] else [];
      assert Addresses(doc)[0] == sender;
      assert member != "" ==> Addresses(doc)[1] == member;
    }
  }

  lemma {:induction false} RosterOfConcatenation(parties: seq<Party>, rest: seq<Party>)
    ensures Roster(parties + rest) == Roster(parties) + Roster(rest)
  {
    if parties == [] {
      assert parties + rest == rest;
    } else {
      assert (parties + rest)[1..] == parties[1..] + rest;
      RosterOfConcatenation(parties[1..], rest);
      Regroup(if HasIdentity(parties[0]) then [Attendee(parties[0])] else [], Roster(parties[1..]), Roster(rest));
    }
  }

  // Each party takes its own place in the roster, once for each time the
  // document lists it, and a party nothing identifies takes none.
  lemma TheRosterKeepsExactlyTheIdentifiable(parties: seq<Party>, i: nat)
    requires i < |parties|
    ensures Roster(parties) == Roster(parties[..i])
                               + (if HasIdentity(parties[i]) then [Attendee(parties[i])] else [])
                               + Roster(parties[i + 1..])
  {
    assert parties == parties[..i] + parties[i..];
    RosterFrom(parties, i);
    RosterOfConcatenation(parties[..i], parties[i..]);
    Regroup(Roster(parties[..i]), if HasIdentity(parties[i]) then [Attendee(parties[i])] else [],
            Roster(parties[i + 1..]));
  }

  /* ----- minted refs: base64url without padding, RFC 4648 section 5 ----- */

  const REF_BYTES := 16
  const MAX_INBOUND_REF := 64

  type Byte = b: int | 0 <= b < 256

  type Six = v: int | 0 <= v < 64

  // The four six-bit groups of three bytes.
  function Six1(a: Byte): Six { a / 4 }
  function Six2(a: Byte, b: Byte): Six { a % 4 * 16 + b / 16 }
  function Six3(b: Byte, c: Byte): Six { b % 16 * 4 + c / 64 }
  function Six4(c: Byte): Six { c % 64 }

  function Sextet(v: Six): (c: char)
    ensures IsRefChar(c)
  {
    if v < 26 then ('A' as int + v) as char
    else if v < 52 then ('a' as int + (v - 26)) as char
    else if v < 62 then ('0' as int + (v - 52)) as char
    else if v == 62 then '-' else '_'
  }

  predicate IsRefChar(c: char) {
    'A' <= c <= 'Z' || 'a' <= c <= 'z' || '0' <= c <= '9' || c == '_' || c == '-'
  }

  function Encode(raw: seq<Byte>): (ref: string)
    ensures forall i :: 0 <= i < |ref| ==> IsRefChar(ref[i])
    ensures |ref| == (|raw| * 8 + 5) / 6
  {
    if |raw| == 0 then ""
    else if |raw| == 1 then [Sextet(Six1(raw[0])), Sextet(Six2(raw[0], 0))]
    else if |raw| == 2 then
      [Sextet(Six1(raw[0])), Sextet(Six2(raw[0], raw[1])), Sextet(Six3(raw[1], 0))]
    else
      [Sextet(Six1(raw[0])), Sextet(Six2(raw[0], raw[1])), Sextet(Six3(raw[1], raw[2])), Sextet(Six4(raw[2]))]
      + Encode(raw[3..])
  }

  // The core's published grammar for a trailing path segment: 1 to 64 of
  // A-Z a-z 0-9 _ -.
  predicate ValidInboundRef(ref: string) {
    0 < |ref| <= MAX_INBOUND_REF && forall i :: 0 <= i < |ref| ==> IsRefChar(ref[i])
  }

  lemma SextetsAreDistinct(i: Six, j: Six)
    requires Sextet(i) == Sextet(j)
    ensures i == j
  {
    assert (Sextet(i) as int) == (Sextet(j) as int);
  }

  lemma BytesFromSextets(a: Byte, b: Byte, c: Byte, x: Byte, y: Byte, z: Byte)
    requires Six1(a) == Six1(x) && Six2(a, b) == Six2(x, y)
    requires Six3(b, c) == Six3(y, z) && Six4(c) == Six4(z)
    ensures a == x && b == y && c == z
  {
  }

  lemma FirstGroupsAgree(a: seq<Byte>, b: seq<Byte>)
    requires |a| == |b| >= 3 && Encode(a) == Encode(b)
    ensures a[0] == b[0] && a[1] == b[1] && a[2] == b[2]
  {
    var x, y := Encode(a), Encode(b);
    assert x[0] == y[0] && x[1] == y[1] && x[2] == y[2] && x[3] == y[3];
    SextetsAreDistinct(Six1(a[0]), Six1(b[0]));
    SextetsAreDistinct(Six2(a[0], a[1]), Six2(b[0], b[1]));
    SextetsAreDistinct(Six3(a[1], a[2]), Six3(b[1], b[2]));
    SextetsAreDistinct(Six4(a[2]), Six4(b[2]));
    BytesFromSextets(a[0], a[1], a[2], b[0], b[1], b[2]);
  }

  lemma LastByteAgrees(a: Byte, b: Byte)
    requires Encode([a]) == Encode([b])
    ensures a == b
  {
    var x, y := Encode([a]), Encode([b]);
    assert x[0] == y[0] && x[1] == y[1];
    SextetsAreDistinct(Six1(a), Six1(b));
    SextetsAreDistinct(Six2(a, 0), Six2(b, 0));
    BytesFromSextets(a, 0, 0, b, 0, 0);
  }

  lemma LastTwoBytesAgree(a: Byte, b: Byte, x: Byte, y: Byte)
    requires Encode([a, b]) == Encode([x, y])
    ensures a == x && b == y
  {
    var s, t := Encode([a, b]), Encode([x, y]);
    assert s[0] == t[0] && s[1] == t[1] && s[2] == t[2];
    SextetsAreDistinct(Six1(a), Six1(x));
    SextetsAreDistinct(Six2(a, b), Six2(x, y));
    SextetsAreDistinct(Six3(b, 0), Six3(y, 0));
    BytesFromSextets(a, b, 0, x, y, 0);
  }

  lemma LastGroupsAgree(a: seq<Byte>, b: seq<Byte>)
    requires 1 <= |a| == |b| <= 2 && Encode(a) == Encode(b)
    ensures a == b
  {
    if |a| == 1 {
      assert a == [a[0]] && b == [b[0]];
      LastByteAgrees(a[0], b[0]);
    } else {
      assert a == [a[0], a[1]] && b == [b[0], b[1]];
      LastTwoBytesAgree(a[0], a[1], b[0], b[1]);
    }
  }

  lemma {:induction false} DifferentEntropyGivesDifferentRefs(a: seq<Byte>, b: seq<Byte>)
    requires |a| == |b| && Encode(a) == Encode(b)
    ensures a == b
  {
    if |a| == 0 {
    } else if |a| < 3 {
      LastGroupsAgree(a, b);
    } else {
      FirstGroupsAgree(a, b);
      assert Encode(a)[4..] == Encode(a[3..]) && Encode(b)[4..] == Encode(b[3..]);
      DifferentEntropyGivesDifferentRefs(a[3..], b[3..]);
      assert a == [a[0], a[1], a[2]] + a[3..] && b == [b[0], b[1], b[2]] + b[3..];
    }
  }

  // What newEndpointRef's own re-check can never refuse, and what the two
  // separation lemmas above rest on.
  lemma EveryMintedRefRoutesAndHoldsNoColon(raw: seq<Byte>)
    requires |raw| == REF_BYTES
    ensures |Encode(raw)| == 22
    ensures ValidInboundRef(Encode(raw))
    ensures ':' !in Encode(raw)
  {
    var ref := Encode(raw);
    assert forall i :: 0 <= i < |ref| ==> IsRefChar(ref[i]);
  }
}
