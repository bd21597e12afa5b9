// What each field of a record holds, said of the characters of the document it
// was built from (extensions/openchannel/record.go:104-294), and which bits a
// minted ref spells (ref.go:29-46).
module RecordContents {
  import opened Basics
  import opened Records

  /* ----- trimming ----- */

  // The code points with the White_Space property.
  lemma TheBlanksAre(c: char)
    ensures IsSpace(c) <==>
              var u := c as int;
              0x09 <= u <= 0x0D || u == 0x20 || u == 0x85 || u == 0xA0 || u == 0x1680 || 0x2000 <= u <= 0x200A
              || u == 0x2028 || u == 0x2029 || u == 0x202F || u == 0x205F || u == 0x3000
  {
  }

  predicate Blank(s: string) {
    forall k :: 0 <= k < |s| ==> IsSpace(s[k])
  }

  // The text between the blanks at either end.
  predicate TrimmedAt(t: string, s: string, i: nat, j: nat) {
    && i <= j <= |s| && t == s[i..j]
    && (forall k :: 0 <= k < i ==> IsSpace(s[k])) && (forall k :: j <= k < |s| ==> IsSpace(s[k]))
    && (i < j ==> !IsSpace(s[i]) && !IsSpace(s[j - 1]))
  }

  ghost predicate IsTrimOf(t: string, s: string) {
    exists i: nat, j: nat :: TrimmedAt(t, s, i, j)
  }

  lemma {:induction false} TrimLeftDropsBlanks(s: string) returns (i: nat)
    ensures i <= |s| && TrimLeft(s) == s[i..] && forall k :: 0 <= k < i ==> IsSpace(s[k])
  {
    if s != "" && IsSpace(s[0]) {
      i := TrimLeftDropsBlanks(s[1..]);
      i := i + 1;
    } else {
      i := 0;
    }
  }

  lemma {:induction false} TrimRightDropsBlanks(s: string) returns (j: nat)
    ensures j <= |s| && TrimRight(s) == s[..j] && forall k :: j <= k < |s| ==> IsSpace(s[k])
  {
    if s != "" && IsSpace(s[|s| - 1]) {
      j := TrimRightDropsBlanks(s[..|s| - 1]);
    } else {
      j := |s|;
    }
  }

  lemma TrimmingTrims(s: string)
    ensures IsTrimOf(TrimSpace(s), s)
    ensures TrimSpace(s) == "" <==> Blank(s)
  {
    var i := TrimLeftDropsBlanks(s);
    var j := TrimRightDropsBlanks(s[i..]);
    TrimLeftStarts(s);
    TrimRightKeepsTheStart(TrimLeft(s));
    assert forall k :: i + j <= k < |s| ==> s[k] == s[i..][k - i];
    assert s[i..i + j] == s[i..][..j];
    assert TrimmedAt(TrimSpace(s), s, i, i + j);
    if j > 0 {
      assert s[i] == TrimSpace(s)[0] && !Blank(s);
    } else {
      assert forall k :: 0 <= k < |s| ==> IsSpace(s[k]);
    }
  }

  // There is only one such text.
  lemma OneTrimOnly(t: string, u: string, s: string)
    requires IsTrimOf(t, s) && IsTrimOf(u, s)
    ensures t == u
  {
    var i: nat, j: nat :| TrimmedAt(t, s, i, j);
    var k: nat, l: nat :| TrimmedAt(u, s, k, l);
    if i < j && k < l {
      assert i == k && j == l;
    }
  }

  /* ----- the fields ----- */

  // The domain of an address is what follows its last @, trimmed, with its
  // ASCII capitals lowered; without one, or with nothing after it, none.
  lemma TheDomainOf(local: string, host: string)
    requires '@' !in host
    ensures host == "" ==> MailDomain(local + "@" + host) == ""
    ensures host != "" ==> IsLowered(MailDomain(local + "@" + host), TrimSpace(host))
    ensures MailDomain(host) == ""
  {
    var email := local + "@" + host;
    assert email[|local|] == '@';
    assert forall i :: |local| < i < |email| ==> email[i] == host[i - |local| - 1];
    assert LastIndexOf(email, '@') == |local| && email[|local| + 1..] == host;
    assert LastIndexOf(host, '@') == -1;
  }

  predicate IsLowered(lowered: string, s: string) {
    |lowered| == |s|
    && forall i :: 0 <= i < |s| ==>
         lowered[i] as int == if 0x41 <= s[i] as int <= 0x5A then s[i] as int + 0x20 else s[i] as int
  }

  // What a record holds where one is built.
  ghost predicate HoldsItsDocument(r: Record, ref: string, d: Arrival, sentAt: Time) {
    && r.key == ref + ":" + d.messageId
    && r.threadKey == "openchannel" + ":" + ref + ":" + ThreadOf(d)
    && (Blank(d.threadId) ==> ThreadOf(d) == d.messageId) && (!Blank(d.threadId) ==> IsTrimOf(ThreadOf(d), d.threadId))
    && IsTrimOf(r.subject, d.subject) && IsTrimOf(r.body, d.body)
    && (d.occurredAt == None ==> r.occurredAt == sentAt)
    && (d.occurredAt.Some? ==> d.occurredAt == Some(r.occurredAt))
    && IsTrimOf(r.counterparty.displayName, d.from.name)
    && IsTrimOf(r.counterparty.email, d.from.email)
    && IsTrimOf(r.counterparty.channelUserId, d.from.account)
    && (r.counterparty.channelUserId != "" ==> r.counterparty.domain == "")
    && (r.counterparty.channelUserId == "" ==> r.counterparty.domain == MailDomain(d.from.email))
  }

  // A body without a document is unreadable, one whose message id is blank
  // names no message, and any other gives a record: its natural key from the
  // id as it came, its thread from the sender's or the message itself, its
  // time from the document or the request, and a domain only for a sender
  // without an account.
  lemma WhatARecordHolds(ref: string, doc: Option<Arrival>, sentAt: Time)
    ensures RecordFor(ref, doc, sentAt) == Err(Unreadable) <==> doc == None
    ensures RecordFor(ref, doc, sentAt) == Err(NoMessageId) <==> doc.Some? && Blank(doc.value.messageId)
    ensures RecordFor(ref, doc, sentAt).Ok? ==>
              HoldsItsDocument(RecordFor(ref, doc, sentAt).value, ref, doc.value, sentAt)
  {
    if doc.Some? {
      var d := doc.value;
      TrimmingTrims(d.messageId);
      TrimmingTrims(d.threadId);
      TrimmingTrims(d.subject);
      TrimmingTrims(d.body);
      TrimmingTrims(d.from.name);
      TrimmingTrims(d.from.email);
      TrimmingTrims(d.from.account);
    }
  }

  // The addresses are the sender's and then the member's, trimmed, the
  // member's only if there is one; and none at all without the sender's.
  lemma WhoIsAddressed(doc: Arrival)
    ensures Blank(doc.from.email) ==> Addresses(doc) == []
    ensures !Blank(doc.from.email) ==>
              && |Addresses(doc)| == (if Blank(doc.to.email) then 1 else 2)
              && IsTrimOf(Addresses(doc)[0], doc.from.email)
              && (!Blank(doc.to.email) ==> IsTrimOf(Addresses(doc)[1], doc.to.email))
  {
    TrimmingTrims(doc.from.email);
    TrimmingTrims(doc.to.email);
    var named := [doc.from.email, doc.to.email];
    assert named[1..] == [doc.to.email] && named[1..][1..] == [];
    assert NonBlank(named[1..]) == if Blank(doc.to.email) then [] else [TrimSpace(doc.to.email)];
  }

  // Who is listed in the roster: a party with an account or an address that is
  // not blank, by its account, address and name.
  lemma WhoIsListed(p: Party)
    ensures HasIdentity(p) <==> !Blank(p.account) || !Blank(p.email)
    ensures IsTrimOf(Attendee(p).account, p.account) && IsTrimOf(Attendee(p).email, p.email)
    ensures IsTrimOf(Attendee(p).name, p.name)
  {
    TrimmingTrims(p.account);
    TrimmingTrims(p.email);
    TrimmingTrims(p.name);
  }

  /* ----- which bits a ref spells ----- */

  // The alphabet of section 5 of RFC 4648: capitals, small letters, digits,
  // and the two signs, by their code points.
  lemma TheAlphabetIs(v: Six)
    ensures Sextet(v) as int == if v < 26 then 0x41 + v else if v < 52 then 0x61 + (v - 26)
                                else if v < 62 then 0x30 + (v - 52) else if v == 62 then 0x2D else 0x5F
  {
  }

  // Three bytes are four characters, the bits in the same order.
  lemma FourCharactersSpellThreeBytes(a: Byte, b: Byte, c: Byte)
    ensures Six1(a) * 0x40000 + Six2(a, b) * 0x1000 + Six3(b, c) * 0x40 + Six4(c) == a * 0x10000 + b * 0x100 + c
  {
  }

  // A byte of the text, and zero past its end.
  function ByteAt(raw: seq<Byte>, i: nat): Byte {
    if i < |raw| then raw[i] else 0
  }

  // These four characters, as far as they go, are those three bytes.
  predicate Spells(ref: string, at: nat, a: Byte, b: Byte, c: Byte) {
    && (at < |ref| ==> ref[at] == Sextet(Six1(a)))
    && (at + 1 < |ref| ==> ref[at + 1] == Sextet(Six2(a, b)))
    && (at + 2 < |ref| ==> ref[at + 2] == Sextet(Six3(b, c)))
    && (at + 3 < |ref| ==> ref[at + 3] == Sextet(Six4(c)))
  }

  lemma FourFurther(four: string, ref: string, at: nat, a: Byte, b: Byte, c: Byte)
    requires |four| == 4 && Spells(ref, at, a, b, c)
    ensures Spells(four + ref, at + 4, a, b, c)
  {
    var whole := four + ref;
    assert forall k :: 4 <= k < |whole| ==> whole[k] == ref[k - 4];
  }

  function FourOf(a: Byte, b: Byte, c: Byte): string {
    [Sextet(Six1(a)), Sextet(Six2(a, b)), Sextet(Six3(b, c)), Sextet(Six4(c))]
  }

  lemma AWholeGroupFirst(raw: seq<Byte>)
    requires |raw| >= 3
    ensures Encode(raw) == FourOf(raw[0], raw[1], raw[2]) + Encode(raw[3..])
  {
  }

  lemma ThePartialGroup(raw: seq<Byte>)
    requires |raw| < 3
    ensures |Encode(raw)| < 4 && Spells(Encode(raw), 0, ByteAt(raw, 0), ByteAt(raw, 1), ByteAt(raw, 2))
  {
  }

  predicate SpellsGroup(ref: string, raw: seq<Byte>, g: nat) {
    Spells(ref, 4 * g, ByteAt(raw, 3 * g), ByteAt(raw, 3 * g + 1), ByteAt(raw, 3 * g + 2))
  }

  lemma ALaterGroup(four: string, ref: string, raw: seq<Byte>, g: nat)
    requires |four| == 4 && |raw| >= 3 && SpellsGroup(ref, raw[3..], g)
    ensures SpellsGroup(four + ref, raw, g + 1)
  {
    assert forall i: nat :: ByteAt(raw[3..], i) == ByteAt(raw, i + 3);
    FourFurther(four, ref, 4 * g, ByteAt(raw, 3 * g + 3), ByteAt(raw, 3 * g + 4), ByteAt(raw, 3 * g + 5));
  }

  // The g-th four characters of a ref spell the g-th three bytes.
  lemma {:induction false} ARefSpellsItsBytes(raw: seq<Byte>, g: nat)
    ensures SpellsGroup(Encode(raw), raw, g)
  {
    if |raw| < 3 {
      ThePartialGroup(raw);
    } else {
      AWholeGroupFirst(raw);
      if g > 0 {
        ARefSpellsItsBytes(raw[3..], g - 1);
        ALaterGroup(FourOf(raw[0], raw[1], raw[2]), Encode(raw[3..]), raw, g - 1);
      }
    }
  }
}
