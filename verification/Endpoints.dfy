// One member's endpoint row, its audit trail and its sealed secret: what open,
// pause, resume and register do (extensions/openchannel/endpoint.go), the
// three steps of a mint (secret.go), and the trail they append to (ledger.go).
//
// Every operation acts on the calling member's own row, so one account is the
// whole of what any of them can touch.
module Endpoints {
  import opened Basics

  type EndpointId = nat

  // The projection every read and every write returns, which is also the image
  // the trail carries. Neither counter of traffic nor the secret version is a
  // decision; only the former is part of the image.
  datatype Endpoint = Endpoint(
    id: EndpointId, ref: string, url: string, enabled: bool, received: nat, sent: nat, version: nat)

  datatype Row = Row(image: Endpoint, secretVersion: nat)

  datatype Verb = Opened | SecretMinted | WasEnabled | WasDisabled | UrlRegistered

  datatype Entry = Entry(verb: Verb, before: Option<Endpoint>, after: Endpoint)

  datatype Account = Account(row: Option<Row>, secret: Option<string>, trail: seq<Entry>)

  datatype Refusal = NoEndpoint | NotAnAddress | Superseded | NotStored | NotSealed | RotatedUnrecorded

  datatype Assignment = SetsEnabled(enabled: bool) | SetsUrl(url: string)

  const NOBODY := Account(None, None, [])

  /* ----- open, pause, resume, register ----- */

  function Open(acc: Account, id: EndpointId, ref: string): Account {
    if acc.row.Some? then acc
    else
      var created := Endpoint(id, ref, "", true, 0, 0, 1);
      acc.(row := Some(Row(created, 0)), trail := acc.trail + [Entry(Opened, None, created)])
  }

  function Assigned(e: Endpoint, change: Assignment): Endpoint {
    match change
    case SetsEnabled(enabled) => e.(enabled := enabled, version := e.version + 1)
    case SetsUrl(url) => e.(url := url, version := e.version + 1)
  }

  // expected is absent for an operation that names no endpoint; noop is absent
  // for one whose repetition is always a write.
  function UpdateOwn(acc: Account, expected: Option<EndpointId>, verb: Verb, change: Assignment,
                     noop: Option<Endpoint -> bool>): Result<Account, Refusal> {
    if acc.row == None then Err(NoEndpoint)
    else
      var before := acc.row.value.image;
      if expected.Some? && before.id != expected.value then Err(NoEndpoint)
      else if noop.Some? && noop.value(before) then Ok(acc)
      else
        var after := Assigned(before, change);
        Ok(acc.(row := Some(acc.row.value.(image := after)), trail := acc.trail + [Entry(verb, Some(before), after)]))
  }

  function SetEnabled(acc: Account, enabled: bool): Result<Account, Refusal> {
    UpdateOwn(acc, None, if enabled then WasEnabled else WasDisabled, SetsEnabled(enabled),
              Some((before: Endpoint) => before.enabled == enabled))
  }

  // id is absent for a request that names no endpoint; dialable is what the
  // address grammar made of the text, or its refusal.
  function RegisterUrl(acc: Account, id: Option<EndpointId>, dialable: Option<string>): Result<Account, Refusal> {
    if dialable == None then Err(NotAnAddress)
    else UpdateOwn(acc, id, UrlRegistered, SetsUrl(dialable.value), None)
  }

  // The two touches the trail does not record.
  function Touched(acc: Account, inbound: nat, outbound: nat): Account {
    if acc.row == None then acc
    else
      var e := acc.row.value.image;
      acc.(row := Some(acc.row.value.(image := e.(received := e.received + inbound, sent := e.sent + outbound))))
  }

  /* ----- the three steps of a mint ----- */

  // The claim reserves: the version it answers is one no other mint holds.
  function Claim(acc: Account, id: EndpointId): Result<(Account, nat), Refusal> {
    if acc.row == None || acc.row.value.image.id != id then Err(NoEndpoint)
    else
      var row := acc.row.value;
      Ok((acc.(row := Some(Row(row.image.(version := row.image.version + 1), row.secretVersion + 1))),
          row.secretVersion + 1))
  }

  function Seal(acc: Account, secret: string): Account {
    acc.(secret := Some(secret))
  }

  function RecordMint(acc: Account, claimed: nat): Result<Account, Refusal> {
    if acc.row == None || acc.row.value.secretVersion != claimed then Err(Superseded)
    else
      var image := acc.row.value.image;
      Ok(acc.(trail := acc.trail + [Entry(SecretMinted, Some(image), image)]))
  }

  // The account one whole mint leaves, with nobody else moving: its claim, its
  // seal and its record, as far as storage takes them.
  function Minted(acc: Account, id: EndpointId, key: string, claimStored: bool, sealed: bool, recordStored: bool)
    : (Account, Result<string, Refusal>)
  {
    var claim := Claim(acc, id);
    if claim.Err? then (acc, Err(claim.error))
    else if !claimStored then (acc, Err(NotStored))
    else if !sealed then (claim.value.0, Err(NotSealed))
    else
      var rotated := Seal(claim.value.0, key);
      if !recordStored then (rotated, Err(RotatedUnrecorded))
      else
        var recorded := RecordMint(rotated, claim.value.1);
        if recorded.Err? then (rotated, Err(recorded.error)) else (recorded.value, Ok(key))
  }
}

// The account as the code moves it: each operation in place, tied to its
// function above.
module AccountStores {
  import opened Basics
  import opened Endpoints

  class AccountStore {
    var row: Option<Row>
    var secret: Option<string>
    var trail: seq<Entry>

    function Held(): Account
      reads this
    {
      Account(row, secret, trail)
    }

    constructor ()
      ensures Held() == NOBODY
    {
      row, secret, trail := None, None, [];
    }

    method RecordEndpoint(verb: Verb, before: Option<Endpoint>, after: Endpoint)
      modifies this`trail
      ensures trail == old(trail) + [Entry(verb, before, after)]
    {
      trail := trail + [Entry(verb, before, after)];
    }

    method Open(id: EndpointId, ref: string) returns (stored: Endpoint)
      modifies this
      ensures Held() == Endpoints.Open(old(Held()), id, ref)
      ensures row.Some? && stored == row.value.image
      ensures old(row).Some? ==> Held() == old(Held())
      // A new endpoint is taking requests on the ref it was given, at version
      // one, with no address, no traffic and no secret, and the trail opens
      // with it.
      ensures old(row) == None ==>
                && stored.id == id && stored.ref == ref && stored.enabled && stored.url == ""
                && stored.received == stored.sent == 0 && stored.version == 1 && row.value.secretVersion == 0
                && trail == old(trail) + [Entry(Opened, None, stored)] && secret == old(secret)
    {
      if row.Some? {
        return row.value.image;
      }
      stored := Endpoint(id, ref, "", true, 0, 0, 1);
      row := Some(Row(stored, 0));
      RecordEndpoint(Opened, None, stored);
    }

    // Refused exactly for a member without an endpoint or for an id that is
    // not theirs, and skipped exactly for a state the row already has; neither
    // leaves a mark. Otherwise one field moves, the version moves by one, and
    // the entry holds the row as it was and as it is.
    method UpdateOwnEndpoint(expected: Option<EndpointId>, verb: Verb, change: Assignment,
                             noop: Option<Endpoint -> bool>)
      returns (answer: Result<Endpoint, Refusal>)
      modifies this
      ensures answer == Err(NoEndpoint) <==>
                old(row) == None || (expected.Some? && expected.value != old(row).value.image.id)
      ensures answer.Err? ==> answer.error == NoEndpoint && Held() == old(Held())
      ensures answer.Ok? ==> old(row).Some? && row.Some? && row.value.image == answer.value
                             && secret == old(secret) && row.value.secretVersion == old(row).value.secretVersion
      ensures answer.Ok? && noop.Some? && noop.value(old(row).value.image) ==> Held() == old(Held())
      ensures answer.Ok? && !(noop.Some? && noop.value(old(row).value.image)) ==>
                var before, after := old(row).value.image, answer.value;
                && after.version == before.version + 1
                && (change.SetsEnabled? ==> after.enabled == change.enabled && after.url == before.url)
                && (change.SetsUrl? ==> after.url == change.url && after.enabled == before.enabled)
                && (after.id, after.ref, after.received, after.sent)
                   == (before.id, before.ref, before.received, before.sent)
                && trail == old(trail) + [Entry(verb, Some(before), after)]
      ensures UpdateOwn(old(Held()), expected, verb, change, noop)
           == if answer.Ok? then Ok(Held()) else Err(answer.error)
    {
      if row == None {
        return Err(NoEndpoint);
      }
      var before := row.value.image;
      if expected.Some? && before.id != expected.value {
        return Err(NoEndpoint);
      }
      if noop.Some? && noop.value(before) {
        return Ok(before);
      }
      var after := Assigned(before, change);
      row := Some(row.value.(image := after));
      RecordEndpoint(verb, Some(before), after);
      return Ok(after);
    }

    // Writes, and appends, exactly when the row holds the other state.
    method SetEnabled(enabled: bool) returns (answer: Result<Endpoint, Refusal>)
      modifies this
      ensures answer == Err(NoEndpoint) <==> old(row) == None
      ensures answer.Ok? ==> row.Some? && row.value.image == answer.value && answer.value.enabled == enabled
      ensures Endpoints.SetEnabled(old(Held()), enabled) == if answer.Ok? then Ok(Held()) else Err(answer.error)
      ensures Held() == old(Held()) <==> old(row) == None || old(row).value.image.enabled == enabled
      ensures Held() != old(Held()) ==>
                && answer.Ok?
                && answer.value == old(row).value.image.(enabled := enabled, version := answer.value.version)
                && trail == old(trail) + [Entry(if enabled then WasEnabled else WasDisabled,
                                                Some(old(row).value.image), answer.value)]
    {
      answer := UpdateOwnEndpoint(None, if enabled then WasEnabled else WasDisabled, SetsEnabled(enabled),
                                  Some((before: Endpoint) => before.enabled == enabled));
    }

    // A registration that is accepted always writes, the address it already
    // had included; one that names no endpoint is for the caller's own.
    method RegisterUrl(id: Option<EndpointId>, dialable: Option<string>) returns (answer: Result<Endpoint, Refusal>)
      modifies this
      ensures Endpoints.RegisterUrl(old(Held()), id, dialable) == if answer.Ok? then Ok(Held()) else Err(answer.error)
      ensures answer.Ok? <==> dialable.Some? && old(row).Some? && (id == None || id == Some(old(row).value.image.id))
      ensures answer.Ok? ==>
                && answer.value == old(row).value.image.(url := dialable.value, version := answer.value.version)
                && trail == old(trail) + [Entry(UrlRegistered, Some(old(row).value.image), answer.value)]
      ensures answer.Err? ==> Held() == old(Held())
      ensures answer == Err(NotAnAddress) <==> dialable == None
    {
      if dialable == None {
        return Err(NotAnAddress);
      }
      answer := UpdateOwnEndpoint(id, UrlRegistered, SetsUrl(dialable.value), None);
    }

    // The version claimed is one no earlier claim was given, both counters
    // move by one, and nothing else does: no secret yet, and no entry.
    method ClaimMint(id: EndpointId) returns (claim: Result<nat, Refusal>)
      modifies this`row
      ensures claim.Ok? <==> old(row).Some? && old(row).value.image.id == id
      ensures claim.Err? ==> claim.error == NoEndpoint && row == old(row)
      ensures claim.Ok? ==>
                row.Some? && claim.value == row.value.secretVersion == old(row).value.secretVersion + 1
                && row.value.image == old(row).value.image.(version := old(row).value.image.version + 1)
      ensures Claim(old(Held()), id) == if claim.Ok? then Ok((Held(), claim.value)) else Err(claim.error)
    {
      if row == None || row.value.image.id != id {
        return Err(NoEndpoint);
      }
      var claimed := row.value.secretVersion + 1;
      row := Some(Row(row.value.image.(version := row.value.image.version + 1), claimed));
      return Ok(claimed);
    }

    // Recorded exactly while the claimed version stands: one entry, whose two
    // images are the row as it is, and no other change.
    method RecordMinted(claimed: nat) returns (answer: Result<Endpoint, Refusal>)
      modifies this`trail
      ensures answer.Ok? <==> row.Some? && row.value.secretVersion == claimed
      ensures answer.Ok? ==>
                answer.value == row.value.image
                && trail == old(trail) + [Entry(SecretMinted, Some(row.value.image), row.value.image)]
      ensures answer.Err? ==> answer.error == Superseded && trail == old(trail)
      ensures RecordMint(old(Held()), claimed) == if answer.Ok? then Ok(Held()) else Err(answer.error)
    {
      if row == None || row.value.secretVersion != claimed {
        return Err(Superseded);
      }
      RecordEndpoint(SecretMinted, Some(row.value.image), row.value.image);
      return Ok(row.value.image);
    }

    // The whole mint with nobody else moving. key is what the random source
    // gave; claimStored, sealed and recordStored are what storage did.
    method MintSecret(id: EndpointId, key: string, claimStored: bool, sealed: bool, recordStored: bool)
      returns (answer: Result<(string, Endpoint), Refusal>)
      modifies this
      ensures Minted(old(Held()), id, key, claimStored, sealed, recordStored)
           == (Held(), if answer.Ok? then Ok(answer.value.0) else Err(answer.error))
      ensures answer.Ok? <==>
                old(row).Some? && old(row).value.image.id == id && claimStored && sealed && recordStored
      ensures answer.Ok? ==> answer.value.0 == key && row.Some? && answer.value.1 == row.value.image
                             && trail == old(trail) + [Entry(SecretMinted, Some(row.value.image), row.value.image)]
      ensures answer.Err? ==> trail == old(trail)
      ensures answer.Err? ==>
                answer.error == if old(row) == None || old(row).value.image.id != id then NoEndpoint
                                else if !claimStored then NotStored
                                else if !sealed then NotSealed
                                else RotatedUnrecorded
      // The stored secret moves exactly when the answer is the new secret or
      // says that it rotated unrecorded; no other error leaves a new secret.
      ensures secret == if answer.Ok? || answer.error == RotatedUnrecorded then Some(key) else old(secret)
      // A refused claim writes nothing; one that stood moves both counters.
      ensures answer == Err(NoEndpoint) || answer == Err(NotStored) ==> Held() == old(Held())
      ensures answer != Err(NoEndpoint) && answer != Err(NotStored) ==>
                old(row).Some? && row.Some? && row.value.secretVersion == old(row).value.secretVersion + 1
                && row.value.image == old(row).value.image.(version := old(row).value.image.version + 1)
    {
      if row == None || row.value.image.id != id {
        return Err(NoEndpoint);
      }
      if !claimStored {
        return Err(NotStored);
      }
      var claim := ClaimMint(id);
      if !sealed {
        return Err(NotSealed);
      }
      secret := Some(key);
      if !recordStored {
        return Err(RotatedUnrecorded);
      }
      var recorded := RecordMinted(claim.value);
      if recorded.Err? {
        return Err(recorded.error);
      }
      return Ok((key, recorded.value));
    }
  }
}
