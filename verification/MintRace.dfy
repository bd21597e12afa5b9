// Overlapping mints: what the claims serialise, what a mint may conclude from
// its answer, and when the key it hands back is the one that verifies.
module MintRace {
  import opened Basics
  import opened Endpoints
  import opened EndpointMachine

  predicate InOrder(claims: seq<Minting>) {
    && (forall i :: 0 <= i < |claims| ==> claims[i].version == i + 1)
    && (forall i, j :: 0 <= i < j < |claims| ==> claims[i].key != claims[j].key)
  }

  predicate Backed(claims: seq<Minting>, seals: seq<nat>, mint: Mint) {
    && 1 <= mint.version <= |claims|
    && claims[mint.version - 1].key == mint.key
    && (mint.Sealed? <==> mint.version in seals)
  }

  // The stored key is the one sealed last.
  predicate LastSealed(claims: seq<Minting>, seals: seq<nat>, secret: Option<string>) {
    && (forall i :: 0 <= i < |seals| ==> 1 <= seals[i] <= |claims|)
    && (forall i, j :: 0 <= i < j < |seals| ==> seals[i] != seals[j])
    && secret == if seals == [] then None else Some(claims[seals[|seals| - 1] - 1].key)
  }

  ghost predicate Serial(w: World) {
    && InOrder(w.h.claims)
    && |w.h.claims| == (if w.acc.row.Some? then w.acc.row.value.secretVersion else 0)
    && (forall k :: k in w.mints ==> Backed(w.h.claims, w.h.seals, w.mints[k]))
    && (forall k, l :: k in w.mints && l in w.mints && w.mints[k].version == w.mints[l].version ==> k == l)
    && LastSealed(w.h.claims, w.h.seals, w.acc.secret)
  }

  lemma ClaimingStaysSerial(w: World, act: Action)
    requires Serial(w) && act.ClaimVersion? && Enabled(w, act)
    ensures Serial(Step(w, act))
  {
  }

  lemma SealingStaysSerial(w: World, act: Action)
    requires Serial(w) && act.SealKey? && Enabled(w, act)
    ensures Serial(Step(w, act))
  {
    var w', version := Step(w, act), w.mints[act.k].version;
    forall v ensures v in w'.h.seals <==> v in w.h.seals || v == version { }
  }

  lemma StepStaysSerial(w: World, act: Action)
    requires Serial(w)
    ensures Serial(Step(w, act))
  {
    if Enabled(w, act) {
      match act {
        case ClaimVersion(_, _, _) => ClaimingStaysSerial(w, act);
        case SealKey(_) => SealingStaysSerial(w, act);
        case _ =>
      }
    }
  }

  lemma {:induction false} RunIsSerial(run: seq<Action>)
    ensures Serial(After(START, run))
  {
    if run != [] {
      RunIsSerial(run[..|run| - 1]);
      StepStaysSerial(After(START, run[..|run| - 1]), run[|run| - 1]);
    }
  }

  // Over any number of overlapping mints and edits, the versions claimed are
  // 1, 2, 3, and so on: distinct, increasing, none skipped.
  lemma ClaimsAreSerialised(run: seq<Action>)
    ensures var claims := After(START, run).h.claims;
            && (forall i :: 0 <= i < |claims| ==> claims[i].version == i + 1)
            && (forall i, j :: 0 <= i < j < |claims| ==> claims[i].version < claims[j].version)
  {
    RunIsSerial(run);
  }

  predicate ClaimedLater(claims: seq<Minting>, version: nat) {
    exists i :: 0 <= i < |claims| && claims[i].version > version
  }

  // A mint that sealed after this one did.
  predicate SealedLater(seals: seq<nat>, version: nat, other: nat) {
    exists i, j :: 0 <= i < j < |seals| && seals[i] == version && seals[j] == other
  }

  // What a mint is told when it records, in any run: a conflict exactly when
  // another mint claimed after it, so an edit of the endpoint never causes
  // one; and success exactly when none did and storage took the write. Where
  // it is told it succeeded, the key it hands back is the stored one exactly
  // when no other mint sealed after it, and any that did had claimed earlier.
  lemma WhatAMintMayConclude(run: seq<Action>, k: MintId, stored: bool)
    requires Enabled(After(START, run), RecordIt(k, stored))
    ensures var w, w' := After(START, run), After(START, run + [RecordIt(k, stored)]);
            var version := w.mints[k].version;
            && w.acc.row.Some? && |w'.h.answers| == |w.h.answers| + 1
            && var told := w'.h.answers[|w.h.answers|];
               && told.mint == Minting(version, w.mints[k].key)
               && (told.refusal == Some(Superseded) <==> stored && ClaimedLater(w.h.claims, version))
               && (told.refusal == Some(RotatedUnrecorded) <==> !stored)
               && (told.refusal == None <==> stored && !ClaimedLater(w.h.claims, version))
               && (told.live <==> w'.acc.secret == Some(told.mint.key))
               && (told.live <==> forall v: nat :: !SealedLater(w.h.seals, version, v))
               && (told.refusal == None ==> forall v: nat :: SealedLater(w.h.seals, version, v) ==> v < version)
  {
    RunIsSerial(run);
    OneMore(START, run, RecordIt(k, stored));
    var w := After(START, run);
    LiveMeansSealedLast(w.h.claims, w.h.seals, w.acc.secret, w.mints[k]);
    var version := w.mints[k].version;
    if version < |w.h.claims| {
      assert w.h.claims[|w.h.claims| - 1].version > version;
    }
    forall v | SealedLater(w.h.seals, version, v) ensures v != version {
    }
  }

  lemma LiveMeansSealedLast(claims: seq<Minting>, seals: seq<nat>, secret: Option<string>, mint: Mint)
    requires InOrder(claims) && LastSealed(claims, seals, secret) && Backed(claims, seals, mint) && mint.Sealed?
    ensures secret == Some(mint.key) <==> forall v: nat :: !SealedLater(seals, mint.version, v)
  {
    var last := seals[|seals| - 1];
    if last == mint.version {
    } else {
      var i :| 0 <= i < |seals| && seals[i] == mint.version;
      assert SealedLater(seals, mint.version, last);
      assert claims[last - 1].key != claims[mint.version - 1].key;
    }
  }

  // Two mints claimed, neither sealed.
  lemma TwoClaims() returns (run: seq<Action>)
    ensures var w := After(START, run);
            && w.acc.row.Some? && w.acc.row.value.secretVersion == 2 && w.acc.secret == None
            && w.mints == map[1 := Claimed(1, "older"), 2 := Claimed(2, "newer")] && w.h.answers == []
  {
    var w: World;
    run, w := Extend([], OpenIt(0, "ref"));
    assert w.acc.row.Some? && w.acc.row.value.secretVersion == 0 && w.acc.row.value.image.id == 0;
    run, w := Extend(run, ClaimVersion(1, 0, "older"));
    assert w.mints == map[1 := Claimed(1, "older")] && w.h.claims == [Minting(1, "older")];
    assert w.acc.row.Some? && w.acc.row.value.secretVersion == 1 && w.acc.row.value.image.id == 0;
    run, w := Extend(run, ClaimVersion(2, 0, "newer"));
  }

  // The newer sealed first, and the older over it.
  lemma OlderOverNewer() returns (run: seq<Action>)
    ensures var w := After(START, run);
            && w.acc.row.Some? && w.acc.row.value.secretVersion == 2 && w.acc.secret == Some("older")
            && w.mints == map[1 := Sealed(1, "older"), 2 := Sealed(2, "newer")] && w.h.answers == []
  {
    run := TwoClaims();
    var w: World;
    run, w := Extend(run, SealKey(2));
    assert w.mints == map[1 := Claimed(1, "older"), 2 := Sealed(2, "newer")];
    run, w := Extend(run, SealKey(1));
  }

  // The condition is needed: with an older claim sealed between the newer
  // one's seal and its record, the newer mint is told it succeeded while the
  // stored key is the older one's, and the older mint, whose key is the one
  // that verifies, is told it may have been replaced.
  lemma AnOlderClaimCanSealLast()
    ensures exists run :: ToldTheWrongWayRound(After(START, run))
  {
    var run := OlderOverNewer();
    var w: World;
    run, w := Extend(run, RecordIt(2, true));
    assert w.mints == map[1 := Sealed(1, "older")];
    run, w := Extend(run, RecordIt(1, true));
    assert ToldTheWrongWayRound(w);
  }

  ghost predicate ToldTheWrongWayRound(w: World) {
    && |w.h.answers| == 2
    && w.h.answers[0].refusal == None && w.acc.secret != Some(w.h.answers[0].mint.key)
    && w.h.answers[1].refusal == Some(Superseded) && w.acc.secret == Some(w.h.answers[1].mint.key)
  }

  lemma Extend(run: seq<Action>, act: Action) returns (longer: seq<Action>, w: World)
    ensures longer == run + [act] && w == After(START, longer) == Step(After(START, run), act)
  {
    OneMore(START, run, act);
    longer, w := run + [act], After(START, run + [act]);
  }

  // A whole mint that nobody overlaps, as actions: none where the claim was
  // not stored, and none after the step that failed.
  function MintRun(k: MintId, id: EndpointId, key: string, claimStored: bool, sealed: bool,
                   recordStored: bool): seq<Action> {
    if !claimStored then []
    else if !sealed then [ClaimVersion(k, id, key), Die(k)]
    else [ClaimVersion(k, id, key), SealKey(k), RecordIt(k, recordStored)]
  }

  lemma InTwo(w: World, a: Action, b: Action)
    ensures After(w, [a, b]) == Step(Step(w, a), b)
  {
    OneMore(w, [], a);
    OneMore(w, [a], b);
    assert [] + [a] == [a] && [a] + [b] == [a, b];
  }

  lemma InThree(w: World, a: Action, b: Action, c: Action)
    ensures After(w, [a, b, c]) == Step(Step(Step(w, a), b), c)
  {
    InTwo(w, a, b);
    OneMore(w, [a, b], c);
    assert [a, b] + [c] == [a, b, c];
  }

  // Whatever storage does with its claim, its seal and its record, the mint
  // that AccountStore.MintSecret performs is a run of the machine.
  lemma AMintIsARun(w: World, k: MintId, id: EndpointId, key: string, claimStored: bool, sealed: bool,
                    recordStored: bool)
    requires Enabled(w, ClaimVersion(k, id, key))
    ensures var run := MintRun(k, id, key, claimStored, sealed, recordStored);
            && After(w, run).acc == Minted(w.acc, id, key, claimStored, sealed, recordStored).0
            && After(w, run).mints == w.mints
  {
    if !claimStored {
      return;
    }
    var claim, claimed := Claim(w.acc, id), Step(w, ClaimVersion(k, id, key));
    if claim.Ok? {
      assert claimed.acc == claim.value.0 && claimed.mints == w.mints[k := Claimed(claim.value.1, key)];
    }
    if !sealed {
      InTwo(w, ClaimVersion(k, id, key), Die(k));
      return;
    }
    InThree(w, ClaimVersion(k, id, key), SealKey(k), RecordIt(k, recordStored));
    if claim.Ok? {
      var stamped := Step(claimed, SealKey(k));
      assert stamped.acc == Seal(claim.value.0, key) && stamped.mints == w.mints[k := Sealed(claim.value.1, key)];
      assert w.mints[k := Sealed(claim.value.1, key)] - {k} == w.mints;
    }
  }

  /* ----- what the trail says of mints ----- */

  function Mintings(trail: seq<Entry>): nat {
    if trail == [] then 0
    else Mintings(trail[..|trail| - 1]) + (if trail[|trail| - 1].verb == SecretMinted then 1 else 0)
  }

  function Successes(answers: seq<Answered>): nat {
    if answers == [] then 0
    else Successes(answers[..|answers| - 1]) + (if answers[|answers| - 1].refusal == None then 1 else 0)
  }

  lemma OneMoreMinting(trail: seq<Entry>, e: Entry)
    ensures Mintings(trail + [e]) == Mintings(trail) + if e.verb == SecretMinted then 1 else 0
  {
    assert (trail + [e])[..|trail|] == trail;
  }

  lemma OneMoreSuccess(answers: seq<Answered>, a: Answered)
    ensures Successes(answers + [a]) == Successes(answers) + if a.refusal == None then 1 else 0
  {
    assert (answers + [a])[..|answers|] == answers;
  }

  // Nothing but a mint's record adds a minting.
  lemma OnlyARecordMints(w: World, act: Action)
    requires !act.RecordIt?
    ensures Mintings(Step(w, act).acc.trail) == Mintings(w.acc.trail) && Step(w, act).h.answers == w.h.answers
  {
    var trail, trail' := w.acc.trail, Step(w, act).acc.trail;
    AStepOnlyAppends(w, act);
    if trail' != trail {
      assert trail' == trail + [trail'[|trail|]] && trail'[|trail|].verb != SecretMinted;
      OneMoreMinting(trail, trail'[|trail|]);
    }
  }

  lemma StepRecordsEachSuccess(w: World, act: Action)
    requires Mintings(w.acc.trail) == Successes(w.h.answers)
    ensures Mintings(Step(w, act).acc.trail) == Successes(Step(w, act).h.answers)
  {
    if !act.RecordIt? {
      OnlyARecordMints(w, act);
    } else if Enabled(w, act) {
      var w' := Step(w, act);
      OneMoreSuccess(w.h.answers, w'.h.answers[|w.h.answers|]);
      if w'.acc.trail != w.acc.trail {
        OneMoreMinting(w.acc.trail, w'.acc.trail[|w.acc.trail|]);
      }
    }
  }

  // The trail holds one minting for each mint told it succeeded, and a key
  // that rotated without one belongs to a mint that was never told so.
  lemma {:induction false} EverySuccessIsOnTheTrail(run: seq<Action>)
    ensures Mintings(After(START, run).acc.trail) == Successes(After(START, run).h.answers)
  {
    if run != [] {
      EverySuccessIsOnTheTrail(run[..|run| - 1]);
      StepRecordsEachSuccess(After(START, run[..|run| - 1]), run[|run| - 1]);
    }
  }
}
