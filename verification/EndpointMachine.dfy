// One account under any interleaving of openings, pauses, registrations,
// traffic and overlapping mints, each mint's claim, seal and record being
// three steps. An action that is not enabled changes nothing, so every
// sequence of actions is a run.
module EndpointMachine {
  import opened Basics
  import opened Endpoints

  type MintId = nat

  // A mint between its steps: its version claimed, then its key sealed.
  datatype Mint = Claimed(version: nat, key: string) | Sealed(version: nat, key: string)

  datatype Minting = Minting(version: nat, key: string)

  // What a mint that reached its recording was told, and whether the key it
  // held was the stored one at that moment.
  datatype Answered = Answered(mint: Minting, refusal: Option<Refusal>, live: bool)

  // Histories no handler reads: the claims and the seals in their own orders,
  // and the answers.
  datatype History = History(claims: seq<Minting>, seals: seq<nat>, answers: seq<Answered>)

  datatype World = World(acc: Account, mints: map<MintId, Mint>, h: History)

  datatype Action =
    | OpenIt(id: EndpointId, ref: string)
    | Pause(enabled: bool)
    | Register(named: Option<EndpointId>, dialable: Option<string>)
    | Traffic(inbound: nat, outbound: nat)
    | ClaimVersion(k: MintId, id: EndpointId, key: string)
    | SealKey(k: MintId)
    | RecordIt(k: MintId, stored: bool)
    | Die(k: MintId)

  const START := World(NOBODY, map[], History([], [], []))

  // The random source never gives a key twice.
  predicate Enabled(w: World, act: Action) {
    match act
    case ClaimVersion(k, _, key) => k !in w.mints && forall i :: 0 <= i < |w.h.claims| ==> w.h.claims[i].key != key
    case SealKey(k) => k in w.mints && w.mints[k].Claimed?
    case RecordIt(k, _) => k in w.mints && w.mints[k].Sealed?
    case Die(k) => k in w.mints
    case _ => true
  }

  // A refusal leaves the account as it was.
  function Taking(acc: Account, answer: Result<Account, Refusal>): Account {
    if answer.Ok? then answer.value else acc
  }

  function Recording(acc: Account, version: nat, stored: bool): Result<Account, Refusal> {
    if !stored then Err(RotatedUnrecorded) else RecordMint(acc, version)
  }

  function Step(w: World, act: Action): World {
    if !Enabled(w, act) then w else
      match act
      case OpenIt(id, ref) => w.(acc := Open(w.acc, id, ref))
      case Pause(enabled) => w.(acc := Taking(w.acc, SetEnabled(w.acc, enabled)))
      case Register(named, dialable) => w.(acc := Taking(w.acc, RegisterUrl(w.acc, named, dialable)))
      case Traffic(inbound, outbound) => w.(acc := Touched(w.acc, inbound, outbound))
      case ClaimVersion(k, id, key) =>
        var claim := Claim(w.acc, id);
        if claim.Err? then w
        else World(claim.value.0, w.mints[k := Claimed(claim.value.1, key)],
                   w.h.(claims := w.h.claims + [Minting(claim.value.1, key)]))
      case SealKey(k) =>
        var Claimed(version, key) := w.mints[k];
        World(Seal(w.acc, key), w.mints[k := Sealed(version, key)], w.h.(seals := w.h.seals + [version]))
      case RecordIt(k, stored) =>
        var Sealed(version, key) := w.mints[k];
        var answer := Recording(w.acc, version, stored);
        var refusal := if answer.Ok? then None else Some(answer.error);
        World(Taking(w.acc, answer), w.mints - {k},
              w.h.(answers := w.h.answers + [Answered(Minting(version, key), refusal, w.acc.secret == Some(key))]))
      case Die(k) => w.(mints := w.mints - {k})
  }

  function After(w: World, run: seq<Action>): World {
    if run == [] then w else Step(After(w, run[..|run| - 1]), run[|run| - 1])
  }

  lemma OneMore(w: World, run: seq<Action>, act: Action)
    ensures After(w, run + [act]) == Step(After(w, run), act)
  {
    assert (run + [act])[..|run|] == run;
  }

  /* ----- the trail ----- */

  // What each verb says of the two images beside it.
  predicate Faithful(e: Entry) {
    match e.verb
    case Opened => e.before == None && e.after.enabled && e.after.url == "" && e.after.version == 1
    case SecretMinted => e.before == Some(e.after)
    case WasEnabled => e.before.Some? && !e.before.value.enabled
                       && e.after == e.before.value.(enabled := true, version := e.before.value.version + 1)
    case WasDisabled => e.before.Some? && e.before.value.enabled
                        && e.after == e.before.value.(enabled := false, version := e.before.value.version + 1)
    case UrlRegistered => e.before.Some?
                          && e.after == e.before.value.(url := e.after.url, version := e.before.value.version + 1)
  }

  // One endpoint at two moments between which no recorded decision fell.
  predicate Undecided(earlier: Endpoint, later: Endpoint) {
    && earlier.id == later.id && earlier.ref == later.ref && earlier.enabled == later.enabled
    && earlier.url == later.url
    && earlier.version <= later.version && earlier.received <= later.received && earlier.sent <= later.sent
  }

  // The trail is one unbroken account of the row as it is now.
  predicate Unbroken(trail: seq<Entry>, now: Endpoint) {
    && trail != []
    && var last := trail[|trail| - 1];
       && Faithful(last) && Undecided(last.after, now)
       && (|trail| == 1 <==> last.verb == Opened)
       && (|trail| > 1 ==> Unbroken(trail[..|trail| - 1], last.before.value))
  }

  function Edits(trail: seq<Entry>): nat {
    if trail == [] then 0
    else Edits(trail[..|trail| - 1])
         + (if trail[|trail| - 1].verb in {WasEnabled, WasDisabled, UrlRegistered} then 1 else 0)
  }

  predicate TrailHolds(acc: Account) {
    match acc.row
    case None => acc.trail == []
    case Some(row) => Unbroken(acc.trail, row.image) && row.image.version == 1 + Edits(acc.trail) + row.secretVersion
  }

  lemma ADecisionExtends(trail: seq<Entry>, e: Entry)
    requires e.before.Some? && Unbroken(trail, e.before.value) && Faithful(e)
    ensures Unbroken(trail + [e], e.after)
    ensures Edits(trail + [e]) == Edits(trail) + if e.verb == SecretMinted then 0 else 1
  {
    assert (trail + [e])[..|trail|] == trail;
  }

  lemma UpdatingKeepsTheTrail(acc: Account, act: Action)
    requires TrailHolds(acc) && (act.Pause? || act.Register?)
    ensures var answer := if act.Pause? then SetEnabled(acc, act.enabled)
                          else RegisterUrl(acc, act.named, act.dialable);
            TrailHolds(Taking(acc, answer))
  {
    if acc.row.Some? {
      var before := acc.row.value.image;
      if act.Pause? && before.enabled != act.enabled {
        ADecisionExtends(acc.trail, Entry(if act.enabled then WasEnabled else WasDisabled, Some(before),
                                          Assigned(before, SetsEnabled(act.enabled))));
      } else if act.Register? && act.dialable.Some? && (act.named == None || act.named == Some(before.id)) {
        ADecisionExtends(acc.trail, Entry(UrlRegistered, Some(before), Assigned(before, SetsUrl(act.dialable.value))));
      }
    }
  }

  lemma RecordingKeepsTheTrail(acc: Account, version: nat, stored: bool)
    requires TrailHolds(acc)
    ensures TrailHolds(Taking(acc, Recording(acc, version, stored)))
  {
    if acc.row.Some? {
      ADecisionExtends(acc.trail, Entry(SecretMinted, Some(acc.row.value.image), acc.row.value.image));
    }
  }

  lemma StepKeepsTheTrail(w: World, act: Action)
    requires TrailHolds(w.acc)
    ensures TrailHolds(Step(w, act).acc)
  {
    if Enabled(w, act) {
      match act {
        case Pause(_) => UpdatingKeepsTheTrail(w.acc, act);
        case Register(_, _) => UpdatingKeepsTheTrail(w.acc, act);
        case RecordIt(k, stored) => RecordingKeepsTheTrail(w.acc, w.mints[k].version, stored);
        case _ =>
      }
    }
  }

  lemma {:induction false} RunKeepsTheTrail(run: seq<Action>)
    ensures TrailHolds(After(START, run).acc)
  {
    if run != [] {
      RunKeepsTheTrail(run[..|run| - 1]);
      StepKeepsTheTrail(After(START, run[..|run| - 1]), run[|run| - 1]);
    }
  }

  datatype Decided = Decided(enabled: bool, url: string)

  // The trail folded from its first entry, reading only what each verb names.
  function Replayed(trail: seq<Entry>): Decided {
    if trail == [] then Decided(false, "")
    else
      var before, e := Replayed(trail[..|trail| - 1]), trail[|trail| - 1];
      match e.verb
      case Opened => Decided(true, "")
      case SecretMinted => before
      case WasEnabled => before.(enabled := true)
      case WasDisabled => before.(enabled := false)
      case UrlRegistered => before.(url := e.after.url)
  }

  lemma {:induction false} AnUnbrokenTrailReplays(trail: seq<Entry>, now: Endpoint)
    requires Unbroken(trail, now)
    ensures Replayed(trail) == Decided(now.enabled, now.url)
    decreases |trail|
  {
    if |trail| > 1 {
      AnUnbrokenTrailReplays(trail[..|trail| - 1], trail[|trail| - 1].before.value);
    }
  }

  // Each entry's before-image is the previous entry's after-image, up to
  // traffic and to the version, which only a claim moves in between; and a
  // pause is recorded exactly where the row was not paused.
  predicate Chained(trail: seq<Entry>, i: nat)
    requires 0 < i < |trail|
  {
    && trail[i].before.Some? && Undecided(trail[i - 1].after, trail[i].before.value)
    && trail[i].after.version >= trail[i].before.value.version
    && (trail[i].verb == WasEnabled ==> !Replayed(trail[..i]).enabled)
    && (trail[i].verb == WasDisabled ==> Replayed(trail[..i]).enabled)
  }

  lemma {:induction false} AnUnbrokenTrailIsChained(trail: seq<Entry>, now: Endpoint, i: nat)
    requires Unbroken(trail, now) && 0 < i < |trail|
    ensures Chained(trail, i)
    decreases |trail|
  {
    var init, last := trail[..|trail| - 1], trail[|trail| - 1];
    if i < |init| {
      AnUnbrokenTrailIsChained(init, last.before.value, i);
      assert init[..i] == trail[..i];
      assert init[i] == trail[i] && init[i - 1] == trail[i - 1];
    } else {
      AnUnbrokenTrailReplays(init, last.before.value);
      assert init[|init| - 1] == trail[i - 1];
    }
  }

  // In every run the trail replays to the row, entry follows entry, and the
  // public version counts the edits on the trail and the claims.
  lemma TheTrailReplays(run: seq<Action>)
    ensures var acc := After(START, run).acc;
            match acc.row
            case None => acc.trail == []
            case Some(row) =>
              && Replayed(acc.trail) == Decided(row.image.enabled, row.image.url)
              && row.image.version == 1 + Edits(acc.trail) + row.secretVersion
              && |acc.trail| > 0 && acc.trail[0].verb == Opened && acc.trail[0].before == None
              && forall i :: 0 < i < |acc.trail| ==> Chained(acc.trail, i)
  {
    RunKeepsTheTrail(run);
    var acc := After(START, run).acc;
    if acc.row.Some? {
      AnUnbrokenTrailReplays(acc.trail, acc.row.value.image);
      forall i | 0 < i < |acc.trail| ensures Chained(acc.trail, i) {
        AnUnbrokenTrailIsChained(acc.trail, acc.row.value.image, i);
      }
      AnUnbrokenTrailOpens(acc.trail, acc.row.value.image);
    }
  }

  lemma {:induction false} AnUnbrokenTrailOpens(trail: seq<Entry>, now: Endpoint)
    requires Unbroken(trail, now)
    ensures trail[0].verb == Opened && trail[0].before == None
    decreases |trail|
  {
    if |trail| > 1 {
      AnUnbrokenTrailOpens(trail[..|trail| - 1], trail[|trail| - 1].before.value);
    }
  }

  // One step never takes an entry off the trail nor the version back, adds one
  // entry at most, and adds none unless it decided something: a request for
  // the state already held, a refusal and traffic add nothing.
  lemma AStepOnlyAppends(w: World, act: Action)
    ensures var acc, acc' := w.acc, Step(w, act).acc;
            && |acc.trail| <= |acc'.trail| <= |acc.trail| + 1
            && acc'.trail[..|acc.trail|] == acc.trail
            && (acc.row.Some? ==>
                  && acc'.row.Some?
                  && acc'.row.value.image.id == acc.row.value.image.id
                  && acc'.row.value.image.version >= acc.row.value.image.version
                  && acc'.row.value.secretVersion >= acc.row.value.secretVersion
                  && (acc'.trail == acc.trail ==> Undecided(acc.row.value.image, acc'.row.value.image))
                  && (act.Pause? && acc.row.value.image.enabled == act.enabled ==> acc' == acc)
                  && (act.OpenIt? || act.Traffic? || act.ClaimVersion? || act.SealKey? || act.Die? ==>
                        acc'.trail == acc.trail))
  {
  }

  /* ----- the endpoint is the one first opened ----- */

  predicate OpensNothing(run: seq<Action>) {
    forall i :: 0 <= i < |run| ==> !run[i].OpenIt?
  }

  // The traffic of a run, of both directions.
  function TrafficOf(run: seq<Action>): (nat, nat) {
    if run == [] then (0, 0)
    else
      var (inbound, outbound) := TrafficOf(run[..|run| - 1]);
      match run[|run| - 1]
      case Traffic(more, also) => (inbound + more, outbound + also)
      case _ => (inbound, outbound)
  }

  lemma {:induction false} NothingIsHeldUnopened(run: seq<Action>)
    requires OpensNothing(run)
    ensures After(START, run).acc.row == None && After(START, run).acc.trail == [] && After(START, run).mints == map[]
  {
    if run != [] {
      NothingIsHeldUnopened(run[..|run| - 1]);
    }
  }

  // However often it is opened again, and under whatever id and ref, the
  // endpoint keeps those of the first opening; and its counters are the
  // traffic since.
  lemma {:induction false} TheFirstOpeningNamesTheEndpoint(before: seq<Action>, id: EndpointId, ref: string,
                                                           after: seq<Action>)
    requires OpensNothing(before)
    ensures var acc := After(START, before + [OpenIt(id, ref)] + after).acc;
            && acc.row.Some? && acc.row.value.image.id == id && acc.row.value.image.ref == ref
            && (acc.row.value.image.received, acc.row.value.image.sent) == TrafficOf(after)
            && acc.trail != [] && acc.trail[0] == Entry(Opened, None, Endpoint(id, ref, "", true, 0, 0, 1))
  {
    if after == [] {
      NothingIsHeldUnopened(before);
      OneMore(START, before, OpenIt(id, ref));
      assert before + [OpenIt(id, ref)] + [] == before + [OpenIt(id, ref)];
    } else {
      var init, last := after[..|after| - 1], after[|after| - 1];
      var shorter := before + [OpenIt(id, ref)] + init;
      TheFirstOpeningNamesTheEndpoint(before, id, ref, init);
      assert before + [OpenIt(id, ref)] + after == shorter + [last];
      OneMore(START, shorter, last);
      AStepOnlyAppends(After(START, shorter), last);
    }
  }
}
