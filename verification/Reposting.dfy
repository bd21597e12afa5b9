// When a message is posted afresh, in terms a sender keeps: never twice, or,
// with one tick in flight, again once its earlier requests were decided
// without an entry (extensions/openchannel/drain.go:202-289).
module Reposting {
  import opened Basics
  import opened Records
  import opened DrainFailure
  import opened Inbound
  import opened QueueMachine
  import opened AttemptBudget
  import opened ArchiveRace

  /* ----- a sender that posts no message twice ----- */

  // No message id is accepted twice under an endpoint. A request the nonce
  // check refuses is no second request, so retries and replays are free.
  ghost predicate IsNewMessage(w: World, act: Action) {
    act.InsertRow? && Enabled(w, act) && act.doc.Some? && !NonceTaken(w.q, w.arriving[act.token].owner, act.nonce) ==>
      forall id :: id in w.h.accepted && w.h.accepted[id].owner == w.arriving[act.token].owner
                   && w.h.accepted[id].doc.Some? ==>
        w.h.accepted[id].doc.value.messageId != act.doc.value.messageId
  }

  // One key is one message at one endpoint.
  lemma OneKeyIsOneMessage(q: Queue, one: Sent, other: Sent, k: string)
    requires Schema(q) && forall m :: m in q.edges ==> ':' !in q.edges[m].ref
    requires KeyIn(q.edges, one) == Some(k) && KeyIn(q.edges, other) == Some(k)
    ensures one.owner == other.owner && one.doc.Some? && other.doc.Some?
    ensures one.doc.value.messageId == other.doc.value.messageId
  {
    ColonFreePrefixSplits(q.edges[one.owner].ref, q.edges[other.owner].ref, one.doc.value.messageId,
                          other.doc.value.messageId);
  }

  lemma WhatIsFiledUnderAKey(w: World, id: RequestId)
    requires id in Keys(w)
    ensures id in w.h.accepted && KeyIn(w.q.edges, w.h.accepted[id]) == Some(Keys(w)[id])
  {
  }

  lemma ANewMessageIsFiledAlone(w: World, act: Action, k: string, id: RequestId)
    requires Schema(w.q) && forall m :: m in w.q.edges ==> ':' !in w.q.edges[m].ref
    requires IsNewMessage(w, act) && Inserts(w, act, k) && id in Keys(w)
    ensures Keys(w)[id] != k
  {
    WhatIsFiledUnderAKey(w, id);
    if Keys(w)[id] == k {
      OneKeyIsOneMessage(w.q, Sent(w.arriving[act.token].owner, act.doc), w.h.accepted[id], k);
    }
  }

  lemma ANewMessageHasANewKey(w: World, act: Action, k: string)
    requires Accounted(w) && IsNewMessage(w, act) && Inserts(w, act, k)
    ensures forall id :: id in Keys(w) ==> Keys(w)[id] != k
  {
    forall id | id in Keys(w) ensures Keys(w)[id] != k {
      ANewMessageIsFiledAlone(w, act, k, id);
    }
  }

  lemma ANewMessageIsPostedAfresh(w: World, act: Action)
    requires ArchiveRace.Kept(w) && IsNewMessage(w, act)
    ensures IsPostedAfresh(w, act)
  {
    forall k | Inserts(w, act, k)
      ensures k !in w.core && forall id :: id in Keys(w) && Keys(w)[id] == k ==> !Live(w.q, w.ticks, id)
    {
      ANewMessageHasANewKey(w, act, k);
    }
  }

  ghost predicate PostsOnce(w: World, act: Action) {
    IsNewMessage(w, act) && SparesNeededMarkers(w, act)
  }

  lemma {:induction false} ARunOfNewMessagesIsKept(w: World, run: seq<Action>)
    requires ArchiveRace.Kept(w) && ValidRun(w, run) && Throughout(w, run, PostsOnce)
    ensures ArchiveRace.Kept(After(w, run))
    decreases |run|
  {
    if run != [] {
      ANewMessageIsPostedAfresh(w, run[0]);
      StepKeepsTheRun(w, run[0]);
      ARunOfNewMessagesIsKept(Step(w, run[0]), run[1..]);
    }
  }

  // Over any interleaving, overlapping ticks included: where no message is
  // accepted twice, retries and replays notwithstanding, and no needed marker
  // expired, no landed row claims an archived entry.
  lemma PostingEachMessageOnceIsEnough(run: seq<Action>)
    requires ValidRun(EMPTY, run) && Throughout(EMPTY, run, PostsOnce)
    ensures Honest(After(EMPTY, run).q, After(EMPTY, run).h.delivered)
  {
    ARunOfNewMessagesIsKept(EMPTY, run);
  }

  /* ----- a sender that posts a message again ----- */

  // The message has no entry, and every earlier request of it was decided.
  ghost predicate IsPostedOnceDecided(w: World, act: Action) {
    forall k :: Inserts(w, act, k) ==>
      k !in w.core && forall id :: id in Keys(w) && Keys(w)[id] == k ==> !IsWaiting(w.q, id)
  }

  // A tick alone in flight holds only rows that wait.
  lemma WhatIsHeldWaits(w: World, id: RequestId)
    requires Budgeted(w)
    ensures HeldByATick(w.ticks, id) ==> IsWaiting(w.q, id)
  {
    if HeldByATick(w.ticks, id) {
      var t :| t in w.ticks && Holding(w.ticks[t], id);
      assert Holds(w.q, w.ticks[t]);
    }
  }

  lemma ADecidedMessageIsPostedAfresh(w: World, act: Action)
    requires Budgeted(w) && IsPostedOnceDecided(w, act)
    ensures IsPostedAfresh(w, act)
  {
    forall k, id | Inserts(w, act, k) && id in Keys(w) && Keys(w)[id] == k ensures !Live(w.q, w.ticks, id) {
      WhatIsHeldWaits(w, id);
    }
  }

  ghost predicate PostsAgainOnceDecided(w: World, act: Action) {
    IsPostedOnceDecided(w, act) && SparesNeededMarkers(w, act) && OneTick(w, act)
  }

  lemma {:induction false} ARunOfRepostsIsKept(w: World, run: seq<Action>)
    requires ArchiveRace.Kept(w) && Budgeted(w) && ValidRun(w, run) && Throughout(w, run, PostsAgainOnceDecided)
    ensures ArchiveRace.Kept(After(w, run))
    decreases |run|
  {
    if run != [] {
      ADecidedMessageIsPostedAfresh(w, run[0]);
      StepKeepsTheRun(w, run[0]);
      StepIsBudgeted(w, run[0]);
      ARunOfRepostsIsKept(Step(w, run[0]), run[1..]);
    }
  }

  // One tick in flight: a message may be posted again, and again, once its
  // earlier requests were decided and the core holds no entry for it, as after
  // a parking; still no landed row claims an archived entry.
  lemma RepostingOnceDecidedIsSafe(run: seq<Action>)
    requires ValidRun(EMPTY, run) && Throughout(EMPTY, run, PostsAgainOnceDecided)
    ensures Honest(After(EMPTY, run).q, After(EMPTY, run).h.delivered)
  {
    ARunOfRepostsIsKept(EMPTY, run);
  }
}
