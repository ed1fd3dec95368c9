/** What no step of the delivery protocol ever takes back. */
module Finality {
  import opened Messages
  import opened StoreSpec
  import opened StoreInvariant
  import opened DeadLetterSpec
  import opened Retry
  import opened Delivery

  /** A settled record is final, and attempts never go down. One attempt is one lease: a message that is being
      processed on the same attempt as before has been left alone in between. */
  ghost predicate NotUndone(w: World, w': World, id: string) {
    id in w.store.messages && id in w'.store.messages ==>
      && var was, now := w.store.messages[id], w'.store.messages[id];
      && was.msg.attempts <= now.msg.attempts
      && (Terminal(was.msg.state) ==> now == was)
      && (now.msg.state == Processing && now.msg.attempts == was.msg.attempts ==> now == was)
  }

  ghost predicate Later(w: World, w': World) {
    && w.published.Keys <= w'.published.Keys && (forall id :: id in w.published ==> w'.published[id] == w.published[id])
    && w.removed <= w'.removed && w.recorded <= w'.recorded
    && (forall id :: NotUndone(w, w', id))
  }

  lemma LaterTrans(w: World, w1: World, w2: World, p: Policy)
    requires WorldOk(w, p) && WorldOk(w1, p) && WorldOk(w2, p) && Later(w, w1) && Later(w1, w2)
    ensures Later(w, w2)
  {
    forall id
      ensures NotUndone(w, w2, id)
    {
      assert NotUndone(w, w1, id) && NotUndone(w1, w2, id);
      assert StoredOk(w, id, p);
      assert id in w.store.messages && id in w2.store.messages ==> id in w1.store.messages;
    }
  }

  lemma EnterLater(w: World, batch: seq<Message>, p: Policy)
    requires WorldOk(w, p) && Fresh(w, batch)
    ensures Later(w, Enter(w, batch))
  {
    hide Inv, BookOk, MessageOk, Enrol, AppendAll;
    if Append(w.store, batch).1.Ok? {
      EnteredKeys(w, batch, p);
      AppendAllMessages(w.store, batch);
      forall id
        ensures NotUndone(w, Enter(w, batch), id)
      {}
    }
  }

  lemma ClaimLater(w: World, req: ClaimRequest, p: Policy)
    requires WorldOk(w, p) && req.now + req.lease != ZERO_TIME
    ensures Later(w, Apply(w, Claim(req), p))
  {
    hide WorldOk, StoreSpec.Claim;
    StoreIsOk(w, p);
    if w.store.closed {
      ClosedClaim(w.store, req);
    } else {
      ClaimIsExact(w.store, req);
    }
  }

  lemma MovedLater(w: World, next: (StoreState, Outcome<()>), id: string, t: Tally)
    requires next.1.Ok? ==> MovesOne(w.store, next.0, id)
    ensures Later(w, Moved(w, next, id, t))
  {}

  /** The leased operations change one record that is being processed, and no attempt count. */
  lemma ReplacedMoves(s: StoreState, next: (StoreState, Outcome<()>), id: string, change: Record -> Record)
    requires Replaced(s, next, id, change) && next.1.Ok?
    requires ContentOf(change(s.messages[id]).msg) == ContentOf(s.messages[id].msg)
    requires change(s.messages[id]).msg.attempts == s.messages[id].msg.attempts
    requires change(s.messages[id]).msg.state != Processing
    ensures MovesOne(s, next.0, id)
  {
    hide Inv;
  }

  lemma AcknowledgeMoves(s: StoreState, id: string, at: int)
    requires Inv(s) && Acknowledge(s, id, at).1.Ok?
    ensures MovesOne(s, Acknowledge(s, id, at).0, id)
  {
    hide Inv, Acknowledge, MovesOne;
    AcknowledgeReplaces(s, id, at);
    ReplacedMoves(s, Acknowledge(s, id, at), id, r => Acked(r, at));
  }

  lemma RetryMoves(s: StoreState, req: RetryRequest)
    requires Inv(s) && ScheduleRetry(s, req).1.Ok?
    ensures MovesOne(s, ScheduleRetry(s, req).0, req.id)
  {
    hide Inv, ScheduleRetry, MovesOne;
    RetryReplaces(s, req);
    ReplacedMoves(s, ScheduleRetry(s, req), req.id, r => Retried(r, req));
  }

  lemma ReleaseMoves(s: StoreState, id: string, at: int)
    requires Inv(s) && Release(s, id, at).1.Ok?
    ensures MovesOne(s, Release(s, id, at).0, id)
  {
    hide Inv, Release, MovesOne;
    ReleaseReplaces(s, id, at);
    ReplacedMoves(s, Release(s, id, at), id, r => Released(r, at));
  }

  lemma MarkMoves(s: StoreState, id: string, reason: string, at: int)
    requires Inv(s) && MarkDeadLettered(s, id, reason, at).1.Ok?
    ensures MovesOne(s, MarkDeadLettered(s, id, reason, at).0, id)
  {
    hide Inv, MarkDeadLettered, MovesOne;
    MarkReplaces(s, id, reason, at);
    ReplacedMoves(s, MarkDeadLettered(s, id, reason, at), id, r => Buried(r, reason, at));
  }

  lemma RemovalLater(w: World, queue: string, p: Policy)
    requires WorldOk(w, p)
    ensures Later(w, Without(w, StoreSpec.Purge(w.store, queue).0))
    ensures Later(w, Without(w, StoreSpec.DeleteQueue(w.store, queue).0))
  {
    hide Inv, BookOk, MessageOk;
  }

  lemma LeasedStepIsLater(w: World, step: Step, p: Policy)
    requires Inv(w.store)
    requires step.Ack? || step.Retry? || step.Requeue? || step.Undispatched? || step.Reclaim? || step.MarkDead?
    ensures Later(w, Apply(w, step, p))
  {
    hide Inv, Later, MovesOne, Moved, Acknowledge, ScheduleRetry, MarkDeadLettered, Release;
    match step
    case Ack(id, at) =>
      var t := TallyOf(w, id);
      if Acknowledge(w.store, id, at).1.Ok? { AcknowledgeMoves(w.store, id, at); }
      MovedLater(w, Acknowledge(w.store, id, at), id, t.(acks := t.acks + 1));
    case Retry(basis, reason, now, roll) =>
      var t, wait := TallyOf(w, basis.id), p.BackoffWithJitter(basis.attempts, roll);
      var req := RetryRequest(basis.id, basis.attempts, reason, now + wait, now);
      if ScheduleRetry(w.store, req).1.Ok? { RetryMoves(w.store, req); }
      MovedLater(w, ScheduleRetry(w.store, req), basis.id,
                 t.(retries := t.retries + 1, excess := Count(t, Stale(w, basis)), delay := t.delay + wait));
    case Requeue(id, at) => ReleaseLater(w, id, at, true);
    case Undispatched(id, at) => ReleaseLater(w, id, at, true);
    case Reclaim(basis, now) => ReleaseLater(w, basis.id, now, Stale(w, basis));
    case MarkDead(basis, reason, permanent, now) =>
      var t := TallyOf(w, basis.id);
      if MarkDeadLettered(w.store, basis.id, reason, now).1.Ok? { MarkMoves(w.store, basis.id, reason, now); }
      MovedLater(w, MarkDeadLettered(w.store, basis.id, reason, now), basis.id, Burial(t, permanent));
  }

  lemma ReleaseLater(w: World, id: string, at: int, stale: bool)
    requires Inv(w.store)
    ensures var t := TallyOf(w, id);
            Later(w, Moved(w, Release(w.store, id, at), id, t.(releases := t.releases + 1, excess := Count(t, stale))))
  {
    hide Inv, Later, MovesOne;
    var t := TallyOf(w, id);
    if Release(w.store, id, at).1.Ok? { ReleaseMoves(w.store, id, at); }
    MovedLater(w, Release(w.store, id, at), id, t.(releases := t.releases + 1, excess := Count(t, stale)));
  }

  /** Steps that leave every stored message and every publication alone. */
  lemma QuietLater(w: World, w': World)
    requires w'.published == w.published && w'.removed == w.removed && w.recorded <= w'.recorded
             && w'.store.messages == w.store.messages
    ensures Later(w, w')
  {}

  lemma QuietStepIsLater(w: World, step: Step, p: Policy)
    requires Enabled(w, step, p)
    requires !step.Publish? && !step.Claim? && !step.Replay? && !step.Purge? && !step.DeleteQueue?
    requires !step.Ack? && !step.Retry? && !step.Requeue? && !step.Undispatched? && !step.Reclaim? && !step.MarkDead?
    ensures Later(w, Apply(w, step, p))
  {
    hide Later, Enter, Without, Moved, HasRecord;
    QuietLater(w, Apply(w, step, p));
  }

  lemma StepIsLater(w: World, step: Step, p: Policy)
    requires WorldOk(w, p) && Enabled(w, step, p)
    ensures Later(w, Apply(w, step, p))
  {
    hide WorldOk, Later, Enter, Without, Moved, HasRecord;
    match step
    case Publish(batch) => EnterLater(w, batch, p);
    case Claim(req) => ClaimLater(w, req, p);
    case Replay(record, id, maxAttempts, now) => EnterLater(w, [ReplayOf(record, id, maxAttempts, now)], p);
    case Purge(queue) => RemovalLater(w, queue, p);
    case DeleteQueue(queue) => RemovalLater(w, queue, p);
    case _ =>
      if step.Ack? || step.Retry? || step.Requeue? || step.Undispatched? || step.Reclaim? || step.MarkDead? {
        StoreIsOk(w, p);
        LeasedStepIsLater(w, step, p);
      } else {
        QuietStepIsLater(w, step, p);
      }
  }

  /** Whatever happens after any point of any run: publications, records and removals stand, attempts never
      go down, and an acknowledged or dead-lettered message is never changed or brought back. */
  lemma {:induction false} SettledIsFinal(w: World, steps: seq<Step>, p: Policy)
    requires WorldOk(w, p) && p.Valid() && Legal(w, steps, p)
    ensures Later(w, Run(w, steps, p))
    decreases |steps|
  {
    hide WorldOk, Later, Enabled, Apply;
    if steps == [] {
      LaterRefl(w);
    } else {
      var w1 := Apply(w, steps[0], p);
      StepKeeps(w, steps[0], p);
      StepIsLater(w, steps[0], p);
      SettledIsFinal(w1, steps[1..], p);
      RunKeeps(w1, steps[1..], p);
      LaterTrans(w, w1, Run(w1, steps[1..], p), p);
    }
  }

  lemma LaterRefl(w: World)
    ensures Later(w, w)
  {}
}
