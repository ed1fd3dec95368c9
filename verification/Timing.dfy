/** Who may touch a message, and when, over runs of the delivery protocol: a waiting message is left alone until a
    claim at or after its time, a leased one until its delivery is answered. */
module Timing {
  import opened Messages
  import DeadLetterSpec
  import opened StoreSpec
  import opened StoreInvariant
  import opened Leasing
  import opened Retry
  import opened Delivery
  import opened Finality

  /** The step ends the delivery of this message, if it is being processed. */
  predicate Answers(step: Step, id: string) {
    match step
    case Ack(x, _) => x == id
    case Retry(basis, _, _, _) => basis.id == id
    case Requeue(x, _) => x == id
    case Undispatched(x, _) => x == id
    case Reclaim(basis, _) => basis.id == id
    case MarkDead(basis, _, _, _) => basis.id == id
    case _ => false
  }

  /** The step has no business with a message in this state: it is no claim of its queue for which its time has come,
      and no answer to its delivery. */
  predicate Spares(step: Step, m: Message) {
    && (step.Claim? && step.request.queue == m.queue && m.availableAt <= step.request.now ==>
          m.state != Queued && m.state != Retrying)
    && (Answers(step, m.id) ==> m.state != Processing)
  }

  lemma ReplacedSpares(s: StoreState, next: (StoreState, Outcome<()>), x: string, change: Record -> Record, id: string)
    requires Replaced(s, next, x, change) && id in s.messages && (x == id ==> s.messages[id].msg.state != Processing)
    ensures id in next.0.messages && next.0.messages[id] == s.messages[id]
  {
    hide Inv;
  }

  lemma AnswerSpares(w: World, step: Step, p: Policy, id: string)
    requires Inv(w.store) && id in w.store.messages && Spares(step, w.store.messages[id].msg)
    requires step.Ack? || step.Retry? || step.Requeue? || step.Undispatched? || step.Reclaim? || step.MarkDead?
    ensures var w' := Apply(w, step, p);
            id in w'.store.messages && w'.store.messages[id] == w.store.messages[id]
  {
    hide Inv, Acknowledge, ScheduleRetry, Release, MarkDeadLettered;
    RecordAt(w.store, id);
    match step
    case Ack(x, at) =>
      AcknowledgeReplaces(w.store, x, at);
      ReplacedSpares(w.store, Acknowledge(w.store, x, at), x, r => Acked(r, at), id);
    case Retry(basis, reason, now, roll) =>
      var wait := p.BackoffWithJitter(basis.attempts, roll);
      var req := RetryRequest(basis.id, basis.attempts, reason, now + wait, now);
      RetryReplaces(w.store, req);
      ReplacedSpares(w.store, ScheduleRetry(w.store, req), req.id, r => Retried(r, req), id);
    case Requeue(x, at) => ReleaseSpares(w.store, x, at, id);
    case Undispatched(x, at) => ReleaseSpares(w.store, x, at, id);
    case Reclaim(basis, now) => ReleaseSpares(w.store, basis.id, now, id);
    case MarkDead(basis, reason, _, now) =>
      MarkReplaces(w.store, basis.id, reason, now);
      var next := MarkDeadLettered(w.store, basis.id, reason, now);
      ReplacedSpares(w.store, next, basis.id, r => Buried(r, reason, now), id);
  }

  lemma ReleaseSpares(s: StoreState, x: string, at: int, id: string)
    requires Inv(s) && id in s.messages && (x == id ==> s.messages[id].msg.state != Processing)
    ensures id in Release(s, x, at).0.messages && Release(s, x, at).0.messages[id] == s.messages[id]
  {
    hide Inv, Release;
    ReleaseReplaces(s, x, at);
    ReplacedSpares(s, Release(s, x, at), x, r => Released(r, at), id);
  }

  lemma ClaimSpares(w: World, req: ClaimRequest, p: Policy, id: string)
    requires Inv(w.store) && id in w.store.messages && Spares(Claim(req), w.store.messages[id].msg)
    ensures var w' := Apply(w, Claim(req), p);
            id in w'.store.messages && w'.store.messages[id] == w.store.messages[id]
  {
    hide Inv, StoreSpec.Claim;
    if w.store.closed {
      ClosedClaim(w.store, req);
    } else {
      ClaimTakesOnlyTheAvailable(w.store, req);
      RecordAt(w.store, id);
      ReturnedIds(StoreSpec.Claim(w.store, req).1.value, id);
    }
  }

  lemma EnterSpares(w: World, batch: seq<Message>, p: Policy, id: string)
    requires WorldOk(w, p) && Fresh(w, batch) && id in w.store.messages
    ensures var w' := Enter(w, batch);
            id in w'.store.messages && w'.store.messages[id] == w.store.messages[id]
  {
    hide WorldOk, AppendAll, Enrol;
    StoredAt(w, id, p);
    if Append(w.store, batch).1.Ok? { AppendAllMessages(w.store, batch); }
  }

  /** A step that spares a message leaves it alone, or removes it with its queue. */
  lemma StepSpares(w: World, step: Step, p: Policy, id: string)
    requires WorldOk(w, p) && Enabled(w, step, p) && id in w.store.messages
    requires Spares(step, w.store.messages[id].msg)
    ensures var w' := Apply(w, step, p);
            id in w'.store.messages ==> w'.store.messages[id] == w.store.messages[id]
  {
    hide WorldOk, Enabled, Spares, Apply;
    StoreIsOk(w, p);
    match step
    case Publish(batch) => PublishSpares(w, batch, p, id);
    case Replay(record, x, maxAttempts, now) => ReplaySpares(w, step, p, id);
    case Claim(req) => ClaimSpares(w, req, p, id);
    case _ =>
      if step.Ack? || step.Retry? || step.Requeue? || step.Undispatched? || step.Reclaim? || step.MarkDead? {
        AnswerSpares(w, step, p, id);
      } else {
        OtherSpares(w, step, p, id);
      }
  }

  lemma PublishSpares(w: World, batch: seq<Message>, p: Policy, id: string)
    requires WorldOk(w, p) && Enabled(w, Publish(batch), p) && id in w.store.messages
    ensures var w' := Apply(w, Publish(batch), p);
            id in w'.store.messages && w'.store.messages[id] == w.store.messages[id]
  {
    hide WorldOk, Enter;
    EnterSpares(w, batch, p, id);
  }

  lemma ReplaySpares(w: World, step: Step, p: Policy, id: string)
    requires WorldOk(w, p) && step.Replay? && Enabled(w, step, p) && id in w.store.messages
    ensures var w' := Apply(w, step, p);
            id in w'.store.messages && w'.store.messages[id] == w.store.messages[id]
  {
    hide WorldOk, Enter;
    EnterSpares(w, [DeadLetterSpec.ReplayOf(step.record, step.id, step.maxAttempts, step.now)], p, id);
  }

  lemma OtherSpares(w: World, step: Step, p: Policy, id: string)
    requires id in w.store.messages && !step.Publish? && !step.Replay? && !step.Claim?
    requires !step.Ack? && !step.Retry? && !step.Requeue? && !step.Undispatched? && !step.Reclaim? && !step.MarkDead?
    ensures var w' := Apply(w, step, p);
            id in w'.store.messages ==> w'.store.messages[id] == w.store.messages[id]
  {}

  lemma StaysGone(w: World, w1: World, steps: seq<Step>, p: Policy, id: string)
    requires WorldOk(w, p) && id in w.store.messages && WorldOk(w1, p) && Later(w, w1) && id !in w1.store.messages
    requires p.Valid() && Legal(w1, steps, p)
    ensures id !in Run(w1, steps, p).store.messages
  {
    hide Run, Legal;
    assert id in w1.removed;
    SettledIsFinal(w1, steps, p);
    RunKeeps(w1, steps, p);
  }

  /** A message that every step of a run spares is left alone, or removed with its queue. */
  lemma {:induction false} LeftAlone(w: World, steps: seq<Step>, p: Policy, id: string)
    requires WorldOk(w, p) && p.Valid() && Legal(w, steps, p) && id in w.store.messages
    requires forall i :: 0 <= i < |steps| ==> Spares(steps[i], w.store.messages[id].msg)
    ensures var w' := Run(w, steps, p);
            id in w'.store.messages ==> w'.store.messages[id] == w.store.messages[id]
    decreases |steps|
  {
    hide WorldOk, Enabled, Apply, Spares;
    if steps != [] {
      var w1 := Apply(w, steps[0], p);
      StepKeeps(w, steps[0], p);
      StepSpares(w, steps[0], p, id);
      if id in w1.store.messages {
        LeftAlone(w1, steps[1..], p, id);
      } else {
        StepIsLater(w, steps[0], p);
        StaysGone(w, w1, steps[1..], p, id);
      }
    }
  }

  // ----- The lifecycle -----

  /** Which step takes a message from one state to another. */
  predicate Follows(step: Step, before: State, after: State) {
    match step
    case Claim(_) => before in {Queued, Retrying} && after == Processing
    case Ack(_, _) => before == Processing && after == Acknowledged
    case Retry(_, _, _, _) => before == Processing && after == Retrying
    case Requeue(_, _) => before == Processing && after == Queued
    case Undispatched(_, _) => before == Processing && after == Queued
    case Reclaim(_, _) => before == Processing && after == Queued
    case MarkDead(_, _, _, _) => before == Processing && after == DeadLettered
    case _ => false
  }

  lemma AnswerFollows(w: World, step: Step, p: Policy, id: string)
    requires Inv(w.store) && id in w.store.messages && w.store.messages[id].msg.state == Processing && Answers(step, id)
    ensures var w' := Apply(w, step, p);
            id in w'.store.messages && Follows(step, Processing, w'.store.messages[id].msg.state)
  {
    hide Inv;
    RecordAt(w.store, id);
  }

  lemma ClaimFollows(w: World, req: ClaimRequest, p: Policy, id: string)
    requires Inv(w.store) && id in w.store.messages
    ensures var w' := Apply(w, Claim(req), p);
            && id in w'.store.messages
            && (w'.store.messages[id] == w.store.messages[id] ||
                  Follows(Claim(req), w.store.messages[id].msg.state, w'.store.messages[id].msg.state))
  {
    hide Inv, StoreSpec.Claim;
    if w.store.closed {
      ClosedClaim(w.store, req);
    } else {
      ClaimTakesOnlyTheAvailable(w.store, req);
      RecordAt(w.store, id);
      ReturnedIds(StoreSpec.Claim(w.store, req).1.value, id);
    }
  }

  /** Every step leaves a message as it was, moves it along the lifecycle in its own way, or removes it. */
  lemma StepFollowsTheLifecycle(w: World, step: Step, p: Policy, id: string)
    requires WorldOk(w, p) && Enabled(w, step, p) && id in w.store.messages
    ensures var w' := Apply(w, step, p);
            id in w'.store.messages ==>
              || w'.store.messages[id] == w.store.messages[id]
              || Follows(step, w.store.messages[id].msg.state, w'.store.messages[id].msg.state)
  {
    hide WorldOk, Apply, Enabled, Follows, Spares;
    StoreIsOk(w, p);
    var m := w.store.messages[id].msg;
    assert m.id == id by { RecordAt(w.store, id); }
    if step.Claim? {
      ClaimFollows(w, step.request, p, id);
    } else if Answers(step, id) && m.state == Processing {
      AnswerFollows(w, step, p, id);
    } else {
      NotForIt(step, m);
      StepSpares(w, step, p, id);
    }
  }

  lemma NotForIt(step: Step, m: Message)
    requires !step.Claim? && (Answers(step, m.id) ==> m.state != Processing)
    ensures Spares(step, m)
  {}

  /** And each of these moves is one, or two in a row, that the lifecycle table allows. */
  lemma LifecycleIsAllowed(step: Step, before: State, after: State)
    requires Follows(step, before, after)
    ensures || after in Transitions(before)
            || exists between :: between in Transitions(before) && after in Transitions(between)
  {
    if step.Claim? {
      assert before == Queued || (Queued in Transitions(before) && after in Transitions(Queued));
    } else {
      assert after in Transitions(before) || (Failed in Transitions(before) && after in Transitions(Failed));
    }
  }

  /** What can lead to a state: nothing back to CREATED, to settled only from PROCESSING and FAILED. */
  lemma WaysInto(before: State, after: State)
    ensures after in Transitions(before) <==>
              match after
              case Created => false
              case Queued => before in {Created, Processing, Retrying}
              case Processing => before == Queued
              case Acknowledged => before == Processing
              case Failed => before in {Created, Processing}
              case Retrying => before == Failed
              case DeadLettered => before == Failed
  {}

  // ----- Backoff -----

  /** Every claim of the queue is made before that time. */
  predicate ClaimsBefore(steps: seq<Step>, queue: string, time: int) {
    forall i :: 0 <= i < |steps| && steps[i].Claim? && steps[i].request.queue == queue ==> steps[i].request.now < time
  }

  /** A retry waits out its backoff: whatever else happens, as long as all claims of its queue are made before the end
      of the wait, the message stays as the retry left it, or goes with its queue, and the next claim before that
      end does not take it either. */
  lemma RetryWaitsItsTurn(w: World, basis: Message, reason: string, now: int, roll: real, steps: seq<Step>, p: Policy,
                          req: ClaimRequest)
    requires WorldOk(w, p) && p.Valid() && Enabled(w, Retry(basis, reason, now, roll), p)
    requires basis.id in w.store.messages && w.store.messages[basis.id].msg.state == Processing
    requires Legal(Apply(w, Retry(basis, reason, now, roll), p), steps, p)
    requires var end := now + p.BackoffWithJitter(basis.attempts, roll);
             ClaimsBefore(steps, w.store.messages[basis.id].msg.queue, end)
             && req.queue == w.store.messages[basis.id].msg.queue && req.now < end
    ensures var was := w.store.messages[basis.id].msg;
            var end := now + p.BackoffWithJitter(basis.attempts, roll);
            var s := Run(Apply(w, Retry(basis, reason, now, roll), p), steps, p).store;
            && (basis.id in s.messages ==>
                  s.messages[basis.id] == Record(was.(state := Retrying, updatedAt := now, availableAt := end,
                                                      lastError := reason), ZERO_TIME, ""))
            && (!s.closed ==> basis.id !in IdsOf(StoreSpec.Claim(s, req).1.value))
  {
    hide WorldOk, Inv, StoreSpec.Claim, Legal, Run;
    var id, retry := basis.id, Retry(basis, reason, now, roll);
    var w1 := Apply(w, retry, p);
    StepKeeps(w, retry, p);
    RetriedRecord(w, basis, reason, now, roll, p);
    forall i | 0 <= i < |steps|
      ensures Spares(steps[i], w1.store.messages[id].msg)
    {}
    LeftAlone(w1, steps, p, id);
    RunKeeps(w1, steps, p);
    var s := Run(w1, steps, p).store;
    StoreIsOk(Run(w1, steps, p), p);
    if !s.closed { NotTakenEarly(s, req, id, w1.store.messages[id].msg.availableAt); }
  }

  lemma RetriedRecord(w: World, basis: Message, reason: string, now: int, roll: real, p: Policy)
    requires WorldOk(w, p) && basis.id in w.store.messages && w.store.messages[basis.id].msg.state == Processing
    ensures var was := w.store.messages[basis.id].msg;
            var end := now + p.BackoffWithJitter(basis.attempts, roll);
            var ms := Apply(w, Retry(basis, reason, now, roll), p).store.messages;
            && basis.id in ms && was.id == basis.id
            && ms[basis.id] == Record(was.(state := Retrying, updatedAt := now, availableAt := end,
                                           lastError := reason), ZERO_TIME, "")
  {
    hide WorldOk, Inv;
    StoreIsOk(w, p);
    RecordAt(w.store, basis.id);
  }

  lemma NotTakenEarly(s: StoreState, req: ClaimRequest, id: string, time: int)
    requires Inv(s) && !s.closed && req.now < time
    requires id in s.messages ==> s.messages[id].msg.availableAt == time
    ensures id !in IdsOf(StoreSpec.Claim(s, req).1.value)
  {
    hide Inv, StoreSpec.Claim;
    ClaimTakesOnlyTheAvailable(s, req);
    ReturnedIds(StoreSpec.Claim(s, req).1.value, id);
  }

  // ----- Exclusive delivery -----

  /** A claimed message belongs to its consumer: until somebody answers the delivery, no step changes its record short
      of removing it with its queue, no claim takes it at whatever time, and no scan finds it before its lease ends. */
  lemma DeliveryIsExclusive(w: World, req: ClaimRequest, m: Message, steps: seq<Step>, p: Policy)
    requires WorldOk(w, p) && p.Valid() && !w.store.closed && Enabled(w, Claim(req), p)
    requires m in StoreSpec.Claim(w.store, req).1.value
    requires Legal(Apply(w, Claim(req), p), steps, p) && forall i :: 0 <= i < |steps| ==> !Answers(steps[i], m.id)
    ensures var s := Run(Apply(w, Claim(req), p), steps, p).store;
            && (m.id in s.messages ==> s.messages[m.id] == Record(m, req.now + req.lease, req.consumer))
            && (forall other: ClaimRequest :: !s.closed ==> m.id !in IdsOf(StoreSpec.Claim(s, other).1.value))
            && (forall now, limit :: now < req.now + req.lease ==> m.id !in IdsOf(ExpiredLeases(s, now, limit)))
  {
    hide WorldOk, Inv, StoreSpec.Claim, Legal, Run, ExpiredLeases, Apply, Enabled, Answers;
    LeaseStays(w, req, m, steps, p);
    var s := Run(Apply(w, Claim(req), p), steps, p).store;
    forall other: ClaimRequest | !s.closed
      ensures StoreSpec.Claim(s, other).1.Ok? && m.id !in IdsOf(StoreSpec.Claim(s, other).1.value)
    {
      NotTakenWhileLeased(s, other, m.id);
    }
    forall now, limit | now < req.now + req.lease
      ensures m.id !in IdsOf(ExpiredLeases(s, now, limit))
    {
      NotFoundEarly(s, now, limit, m.id);
    }
  }

  lemma LeaseStays(w: World, req: ClaimRequest, m: Message, steps: seq<Step>, p: Policy)
    requires WorldOk(w, p) && p.Valid() && !w.store.closed && Enabled(w, Claim(req), p)
    requires m in StoreSpec.Claim(w.store, req).1.value
    requires Legal(Apply(w, Claim(req), p), steps, p) && forall i :: 0 <= i < |steps| ==> !Answers(steps[i], m.id)
    ensures var s := Run(Apply(w, Claim(req), p), steps, p).store;
            && Inv(s) && m.state == Processing
            && (m.id in s.messages ==> s.messages[m.id] == Record(m, req.now + req.lease, req.consumer))
  {
    hide WorldOk, Inv, StoreSpec.Claim, Legal, Run, Answers, Spares;
    StoreIsOk(w, p);
    ClaimTakesOnlyTheAvailable(w.store, req);
    var w1 := Apply(w, Claim(req), p);
    StepKeeps(w, Claim(req), p);
    forall i | 0 <= i < |steps|
      ensures Spares(steps[i], m)
    {
      SparesProcessing(steps[i], m);
    }
    LeftAlone(w1, steps, p, m.id);
    RunKeeps(w1, steps, p);
    StoreIsOk(Run(w1, steps, p), p);
  }

  lemma SparesProcessing(step: Step, m: Message)
    requires m.state == Processing && !Answers(step, m.id)
    ensures Spares(step, m)
  {}

  lemma NotTakenWhileLeased(s: StoreState, req: ClaimRequest, id: string)
    requires Inv(s) && !s.closed && (id in s.messages ==> s.messages[id].msg.state == Processing)
    ensures StoreSpec.Claim(s, req).1.Ok? && id !in IdsOf(StoreSpec.Claim(s, req).1.value)
  {
    hide Inv, StoreSpec.Claim;
    ClaimTakesOnlyTheAvailable(s, req);
    ReturnedIds(StoreSpec.Claim(s, req).1.value, id);
  }

  lemma NotFoundEarly(s: StoreState, now: int, limit: int, id: string)
    requires Inv(s) && (id in s.messages ==> now < s.messages[id].lease)
    ensures id !in IdsOf(ExpiredLeases(s, now, limit))
  {
    hide Inv, ExpiredLeases;
    ScanFindsTheEnded(s, now, limit);
    ReturnedIds(ExpiredLeases(s, now, limit), id);
  }
}
