/** Maintenance against running leases. A pass first reads which leases have ended and then handles the messages one
    by one, so by the time it reaches a message that message may have been claimed again. */
module Leases {
  import Ordering
  import opened Messages
  import opened StoreSpec
  import opened StoreInvariant
  import opened Leasing
  import opened DeadLetterSpec
  import opened Retry
  import opened Delivery
  import opened Finality
  import opened Timing
  import opened Interleaving
  import E = EngineRuns
  import R = Reclaiming

  const IDLE := System(Start(), map[])

  /** The call is about to requeue or bury a message whose lease is still running. */
  ghost predicate Early(s: System, k: nat) {
    && k in s.calls && s.calls[k] != [] && s.calls[k][0].Expiring?
    && var task := s.calls[k][0];
    && task.m.id in s.world.store.messages
    && var r := s.world.store.messages[task.m.id];
    && r.msg.state == Processing && task.now < r.lease
  }

  lemma EarlyIsOutOfDate(s: System, p: Policy, k: nat)
    requires SystemOk(s, p) && Early(s, k)
    ensures s.calls[k][0].m.attempts < s.world.store.messages[s.calls[k][0].m.id].msg.attempts
  {
    hide WorldOk;
    assert CallOk(s, k, p);
    var m := s.calls[k][0].m;
    SeenAt(s.world, m, p);
  }

  /** In every concurrent use, a running lease is taken by maintenance only on the strength of an earlier delivery of
      the same message: it has been claimed again since the pass looked. */
  lemma TakenEarlyMeansClaimedAgain(events: seq<Event>, p: Policy, k: nat)
    requires p.Valid() && Possible(IDLE, events, p) && Early(End(IDLE, events, p), k)
    ensures var s := End(IDLE, events, p);
            s.calls[k][0].m.attempts < s.world.store.messages[s.calls[k][0].m.id].msg.attempts
  {
    hide SystemOk, Possible, End, Early;
    IdleOk(p);
    EveryUseIsARun(IDLE, events, p);
    EarlyIsOutOfDate(End(IDLE, events, p), p, k);
  }

  lemma IdleOk(p: Policy)
    ensures SystemOk(IDLE, p)
  {
    StartOk(p);
  }

  // ----- Passes that nobody claims into -----

  /** Some pass has messages left to handle. */
  ghost predicate Sweeps(s: System) {
    exists k, i :: k in s.calls && 0 <= i < |s.calls[k]| && s.calls[k][i].Expiring?
  }

  /** No claim is made while a pass is under way. */
  ghost predicate Orderly(s: System, e: Event, p: Policy)
    requires May(s, e, p)
  {
    Trace(s, e, p) != [] && Trace(s, e, p)[0].Claim? ==> !Sweeps(s)
  }

  ghost predicate SweepsAlone(s: System, events: seq<Event>, p: Policy)
    requires Possible(s, events, p)
    decreases |events|
  {
    events == [] || (Orderly(s, events[0], p) && SweepsAlone(Happen(s, events[0], p), events[1..], p))
  }

  /** The snapshot of a pass is up to date for the message. */
  ghost predicate UpToDate(w: World, task: Task) {
    task.Expiring? && task.m.id in w.store.messages ==> w.store.messages[task.m.id].msg.attempts == task.m.attempts
  }

  ghost predicate Current(s: System) {
    forall k, i :: k in s.calls && 0 <= i < |s.calls[k]| ==> UpToDate(s.world, s.calls[k][i])
  }

  lemma MovedKeepsAttempts(w: World, next: (StoreState, Outcome<()>), x: string, t: Tally, id: string)
    requires id in w.store.messages && (next.1.Ok? ==> MovesOne(w.store, next.0, x))
    ensures var w' := Moved(w, next, x, t);
            id in w'.store.messages && w'.store.messages[id].msg.attempts == w.store.messages[id].msg.attempts
  {}

  lemma ReleaseKeepsAttempts(w: World, x: string, at: int, stale: bool, id: string)
    requires Inv(w.store) && id in w.store.messages
    ensures var t := TallyOf(w, x);
            var w' := Moved(w, Release(w.store, x, at), x, t.(releases := t.releases + 1, excess := Count(t, stale)));
            id in w'.store.messages && w'.store.messages[id].msg.attempts == w.store.messages[id].msg.attempts
  {
    hide Inv, Moved, MovesOne, Release;
    var t := TallyOf(w, x);
    if Release(w.store, x, at).1.Ok? { ReleaseMoves(w.store, x, at); }
    MovedKeepsAttempts(w, Release(w.store, x, at), x, t.(releases := t.releases + 1, excess := Count(t, stale)), id);
  }

  lemma AnswerKeepsAttempts(w: World, step: Step, p: Policy, id: string)
    requires Inv(w.store) && id in w.store.messages
    requires step.Ack? || step.Retry? || step.Requeue? || step.Undispatched? || step.Reclaim? || step.MarkDead?
    ensures var w' := Apply(w, step, p);
            id in w'.store.messages && w'.store.messages[id].msg.attempts == w.store.messages[id].msg.attempts
  {
    hide Inv, Moved, MovesOne, Acknowledge, ScheduleRetry, Release, MarkDeadLettered;
    match step
    case Ack(x, at) =>
      var t := TallyOf(w, x);
      if Acknowledge(w.store, x, at).1.Ok? { AcknowledgeMoves(w.store, x, at); }
      MovedKeepsAttempts(w, Acknowledge(w.store, x, at), x, t.(acks := t.acks + 1), id);
    case Retry(basis, reason, now, roll) =>
      var t, wait := TallyOf(w, basis.id), p.BackoffWithJitter(basis.attempts, roll);
      var req := RetryRequest(basis.id, basis.attempts, reason, now + wait, now);
      if ScheduleRetry(w.store, req).1.Ok? { RetryMoves(w.store, req); }
      var next := t.(retries := t.retries + 1, excess := Count(t, Stale(w, basis)), delay := t.delay + wait);
      MovedKeepsAttempts(w, ScheduleRetry(w.store, req), basis.id, next, id);
    case Requeue(x, at) => ReleaseKeepsAttempts(w, x, at, true, id);
    case Undispatched(x, at) => ReleaseKeepsAttempts(w, x, at, true, id);
    case Reclaim(basis, now) => ReleaseKeepsAttempts(w, basis.id, now, Stale(w, basis), id);
    case MarkDead(basis, reason, permanent, now) =>
      if MarkDeadLettered(w.store, basis.id, reason, now).1.Ok? { MarkMoves(w.store, basis.id, reason, now); }
      MovedKeepsAttempts(w, MarkDeadLettered(w.store, basis.id, reason, now), basis.id,
                         Delivery.Burial(TallyOf(w, basis.id), permanent), id);
  }

  /** Only claims count attempts. */
  lemma OnlyClaimsCount(w: World, step: Step, p: Policy, id: string)
    requires WorldOk(w, p) && Enabled(w, step, p) && !step.Claim? && id in w.store.messages
    ensures var w' := Apply(w, step, p);
            id in w'.store.messages ==> w'.store.messages[id].msg.attempts == w.store.messages[id].msg.attempts
  {
    hide WorldOk, Enter, HasRecord, Apply;
    StoreIsOk(w, p);
    if step.Ack? || step.Retry? || step.Requeue? || step.Undispatched? || step.Reclaim? || step.MarkDead? {
      AnswerKeepsAttempts(w, step, p, id);
    } else {
      NoBusiness(step, w.store.messages[id].msg);
      StepSpares(w, step, p, id);
    }
  }

  lemma NoBusiness(step: Step, m: Message)
    requires !step.Claim? && !step.Ack? && !step.Retry? && !step.Requeue? && !step.Undispatched? && !step.Reclaim?
             && !step.MarkDead?
    ensures Spares(step, m)
  {}

  lemma StaysUpToDate(w: World, task: Task, p: Policy, other: Task)
    requires WorldOk(w, p) && p.Valid() && TaskOk(w, task, p) && Drawn(task) !! w.published.Keys
    requires Next(task, p) != [] ==> !Next(task, p)[0].Claim?
    requires TaskOk(w, other, p) && UpToDate(w, other)
    ensures UpToDate(After(w, task, p), other)
  {
    hide Apply, Next, TaskOk, Drawn, Enabled;
    if other.Expiring? && Next(task, p) != [] && other.m.id in After(w, task, p).store.messages {
      AfterIsLater(w, task, p);
      ExpiringWasSeen(w, other, p);
      NotBack(w, After(w, task, p), other.m, p);
      NextEnabled(w, task, p);
      OnlyClaimsCount(w, Next(task, p)[0], p, other.m.id);
    }
  }

  lemma ExpiringWasSeen(w: World, task: Task, p: Policy)
    requires TaskOk(w, task, p) && task.Expiring?
    ensures task.m in w.seen
  {}

  lemma NotBack(w: World, w': World, m: Message, p: Policy)
    requires WorldOk(w, p) && WorldOk(w', p) && Later(w, w') && m in w.seen && m.id in w'.store.messages
    ensures m.id in w.store.messages
  {
    hide Inv, BookOk, MessageOk, StoredOk;
    assert SeenOk(w, m);
  }

  lemma FoundUpToDate(w: World, task: Task, p: Policy)
    requires WorldOk(w, p)
    ensures forall t :: t in Rest(w, task, p) ==> UpToDate(After(w, task, p), t)
  {
    hide ExpiredLeases, WorldOk, Inv, Append;
    if task.Sweeping? {
      StoreIsOk(w, p);
      ScanFindsTheEnded(w.store, task.now, R.RECLAIM_BATCH_SIZE);
      var found := ExpiredLeases(w.store, task.now, R.RECLAIM_BATCH_SIZE);
      assert forall i :: 0 <= i < |found| ==> found[i] in found;
    }
  }

  lemma ProceedKeepsCurrent(s: System, k: nat, p: Policy)
    requires SystemOk(s, p) && p.Valid() && May(s, Proceed(k), p) && Current(s)
    requires Next(s.calls[k][0], p) != [] ==> !Next(s.calls[k][0], p)[0].Claim?
    ensures Current(Happen(s, Proceed(k), p))
  {
    hide WorldOk, TaskOk, Drawn, Next, Rest, After, UpToDate;
    var s' := Happen(s, Proceed(k), p);
    var task, later := s.calls[k][0], s.calls[k][1..];
    var rest := Rest(s.world, task, p);
    assert CallOk(s, k, p);
    FoundUpToDate(s.world, task, p);
    forall j, i | j in s'.calls && 0 <= i < |s'.calls[j]|
      ensures UpToDate(s'.world, s'.calls[j][i])
    {
      assert CallOk(s, j, p);
      if j == k {
        if i < |rest| {
          assert rest[i] in rest;
        } else {
          assert s'.calls[k][i] == s.calls[k][i - |rest| + 1];
          StaysUpToDate(s.world, task, p, s.calls[k][i - |rest| + 1]);
        }
      } else {
        StaysUpToDate(s.world, task, p, s.calls[j][i]);
      }
    }
  }

  /** A claim begins and ends no task of a pass. */
  lemma ClaimKeepsCurrent(s: System, k: nat, p: Policy)
    requires May(s, Proceed(k), p) && Next(s.calls[k][0], p) != [] && Next(s.calls[k][0], p)[0].Claim? && !Sweeps(s)
    ensures Current(Happen(s, Proceed(k), p))
  {
    hide After;
    var s' := Happen(s, Proceed(k), p);
    forall j, i | j in s'.calls && 0 <= i < |s'.calls[j]|
      ensures !s'.calls[j][i].Expiring?
    {
      if j == k { assert s'.calls[k][i] == s.calls[k][i + 1]; }
    }
  }

  lemma BeginKeepsCurrent(s: System, k: nat, task: Task, p: Policy)
    requires May(s, Begin(k, task), p) && Current(s)
    ensures Current(Happen(s, Begin(k, task), p))
  {
    hide TaskOk, Drawn;
  }

  lemma {:induction false} AloneStaysCurrent(s: System, events: seq<Event>, p: Policy)
    requires SystemOk(s, p) && p.Valid() && Current(s) && Possible(s, events, p) && SweepsAlone(s, events, p)
    ensures Current(End(s, events, p)) && SystemOk(End(s, events, p), p)
    decreases |events|
  {
    hide SystemOk, Current, May, Happen, Sweeps;
    if events != [] {
      EventKeeps(s, events[0], p);
      EventKeepsCurrent(s, events[0], p);
      AloneStaysCurrent(Happen(s, events[0], p), events[1..], p);
    }
  }

  lemma EventKeepsCurrent(s: System, e: Event, p: Policy)
    requires SystemOk(s, p) && p.Valid() && May(s, e, p) && Current(s) && Orderly(s, e, p)
    ensures Current(Happen(s, e, p))
  {
    hide SystemOk, Current, Happen, Sweeps;
    match e
    case Begin(k, task) => BeginKeepsCurrent(s, k, task, p);
    case Proceed(k) =>
      if Next(s.calls[k][0], p) != [] && Next(s.calls[k][0], p)[0].Claim? {
        ClaimKeepsCurrent(s, k, p);
      } else {
        ProceedKeepsCurrent(s, k, p);
      }
  }

  lemma CurrentIsNotEarly(s: System, p: Policy, k: nat)
    requires SystemOk(s, p) && Current(s)
    ensures !Early(s, k)
  {
    hide SystemOk;
    if Early(s, k) { EarlyIsOutOfDate(s, p, k); }
  }

  // ----- A running lease is taken -----

  lemma {:induction false} OneMore(s: System, events: seq<Event>, e: Event, p: Policy)
    requires Possible(s, events, p) && May(End(s, events, p), e, p)
    ensures Possible(s, events + [e], p) && End(s, events + [e], p) == Happen(End(s, events, p), e, p)
    decreases |events|
  {
    hide May, Happen;
    if events == [] {
      assert [e][1..] == [];
      assert events + [e] == [e];
    } else {
      OneMore(Happen(s, events[0], p), events[1..], e, p);
      assert (events + [e])[1..] == events[1..] + [e];
    }
  }

  /** Nothing is held by any call. */
  ghost predicate NothingDrawn(s: System) {
    forall k :: Held(s.calls, k) == {}
  }

  /** A call of one transaction, from its beginning to its end. */
  lemma OneCall(events: seq<Event>, k: nat, step: Step, p: Policy) returns (more: seq<Event>)
    requires p.Valid() && Possible(IDLE, events, p)
    requires var s := End(IDLE, events, p);
             && k !in s.calls && NothingDrawn(s) && Plain(step)
             && Drawn(Single(step)) !! s.world.published.Keys
    ensures Possible(IDLE, more, p)
    ensures var s := End(IDLE, events, p);
            && End(IDLE, more, p) == System(Apply(s.world, step, p), s.calls[k := []])
            && NothingDrawn(End(IDLE, more, p)) && WorldOk(End(IDLE, more, p).world, p)
  {
    hide Possible, End, Plain, Apply, SystemOk;
    var s := End(IDLE, events, p);
    var task := Single(step);
    OneMore(IDLE, events, Begin(k, task), p);
    var s1 := Happen(s, Begin(k, task), p);
    OneMore(IDLE, events + [Begin(k, task)], Proceed(k), p);
    more := events + [Begin(k, task)] + [Proceed(k)];
    assert s1.calls[k] == [task] && [task][1..] == [];
    assert Happen(s1, Proceed(k), p).calls == s.calls[k := []];
    EndsOk(more, p);
  }

  lemma EndsOk(events: seq<Event>, p: Policy)
    requires p.Valid() && Possible(IDLE, events, p)
    ensures SystemOk(End(IDLE, events, p), p) && WorldOk(End(IDLE, events, p).world, p)
  {
    hide Possible, End;
    IdleOk(p);
    EveryUseIsARun(IDLE, events, p);
  }

  const DEAD_IDS: nat -> string := i => "d"

  function Claimed(queue: string, now: int, span: int): ClaimRequest {
    ClaimRequest(queue, "", 1, span, now)
  }

  /** A scan of a store whose only lease has ended finds that message. */
  lemma OnlyOneFound(w: World, origin: Message, attempts: int, since: int, now: int, p: Policy)
    requires WorldOk(w, p) && E.Only(w, origin, Processing, attempts, since)
    requires w.store.messages[origin.id].lease <= now
    ensures ExpiredLeases(w.store, now, R.RECLAIM_BATCH_SIZE) == [w.store.messages[origin.id].msg]
  {
    hide WorldOk, Inv, ExpiredLeases;
    StoreIsOk(w, p);
    RecordAt(w.store, origin.id);
    ScanFindsTheEnded(w.store, now, R.RECLAIM_BATCH_SIZE);
    var found, m := ExpiredLeases(w.store, now, R.RECLAIM_BATCH_SIZE), w.store.messages[origin.id].msg;
    ReturnedIds(found, origin.id);
    assert forall i :: 0 <= i < |found| ==> found[i] in found && found[i] == m;
    assert |found| >= 1;
    if |found| >= 2 {
      assert IdsOf(found)[0] == IdsOf(found)[1];
      Ordering.LessIrreflexive(origin.id);
    }
  }

  /** A pass begins and looks at the one ended lease. */
  lemma PassLooks(events: seq<Event>, k: nat, origin: Message, attempts: int, since: int, now: int, p: Policy)
    returns (more: seq<Event>)
    requires p.Valid() && Possible(IDLE, events, p)
    requires var s := End(IDLE, events, p);
             && k !in s.calls && NothingDrawn(s) && E.Only(s.world, origin, Processing, attempts, since)
             && s.world.store.messages[origin.id].lease <= now
    ensures Possible(IDLE, more, p)
    ensures var s, s' := End(IDLE, events, p), End(IDLE, more, p);
            && s'.world.store == s.world.store && NothingDrawn(s') && WorldOk(s'.world, p)
            && E.Only(s'.world, origin, Processing, attempts, since)
            && s'.calls == s.calls[k := [Expiring(s.world.store.messages[origin.id].msg, "d", now, now)]]
  {
    hide Possible, End, SystemOk, ExpiredLeases, WorldOk;
    var s := End(IDLE, events, p);
    EndsOk(events, p);
    var task := Sweeping(DEAD_IDS, map[], now);
    OneMore(IDLE, events, Begin(k, task), p);
    var s1 := Happen(s, Begin(k, task), p);
    OneMore(IDLE, events + [Begin(k, task)], Proceed(k), p);
    more := events + [Begin(k, task)] + [Proceed(k)];
    OnlyOneFound(s.world, origin, attempts, since, now, p);
    assert s1.calls[k] == [task] && [task][1..] == [];
    var m := s.world.store.messages[origin.id].msg;
    assert Rest(s.world, task, p) + [] == [Expiring(m, "d", now, now)];
    assert Happen(s1, Proceed(k), p).calls == s.calls[k := [Expiring(m, "d", now, now)]];
    EndsOk(more, p);
  }

  lemma NothingYet(p: Policy)
    ensures Possible(IDLE, [], p) && End(IDLE, [], p) == IDLE && NothingDrawn(IDLE)
  {}

  /** A run in which a pass takes a running lease: it finds the message expired, the message is requeued and claimed
      again, and then the pass comes to it. With attempts left the message is queued once more, while its consumer is
      still at work. */
  lemma RunningLeaseIsTaken(p: Policy, origin: Message) returns (events: seq<Event>)
    requires p.Valid() && Appendable([origin]) && 0 < origin.availableAt
    ensures Possible(IDLE, events, p) && Early(End(IDLE, events, p), 2)
    ensures var s := End(IDLE, events, p);
            && May(s, Proceed(2), p)
            && (1 < p.maxAttempts ==> IsIn(Happen(s, Proceed(2), p).world, origin.id, Queued))
  {
    hide Possible, End, WorldOk, Apply, E.Only, StoreSpec.Claim;
    var time, id := origin.availableAt, origin.id;
    var first, again := Claimed(origin.queue, time, 1), Claimed(origin.queue, time + 1, 10);
    E.PublishedOnly(origin, p);
    NothingYet(p);
    var e0 := OneCall([], 0, Delivery.Publish([origin]), p);
    var w0 := End(IDLE, e0, p).world;
    E.ClaimedOnly(w0, origin, 0, time, first, p);
    var e1 := OneCall(e0, 1, Delivery.Claim(first), p);
    OnlyMeans(End(IDLE, e1, p).world, origin, Processing, 1, time);
    var e2 := PassLooks(e1, 2, origin, 1, time, time + 1, p);
    E.LeasedOnly(End(IDLE, e2, p).world, origin, 1, time, time + 1, p);
    var e3 := OneCall(e2, 3, Delivery.Requeue(id, time + 1), p);
    E.ClaimedOnly(End(IDLE, e3, p).world, origin, 1, time + 1, again, p);
    events := OneCall(e3, 4, Delivery.Claim(again), p);
    var s := End(IDLE, events, p);
    OnlyMeans(s.world, origin, Processing, 2, time + 1);
    assert s.calls[2] == End(IDLE, e2, p).calls[2];
    if 1 < p.maxAttempts { Requeued(s.world, s.calls[2][0], p); }
  }

  lemma OnlyMeans(w: World, origin: Message, state: State, attempts: int, since: int)
    requires E.Only(w, origin, state, attempts, since)
    ensures origin.id in w.store.messages && w.store.messages[origin.id].msg.state == state
    ensures w.store.messages[origin.id].msg.id == origin.id && w.store.messages[origin.id].msg.attempts == attempts
  {}

  lemma Requeued(w: World, task: Task, p: Policy)
    requires WorldOk(w, p) && task.Expiring? && task.m.attempts < p.maxAttempts
    requires task.m.id in w.store.messages && w.store.messages[task.m.id].msg.state == Processing
    ensures IsIn(After(w, task, p), task.m.id, Queued)
  {
    hide WorldOk, Inv;
    StoreIsOk(w, p);
    RecordAt(w.store, task.m.id);
  }

  /** No concurrent use ends with maintenance about to take a running lease; with `alone`, none in which nothing is
      claimed while a pass is under way. */
  ghost predicate NeverEarly(p: Policy, alone: bool) {
    forall events, k ::
      Possible(IDLE, events, p) && (alone ==> SweepsAlone(IDLE, events, p)) ==> !Early(End(IDLE, events, p), k)
  }

  /** The exact condition: maintenance leaves running leases alone if and only if nothing is claimed while a pass is
      under way. */
  lemma NeverEarlyIff(p: Policy, alone: bool)
    requires p.Valid()
    ensures NeverEarly(p, alone) <==> alone
  {
    hide Possible, End, Early, SweepsAlone, SystemOk, Current;
    if alone {
      forall events, k | Possible(IDLE, events, p) && SweepsAlone(IDLE, events, p)
        ensures !Early(End(IDLE, events, p), k)
      {
        IdleOk(p);
        IdleIsCurrent();
        AloneStaysCurrent(IDLE, events, p);
        CurrentIsNotEarly(End(IDLE, events, p), p, k);
      }
    } else {
      var origin := E.Original("m", "", "");
      var events := RunningLeaseIsTaken(p, origin);
    }
  }

  lemma IdleIsCurrent()
    ensures Current(IDLE)
  {}
}
