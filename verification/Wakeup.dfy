/** The wake-up protocol of one queue: producers change the store and then notify through a
    one-slot signal; dispatchers read the clock, claim, hand off, and wait when there is nothing.
    Clock reads, store transactions and signal operations of all of them interleave freely. */
module Wakeup {
  import opened Sequences
  import opened Messages
  import opened StoreSpec
  import opened StoreInvariant

  /** Where a dispatch loop stands. `Starting` has not yet looked up the signal; `Claiming` has read the clock
      but not yet reached the store. */
  datatype Stage = Starting | Looping | Claiming(now: int) | HandingOff(rest: seq<string>) | Waiting | Exited

  /** A publish, replay, requeue or reclaim under way: the time it read and what it has queued so far. */
  datatype Producer = Producer(now: int, queued: set<string>)

  /** `dispatchers` holds every loop ever started, `consumers` the loop each consumer name stands for. A name
      is given up before its loop is stopped, so a loop may outlive its entry. */
  datatype System = System(
    clock: int,
    store: StoreState,
    registered: bool,
    signal: bool,
    consumers: map<string, string>,
    dispatchers: map<string, Stage>,
    cancelled: set<string>,
    producers: map<nat, Producer>,
    // the past
    announced: set<string>,
    abandoned: bool)

  datatype Step =
    | Tick(now: int)
    | Begin(k: nat)
    | Produce(k: nat, batch: seq<Message>)
    | Requeue(k: nat, id: string)
    | Notify(k: nat)
    | Poke
    | Subscribe(name: string, d: string)
    | GiveUp(name: string)
    | Register(d: string)
    | ReadClock(d: string)
    | ClaimBatch(d: string, limit: int, lease: int)
    | Submit(d: string)
    | ReleaseUndispatched(d: string)
    | Wake(d: string, timer: bool)
    | Cancel(d: string)
    | Exit(d: string)
    | Pull(request: ClaimRequest)
    | Ack(id: string, at: int)
    | Retry(retry: RetryRequest)
    | Bury(id: string, reason: string, at: int)
    | Purge(name: string)
    | DeleteQueue(name: string)

  predicate At(s: System, d: string, stage: Stage) {
    d in s.dispatchers && s.dispatchers[d] == stage
  }

  predicate Running(s: System, d: string) {
    d in s.dispatchers && s.dispatchers[d] != Exited
  }

  ghost predicate Enabled(s: System, step: Step, queue: string) {
    match step
    case Tick(now) => s.clock <= now
    case Begin(k) => k !in s.producers
    case Produce(k, batch) =>
      && k in s.producers && Appendable(batch)
      && (forall i :: 0 <= i < |batch| ==> batch[i].availableAt == s.producers[k].now)
    case Requeue(k, _) => k in s.producers
    case Notify(k) => k in s.producers
    case Subscribe(name, d) => name !in s.consumers && d !in s.dispatchers
    case Register(d) => At(s, d, Starting)
    case ReadClock(d) => At(s, d, Looping) && d !in s.cancelled
    case ClaimBatch(d, limit, lease) =>
      && d in s.dispatchers && s.dispatchers[d].Claiming? && 1 <= limit && !s.store.closed
      && s.dispatchers[d].now + lease != ZERO_TIME
    case Submit(d) => d in s.dispatchers && s.dispatchers[d].HandingOff?
    case ReleaseUndispatched(d) =>
      d in s.dispatchers && s.dispatchers[d].HandingOff? && s.dispatchers[d].rest != [] && d in s.cancelled
    case Wake(d, timer) => At(s, d, Waiting) && (timer || s.signal || d in s.cancelled)
    case Cancel(d) => d in s.dispatchers
    case Exit(d) => At(s, d, Looping) && d in s.cancelled
    case Pull(req) => req.now + req.lease != ZERO_TIME
    case _ => true
  }

  function InQueue(batch: seq<Message>, queue: string): set<string> {
    set i | 0 <= i < |batch| && batch[i].queue == queue :: batch[i].id
  }

  /** Enter the loop: from here the dispatcher will claim again, so nothing is abandoned any more. */
  function Reenter(s: System, d: string): System {
    s.(dispatchers := s.dispatchers[d := Looping], abandoned := false)
  }

  function Apply(s: System, step: Step, queue: string): System
    requires Enabled(s, step, queue)
  {
    match step
    case Tick(now) => s.(clock := now)
    case Begin(k) => s.(producers := s.producers[k := Producer(s.clock, {})])
    case Produce(k, batch) =>
      var (store, r) := Append(s.store, batch);
      if r.Err? then s
      else s.(store := store, announced := s.announced - BatchIds(batch),
              producers := s.producers[k := s.producers[k].(queued := s.producers[k].queued + InQueue(batch, queue))])
    case Requeue(k, id) =>
      var (store, r) := Release(s.store, id, s.producers[k].now);
      if r.Err? then s
      else s.(store := store, announced := s.announced - {id},
              producers := s.producers[k := s.producers[k].(queued := s.producers[k].queued
                                                            + (if QueuedIn(store, id, queue) then {id} else {}))])
    case Notify(k) =>
      var queued := s.producers[k].queued;
      s.(signal := s.signal || (s.registered && queued != {}), announced := s.announced + queued,
         producers := s.producers - {k})
    case Poke => s.(signal := s.signal || s.registered)
    case Subscribe(name, d) =>
      s.(consumers := s.consumers[name := d], dispatchers := s.dispatchers[d := Starting], abandoned := false)
    case GiveUp(name) => s.(consumers := s.consumers - {name})
    case Register(d) => Reenter(s.(registered := true), d)
    case ReadClock(d) => s.(dispatchers := s.dispatchers[d := Claiming(s.clock)])
    case ClaimBatch(d, limit, lease) =>
      var (store, r) := Claim(s.store, ClaimRequest(queue, d, limit, lease, s.dispatchers[d].now));
      var ids := seq(|r.value|, i requires 0 <= i < |r.value| => r.value[i].id);
      s.(store := store, dispatchers := s.dispatchers[d := if r.value == [] then Waiting else HandingOff(ids)])
    case Submit(d) =>
      var rest := s.dispatchers[d].rest;
      if rest == [] then Reenter(s, d) else s.(dispatchers := s.dispatchers[d := HandingOff(rest[1..])])
    case ReleaseUndispatched(d) =>
      var rest := s.dispatchers[d].rest;
      var (store, r) := Release(s.store, rest[0], s.clock);
      s.(store := store, announced := if r.Ok? then s.announced - {rest[0]} else s.announced,
         dispatchers := s.dispatchers[d := HandingOff(rest[1..])])
    case Wake(d, timer) => Reenter(s.(signal := s.signal && timer), d)
    case Cancel(d) => s.(cancelled := s.cancelled + {d})
    case Exit(d) =>
      s.(dispatchers := s.dispatchers[d := Exited],
         abandoned := s.abandoned || exists e :: e in s.dispatchers && e != d && Running(s, e))
    case Pull(req) => s.(store := Claim(s.store, req).0)
    case Ack(id, at) => s.(store := Acknowledge(s.store, id, at).0)
    case Retry(req) => s.(store := ScheduleRetry(s.store, req).0)
    case Bury(id, reason, at) => s.(store := MarkDeadLettered(s.store, id, reason, at).0)
    case Purge(name) => s.(store := StoreSpec.Purge(s.store, name).0)
    case DeleteQueue(name) => s.(store := StoreSpec.DeleteQueue(s.store, name).0)
  }

  function Start(clock: int): System {
    System(clock, EmptyStore(), false, false, map[], map[], {}, map[], {}, false)
  }

  // ----- The invariant -----

  /** A message waiting in the queue to be claimed for the first time or again. */
  predicate QueuedIn(s: StoreState, id: string, queue: string) {
    id in s.messages && s.messages[id].msg.state == Queued && s.messages[id].msg.queue == queue
  }

  /** The dispatcher will still claim at a time that covers `since`. */
  predicate WillClaim(s: System, d: string, since: int) {
    && d in s.dispatchers
    && match s.dispatchers[d]
       case Starting => true
       case Looping => true
       case HandingOff(_) => true
       case Claiming(now) => since <= now
       case _ => false
  }

  ghost predicate SomeoneWillClaim(s: System, since: int) {
    exists d :: WillClaim(s, d, since)
  }

  ghost predicate NobodyRuns(s: System) {
    forall d :: d in s.dispatchers ==> s.dispatchers[d] == Exited
  }

  ghost predicate Covered(s: System, id: string, queue: string) {
    id in s.announced && QueuedIn(s.store, id, queue) ==>
      s.signal || s.abandoned || NobodyRuns(s) || SomeoneWillClaim(s, s.store.messages[id].msg.availableAt)
  }

  ghost predicate PastStamps(store: StoreState, clock: int) {
    forall id :: id in store.messages && store.messages[id].msg.state == Queued ==>
        store.messages[id].msg.availableAt <= clock
  }

  ghost predicate SystemOk(s: System, queue: string) {
    && Inv(s.store) && PastStamps(s.store, s.clock)
    && (forall k :: k in s.producers ==> s.producers[k].now <= s.clock)
    && (forall d :: d in s.dispatchers && s.dispatchers[d] != Starting ==> s.registered)
    && (forall d :: d in s.dispatchers && s.dispatchers[d].Claiming? ==> s.dispatchers[d].now <= s.clock)
    && (forall id :: Covered(s, id, queue))
  }

  // ----- Store transactions -----

  /** The transaction queued nothing outside `ids`. */
  ghost predicate QueuesOnly(s: StoreState, t: StoreState, ids: set<string>) {
    forall id :: id in t.messages && t.messages[id].msg.state == Queued && id !in ids ==>
        id in s.messages && s.messages[id].msg == t.messages[id].msg
  }

  lemma ClaimQueuesNothing(s: StoreState, req: ClaimRequest)
    requires Inv(s) && req.now + req.lease != ZERO_TIME
    ensures QueuesOnly(s, Claim(s, req).0, {})
  {
    CompactKeeps(s, req.queue);
  }

  /** A claim that comes back empty proves that nothing was available at the time it used. */
  lemma EmptyClaimMeansNothingAvailable(s: StoreState, req: ClaimRequest, id: string)
    requires Inv(s) && !s.closed && 1 <= req.limit && req.now + req.lease != ZERO_TIME
    requires Claim(s, req).1 == Ok([]) && QueuedIn(s, id, req.queue)
    ensures req.now < s.messages[id].msg.availableAt
  {
    var c := Compact(s, req.queue);
    CompactKeeps(s, req.queue);
    assert Listed(c, id);
    var claimable := Filter(ClaimableIn(c.messages, req.now), Index(c, req.queue));
    assert |ClaimIds(c, req)| == 0;
    assert id !in claimable;
  }

  /** Replacing one record queues at most that message. */
  lemma ReplacedQueues(s: StoreState, next: (StoreState, Outcome<()>), id: string, change: Record -> Record)
    requires Replaced(s, next, id, change)
    ensures QueuesOnly(s, next.0, {id})
    ensures next.1.Ok? && change(s.messages[id]).msg.state != Queued ==> QueuesOnly(s, next.0, {})
    ensures next.1.Err? ==> QueuesOnly(s, next.0, {})
  {
    hide Inv;
  }

  lemma RemovalsQueueNothing(s: StoreState, queue: string)
    ensures QueuesOnly(s, StoreSpec.Purge(s, queue).0, {}) && QueuesOnly(s, StoreSpec.DeleteQueue(s, queue).0, {})
  {}

  /** After a transaction: what it queued is no longer announced, what was queued before is still covered. */
  lemma TransactionKeeps(s: System, s': System, ids: set<string>, queue: string)
    requires SystemOk(s, queue) && Inv(s'.store) && PastStamps(s'.store, s'.clock)
    requires s' == s.(store := s'.store, announced := s.announced - ids, producers := s'.producers)
    requires forall k :: k in s'.producers ==> s'.producers[k].now <= s'.clock
    requires QueuesOnly(s.store, s'.store, ids)
    ensures SystemOk(s', queue)
  {
    forall id
      ensures Covered(s', id, queue)
    {
      assert Covered(s, id, queue);
      if id in s'.announced && QueuedIn(s'.store, id, queue)
         && SomeoneWillClaim(s, s.store.messages[id].msg.availableAt) {
        var d :| WillClaim(s, d, s.store.messages[id].msg.availableAt);
        assert WillClaim(s', d, s.store.messages[id].msg.availableAt);
      }
    }
  }

  lemma AppendQueuesOnly(s: StoreState, batch: seq<Message>, now: int, clock: int)
    requires Inv(s) && Appendable(batch) && Append(s, batch).1.Ok? && PastStamps(s, clock) && now <= clock
    requires forall i :: 0 <= i < |batch| ==> batch[i].availableAt == now
    ensures var t := Append(s, batch).0;
            Inv(t) && QueuesOnly(s, t, BatchIds(batch)) && PastStamps(t, clock)
  {
    hide Inv, AppendAll;
    AppendKeeps(s, batch);
    AppendAllMessages(s, batch);
    var t := Append(s, batch).0;
    forall id | id in t.messages && id !in BatchIds(batch)
      ensures id in s.messages && t.messages[id] == s.messages[id]
    {
      assert forall i :: 0 <= i < |batch| ==> batch[i].id in BatchIds(batch);
    }
    forall id | id in t.messages && id in BatchIds(batch)
      ensures t.messages[id].msg.availableAt <= clock
    {
      var i :| 0 <= i < |batch| && batch[i].id == id;
    }
  }

  lemma ProduceStep(s: System, k: nat, batch: seq<Message>, queue: string)
    requires SystemOk(s, queue) && Enabled(s, Produce(k, batch), queue)
    ensures SystemOk(Apply(s, Produce(k, batch), queue), queue)
  {
    hide Inv, Append, QueuesOnly, PastStamps, Covered;
    if Append(s.store, batch).1.Ok? {
      AppendQueuesOnly(s.store, batch, s.producers[k].now, s.clock);
      TransactionKeeps(s, Apply(s, Produce(k, batch), queue), BatchIds(batch), queue);
    }
  }

  lemma ReleaseKeepsSystem(s: System, s': System, id: string, at: int, queue: string)
    requires SystemOk(s, queue) && at <= s.clock
    requires s' == s.(store := Release(s.store, id, at).0, announced := s.announced - {id}, producers := s'.producers)
    requires forall k :: k in s'.producers ==> s'.producers[k].now <= s'.clock
    ensures SystemOk(s', queue)
  {
    hide Inv;
    ReleaseReplaces(s.store, id, at);
    ReplacedQueues(s.store, Release(s.store, id, at), id, r => Released(r, at));
    TransactionKeeps(s, s', {id}, queue);
  }

  lemma QuietTransaction(s: System, store: StoreState, queue: string)
    requires SystemOk(s, queue) && Inv(store) && QueuesOnly(s.store, store, {})
    ensures SystemOk(s.(store := store), queue)
  {
    assert s.announced - {} == s.announced;
    TransactionKeeps(s, s.(store := store), {}, queue);
  }

  lemma OtherTransactions(s: System, step: Step, queue: string)
    requires SystemOk(s, queue) && Enabled(s, step, queue)
    requires step.Pull? || step.Ack? || step.Retry? || step.Bury? || step.Purge? || step.DeleteQueue?
    ensures SystemOk(Apply(s, step, queue), queue)
  {
    hide SystemOk, Inv, Claim, Acknowledge, ScheduleRetry, MarkDeadLettered, QueuesOnly;
    assert Inv(s.store) by { SystemInv(s, queue); }
    match step {
      case Pull(req) => ClaimKeeps(s.store, req); ClaimQueuesNothing(s.store, req);
      case Ack(id, at) =>
        AcknowledgeReplaces(s.store, id, at);
        ReplacedQueues(s.store, Acknowledge(s.store, id, at), id, r => Acked(r, at));
      case Retry(req) =>
        RetryReplaces(s.store, req);
        ReplacedQueues(s.store, ScheduleRetry(s.store, req), req.id, r => Retried(r, req));
      case Bury(id, reason, at) =>
        MarkReplaces(s.store, id, reason, at);
        ReplacedQueues(s.store, MarkDeadLettered(s.store, id, reason, at), id, r => Buried(r, reason, at));
      case Purge(name) => PurgeKeeps(s.store, name); RemovalsQueueNothing(s.store, name);
      case DeleteQueue(name) => DeleteQueueKeeps(s.store, name); RemovalsQueueNothing(s.store, name);
    }
    QuietTransaction(s, Apply(s, step, queue).store, queue);
  }

  lemma SystemInv(s: System, queue: string)
    requires SystemOk(s, queue)
    ensures Inv(s.store)
  {}

  // ----- Signals and stages -----

  /** A dispatcher at the top of its loop covers everything. */
  lemma LooperCovers(s: System, d: string, queue: string)
    requires d in s.dispatchers && (s.dispatchers[d] in {Starting, Looping} || s.dispatchers[d].HandingOff?)
    ensures forall id :: Covered(s, id, queue)
  {
    forall id
      ensures Covered(s, id, queue)
    {
      if QueuedIn(s.store, id, queue) { assert WillClaim(s, d, s.store.messages[id].msg.availableAt); }
    }
  }

  lemma ReenterKeeps(s: System, s': System, d: string, queue: string)
    requires SystemOk(s, queue) && (s.registered ==> s'.registered) && s'.registered
    requires s' == Reenter(s.(registered := s'.registered, signal := s'.signal), d)
    ensures SystemOk(s', queue)
  {
    LooperCovers(s', d, queue);
  }

  lemma SubscribeStep(s: System, name: string, d: string, queue: string)
    requires SystemOk(s, queue) && Enabled(s, Subscribe(name, d), queue)
    ensures SystemOk(Apply(s, Subscribe(name, d), queue), queue)
  {
    LooperCovers(Apply(s, Subscribe(name, d), queue), d, queue);
  }

  /** Reading the clock loses no cover: everything queued so far is available by now. */
  lemma ReadClockStep(s: System, d: string, queue: string)
    requires SystemOk(s, queue) && Enabled(s, ReadClock(d), queue)
    ensures SystemOk(Apply(s, ReadClock(d), queue), queue)
  {
    var s' := Apply(s, ReadClock(d), queue);
    forall id
      ensures Covered(s', id, queue)
    {
      if QueuedIn(s.store, id, queue) { assert WillClaim(s', d, s.store.messages[id].msg.availableAt); }
    }
  }

  lemma ClaimBatchStep(s: System, d: string, limit: int, lease: int, queue: string)
    requires SystemOk(s, queue) && Enabled(s, ClaimBatch(d, limit, lease), queue)
    ensures SystemOk(Apply(s, ClaimBatch(d, limit, lease), queue), queue)
  {
    hide Inv, Claim, Covered;
    var s' := Apply(s, ClaimBatch(d, limit, lease), queue);
    var req := ClaimRequest(queue, d, limit, lease, s.dispatchers[d].now);
    ClaimKeeps(s.store, req);
    ClaimQueuesNothing(s.store, req);
    QuietTransaction(s, s'.store, queue);
    forall id
      ensures Covered(s', id, queue)
    {
      ClaimBatchCovers(s, d, limit, lease, queue, id);
    }
  }

  lemma ClaimBatchCovers(s: System, d: string, limit: int, lease: int, queue: string, id: string)
    requires SystemOk(s, queue) && Enabled(s, ClaimBatch(d, limit, lease), queue)
    ensures Covered(Apply(s, ClaimBatch(d, limit, lease), queue), id, queue)
  {
    hide Inv;
    var s' := Apply(s, ClaimBatch(d, limit, lease), queue);
    var req := ClaimRequest(queue, d, limit, lease, s.dispatchers[d].now);
    assert Claim(s.store, req).1.Ok?;
    if Claim(s.store, req).1.value != [] {
      LooperCovers(s', d, queue);
    } else if id in s'.announced && QueuedIn(s'.store, id, queue) {
      EmptyClaimLeaves(s, s', d, req, id);
      assert Covered(s, id, queue);
    }
  }

  /** The one dispatcher that found nothing was not the one covering a message it could not see. */
  lemma EmptyClaimLeaves(s: System, s': System, d: string, req: ClaimRequest, id: string)
    requires Inv(s.store) && !s.store.closed && 1 <= req.limit && req.now + req.lease != ZERO_TIME
    requires Claim(s.store, req) == (s'.store, Ok([])) && QueuedIn(s'.store, id, req.queue)
    requires d in s.dispatchers && s.dispatchers[d] == Claiming(req.now)
             && s'.dispatchers == s.dispatchers[d := Waiting]
    ensures QueuedIn(s.store, id, req.queue) && s.store.messages[id].msg == s'.store.messages[id].msg
    ensures SomeoneWillClaim(s, s'.store.messages[id].msg.availableAt) ==>
              SomeoneWillClaim(s', s'.store.messages[id].msg.availableAt)
  {
    ClaimQueuesNothing(s.store, req);
    EmptyClaimMeansNothingAvailable(s.store, req, id);
    var since := s'.store.messages[id].msg.availableAt;
    if SomeoneWillClaim(s, since) {
      var e :| WillClaim(s, e, since);
      assert e != d;
      assert WillClaim(s', e, since);
    }
  }

  lemma NotifyStep(s: System, k: nat, queue: string)
    requires SystemOk(s, queue) && Enabled(s, Notify(k), queue)
    ensures SystemOk(Apply(s, Notify(k), queue), queue)
  {
    hide Inv;
    var s' := Apply(s, Notify(k), queue);
    forall id
      ensures Covered(s', id, queue)
    {
      assert Covered(s, id, queue);
      if id in s'.announced && QueuedIn(s.store, id, queue) {
        var since := s.store.messages[id].msg.availableAt;
        if id in s.announced && SomeoneWillClaim(s, since) {
          var d :| WillClaim(s, d, since);
          assert WillClaim(s', d, since);
        } else if !s.registered && !NobodyRuns(s') {
          var d :| d in s'.dispatchers && s'.dispatchers[d] != Exited;
          assert WillClaim(s', d, since);
        }
      }
    }
  }

  /** Nothing queued has changed, and whoever covered a message still does. */
  lemma StillCovered(s: System, s': System, queue: string)
    requires forall id :: Covered(s, id, queue)
    requires s'.store == s.store && s'.announced == s.announced && (s.signal ==> s'.signal)
    requires (s.abandoned ==> s'.abandoned) && s'.dispatchers == s.dispatchers
    ensures forall id :: Covered(s', id, queue)
  {
    forall id
      ensures Covered(s', id, queue)
    {
      assert Covered(s, id, queue);
      if id in s.announced && QueuedIn(s.store, id, queue)
         && SomeoneWillClaim(s, s.store.messages[id].msg.availableAt) {
        var d :| WillClaim(s, d, s.store.messages[id].msg.availableAt);
        assert WillClaim(s', d, s.store.messages[id].msg.availableAt);
      }
    }
  }

  lemma ExitStep(s: System, x: string, queue: string)
    requires SystemOk(s, queue) && Enabled(s, Exit(x), queue)
    ensures SystemOk(Apply(s, Exit(x), queue), queue)
  {
    hide Inv;
    hide Append, Claim, Release, Acknowledge, ScheduleRetry, MarkDeadLettered, StoreSpec.Purge, StoreSpec.DeleteQueue;
    var s' := Apply(s, Exit(x), queue);
    forall id
      ensures Covered(s', id, queue)
    {
      assert Covered(s, id, queue);
      if id in s.announced && QueuedIn(s.store, id, queue)
         && SomeoneWillClaim(s, s.store.messages[id].msg.availableAt) {
        var d :| WillClaim(s, d, s.store.messages[id].msg.availableAt);
        if d != x { assert WillClaim(s', d, s.store.messages[id].msg.availableAt); }
      }
    }
  }

  lemma SignalStep(s: System, step: Step, queue: string)
    requires SystemOk(s, queue) && Enabled(s, step, queue)
    requires step.Tick? || step.Begin? || step.Poke? || step.GiveUp? || step.Cancel? || step.Exit?
    ensures SystemOk(Apply(s, step, queue), queue)
  {
    hide Inv, Covered;
    hide Append, Claim, Release, Acknowledge, ScheduleRetry, MarkDeadLettered, StoreSpec.Purge, StoreSpec.DeleteQueue;
    if step.Exit? {
      ExitStep(s, step.d, queue);
    } else {
      StillCovered(s, Apply(s, step, queue), queue);
    }
  }

  lemma HandOffStep(s: System, step: Step, queue: string)
    requires SystemOk(s, queue) && Enabled(s, step, queue) && (step.Submit? || step.ReleaseUndispatched?)
    ensures SystemOk(Apply(s, step, queue), queue)
  {
    hide Inv;
    var s' := Apply(s, step, queue);
    var rest := s.dispatchers[step.d].rest;
    if step.ReleaseUndispatched? && Release(s.store, rest[0], s.clock).1.Ok? {
      var t := s.(store := s'.store, announced := s'.announced);
      ReleaseKeepsSystem(s, t, rest[0], s.clock, queue);
    }
    LooperCovers(s', step.d, queue);
  }

  lemma StepKeeps(s: System, step: Step, queue: string)
    requires SystemOk(s, queue) && Enabled(s, step, queue)
    ensures SystemOk(Apply(s, step, queue), queue)
  {
    hide Inv;
    match step
    case Produce(k, batch) => ProduceStep(s, k, batch, queue);
    case Requeue(k, id) =>
      if Release(s.store, id, s.producers[k].now).1.Ok? {
        ReleaseKeepsSystem(s, Apply(s, step, queue), id, s.producers[k].now, queue);
      }
    case Notify(k) => NotifyStep(s, k, queue);
    case Subscribe(name, d) => SubscribeStep(s, name, d, queue);
    case Register(d) => ReenterKeeps(s, Apply(s, step, queue), d, queue);
    case ReadClock(d) => ReadClockStep(s, d, queue);
    case ClaimBatch(d, limit, lease) => ClaimBatchStep(s, d, limit, lease, queue);
    case Submit(d) => HandOffStep(s, step, queue);
    case ReleaseUndispatched(d) => HandOffStep(s, step, queue);
    case Wake(d, timer) => ReenterKeeps(s, Apply(s, step, queue), d, queue);
    case Tick(_) => SignalStep(s, step, queue);
    case Begin(_) => SignalStep(s, step, queue);
    case Poke => SignalStep(s, step, queue);
    case GiveUp(_) => SignalStep(s, step, queue);
    case Cancel(_) => SignalStep(s, step, queue);
    case Exit(_) => SignalStep(s, step, queue);
    case _ => OtherTransactions(s, step, queue);
  }

  // ----- Every run -----

  ghost predicate Legal(s: System, steps: seq<Step>, queue: string)
    decreases |steps|
  {
    steps == [] || (Enabled(s, steps[0], queue) && Legal(Apply(s, steps[0], queue), steps[1..], queue))
  }

  ghost function Run(s: System, steps: seq<Step>, queue: string): System
    requires Legal(s, steps, queue)
    decreases |steps|
  {
    if steps == [] then s else Run(Apply(s, steps[0], queue), steps[1..], queue)
  }

  lemma {:induction false} RunKeeps(s: System, steps: seq<Step>, queue: string)
    requires SystemOk(s, queue) && Legal(s, steps, queue)
    ensures SystemOk(Run(s, steps, queue), queue)
    decreases |steps|
  {
    hide SystemOk;
    if steps != [] {
      StepKeeps(s, steps[0], queue);
      RunKeeps(Apply(s, steps[0], queue), steps[1..], queue);
    }
  }

  /** Every running dispatcher is blocked: waiting, with nothing in the signal slot. */
  ghost predicate AllBlocked(s: System) {
    && !s.signal
    && (exists d :: Running(s, d))
    && (forall d :: Running(s, d) ==> s.dispatchers[d] == Waiting)
  }

  /** Signals coalesce and are not dropped: one that is set stays until some loop wakes up on it. */
  lemma SignalStays(s: System, step: Step, queue: string)
    requires Enabled(s, step, queue) && s.signal && !Apply(s, step, queue).signal
    ensures step.Wake? && !step.timer && Apply(s, step, queue).dispatchers == s.dispatchers[step.d := Looping]
  {
    hide Append, Claim, Release, Acknowledge, ScheduleRetry, MarkDeadLettered, StoreSpec.Purge, StoreSpec.DeleteQueue;
  }

  /** No lost wake-up. In every run, when the dispatchers of a queue are all blocked, no queued message
      of that queue has already been announced, unless a dispatcher stopped since another last woke. */
  lemma NoLostWakeup(clock: int, steps: seq<Step>, queue: string, id: string)
    requires Legal(Start(clock), steps, queue)
    requires var s := Run(Start(clock), steps, queue);
             AllBlocked(s) && !s.abandoned && id in s.announced
    ensures !QueuedIn(Run(Start(clock), steps, queue).store, id, queue)
  {
    StartOk(clock, queue);
    RunKeeps(Start(clock), steps, queue);
    assert Covered(Run(Start(clock), steps, queue), id, queue);
  }

  lemma StartOk(clock: int, queue: string)
    ensures SystemOk(Start(clock), queue)
  {}

  /** At most one dispatch loop at a time: a consumer subscribes only when no loop runs. */
  ghost predicate OneAtATime(s: System, steps: seq<Step>, queue: string)
    requires Legal(s, steps, queue)
    decreases |steps|
  {
    steps == [] || ((steps[0].Subscribe? ==> NobodyRuns(s)) && OneAtATime(Apply(s, steps[0], queue), steps[1..], queue))
  }

  ghost predicate Alone(s: System) {
    !s.abandoned && forall d, e :: Running(s, d) && Running(s, e) ==> d == e
  }

  lemma SoloStep(s: System, step: Step, queue: string)
    requires Alone(s) && Enabled(s, step, queue) && (step.Subscribe? ==> NobodyRuns(s))
    ensures Alone(Apply(s, step, queue))
  {
    var s' := Apply(s, step, queue);
    forall d | Running(s', d)
      ensures Running(s, d) || (step.Subscribe? && step.d == d)
    {}
    if step.Exit? {
      assert Running(s, step.d);
    }
  }

  lemma {:induction false} SoloNeverAbandons(s: System, steps: seq<Step>, queue: string)
    requires Legal(s, steps, queue) && OneAtATime(s, steps, queue) && Alone(s)
    ensures !Run(s, steps, queue).abandoned
    decreases |steps|
  {
    if steps != [] {
      SoloStep(s, steps[0], queue);
      SoloNeverAbandons(Apply(s, steps[0], queue), steps[1..], queue);
    }
  }

  /** With one dispatcher per queue the wake-up is never lost, whatever is cancelled and when. */
  lemma SoloDispatcherMissesNothing(clock: int, steps: seq<Step>, queue: string, id: string)
    requires Legal(Start(clock), steps, queue) && OneAtATime(Start(clock), steps, queue)
    requires AllBlocked(Run(Start(clock), steps, queue)) && id in Run(Start(clock), steps, queue).announced
    ensures !QueuedIn(Run(Start(clock), steps, queue).store, id, queue)
  {
    SoloNeverAbandons(Start(clock), steps, queue);
    NoLostWakeup(clock, steps, queue, id);
  }

  /** With two it can be: the one that takes the signal may be stopped before it claims, and the other
      stays blocked although the message is queued and announced, until its timer fires. */
  lemma StoppedDispatcherTakesTheSignalAlong(s: System, k: nat, a: string, b: string, id: string, queue: string)
    requires a != b && At(s, a, Waiting) && At(s, b, Waiting) && !s.signal && s.registered && b !in s.cancelled
    requires forall d :: Running(s, d) ==> d == a || d == b
    requires k in s.producers && id in s.producers[k].queued && QueuedIn(s.store, id, queue)
    ensures var steps := [Notify(k), Wake(a, false), Cancel(a), Exit(a)];
            Legal(s, steps, queue) && MissedIn(Run(s, steps, queue), id, queue) && Run(s, steps, queue).abandoned
  {
    hide Apply, Enabled, Legal, Run, MissedIn;
    NotifyAndWake(s, k, a, queue);
    var s2 := Apply(Apply(s, Notify(k), queue), Wake(a, false), queue);
    assert Running(s2, b);
    CancelAndExit(s2, a, b, queue);
    var s4 := Apply(Apply(s2, Cancel(a), queue), Exit(a), queue);
    assert s4.dispatchers == s.dispatchers[a := Exited];
    LeftBehind(s, s4, a, b, id, queue);
    FourSteps(s, Notify(k), Wake(a, false), Cancel(a), Exit(a), queue);
  }

  lemma NotifyAndWake(s: System, k: nat, a: string, queue: string)
    requires At(s, a, Waiting) && s.registered && k in s.producers && s.producers[k].queued != {}
    ensures Enabled(s, Notify(k), queue) && Enabled(Apply(s, Notify(k), queue), Wake(a, false), queue)
    ensures Apply(Apply(s, Notify(k), queue), Wake(a, false), queue)
            == s.(signal := false, announced := s.announced + s.producers[k].queued, producers := s.producers - {k},
                  dispatchers := s.dispatchers[a := Looping], abandoned := false)
  {}

  lemma CancelAndExit(s: System, a: string, b: string, queue: string)
    requires At(s, a, Looping) && Running(s, b) && a != b
    ensures Enabled(s, Cancel(a), queue) && Enabled(Apply(s, Cancel(a), queue), Exit(a), queue)
    ensures Apply(Apply(s, Cancel(a), queue), Exit(a), queue)
            == s.(cancelled := s.cancelled + {a}, dispatchers := s.dispatchers[a := Exited], abandoned := true)
  {
    assert b in s.dispatchers && b != a && Running(Apply(s, Cancel(a), queue), b);
  }

  lemma LeftBehind(s: System, t: System, a: string, b: string, id: string, queue: string)
    requires a != b && At(s, b, Waiting) && b !in s.cancelled && forall d :: Running(s, d) ==> d == a || d == b
    requires t.dispatchers == s.dispatchers[a := Exited] && t.cancelled == s.cancelled + {a} && !t.signal
    requires id in t.announced && QueuedIn(t.store, id, queue)
    ensures MissedIn(t, id, queue)
  {
    assert Running(t, b) && At(t, b, Waiting);
    forall d | Running(t, d)
      ensures t.dispatchers[d] == Waiting
    {
      assert Running(s, d);
    }
  }

  lemma FourSteps(s: System, a: Step, b: Step, c: Step, d: Step, queue: string)
    requires Enabled(s, a, queue) && Enabled(Apply(s, a, queue), b, queue)
    requires Enabled(Apply(Apply(s, a, queue), b, queue), c, queue)
    requires Enabled(Apply(Apply(Apply(s, a, queue), b, queue), c, queue), d, queue)
    ensures Legal(s, [a, b, c, d], queue)
    ensures Run(s, [a, b, c, d], queue) == Apply(Apply(Apply(Apply(s, a, queue), b, queue), c, queue), d, queue)
  {
    hide Apply, Enabled, Leads;
    var s1 := Apply(s, a, queue);
    var s2 := Apply(s1, b, queue);
    LeadsNowhere(s, queue, false);
    LeadsOn(s, [], s, a, queue, false);
    LeadsOn(s, [] + [a], s1, b, queue, false);
    LeadsOn(s, [] + [a] + [b], s2, c, queue, false);
    LeadsOn(s, [] + [a] + [b] + [c], Apply(s2, c, queue), d, queue, false);
    assert [] + [a] + [b] + [c] + [d] == [a, b, c, d];
    LeadsMeans(s, [a, b, c, d], Apply(Apply(s2, c, queue), d, queue), queue, false);
  }

  lemma LeadsMeans(s: System, steps: seq<Step>, t: System, queue: string, waits: bool)
    requires Leads(s, steps, t, queue, waits)
    ensures Legal(s, steps, queue) && Run(s, steps, queue) == t
  {}

  /** Every loop that still runs is blocked, one of them for want of a signal only, although the message is
      queued and announced. */
  ghost predicate MissedIn(s: System, id: string, queue: string) {
    && AllBlocked(s) && (exists d :: At(s, d, Waiting) && d !in s.cancelled)
    && id in s.announced && QueuedIn(s.store, id, queue)
  }

  // ----- What callers can do about it -----

  ghost predicate SubscribesOnly(steps: seq<Step>, names: set<string>) {
    forall i :: 0 <= i < |steps| && steps[i].Subscribe? ==> steps[i].name in names
  }

  /** Every loop whose name was given up has ended: each Unsubscribe has returned, each Shutdown has drained. */
  ghost predicate NoneLeaving(s: System) {
    forall d :: Running(s, d) ==> d in s.consumers.Values
  }

  /** Callers subscribe only when no loop is still being stopped. */
  ghost predicate Patient(s: System, steps: seq<Step>, queue: string)
    requires Legal(s, steps, queue)
    decreases |steps|
  {
    steps == [] || ((steps[0].Subscribe? ==> NoneLeaving(s)) && Patient(Apply(s, steps[0], queue), steps[1..], queue))
  }

  /** The steps are legal and end in `t`, with patient callers if `waits`. */
  ghost predicate Leads(s: System, steps: seq<Step>, t: System, queue: string, waits: bool) {
    Legal(s, steps, queue) && Run(s, steps, queue) == t && (waits ==> Patient(s, steps, queue))
  }

  lemma LeadsNowhere(s: System, queue: string, waits: bool)
    ensures Leads(s, [], s, queue, waits)
  {}

  lemma LeadsOn(s: System, steps: seq<Step>, t: System, step: Step, queue: string, waits: bool)
    requires Leads(s, steps, t, queue, waits) && Enabled(t, step, queue)
    requires waits && step.Subscribe? ==> NoneLeaving(t)
    ensures Leads(s, steps + [step], Apply(t, step, queue), queue, waits)
  {
    hide Apply, Enabled, NoneLeaving;
    LeadsThrough(s, steps, [step], queue, waits);
    assert [step][1..] == [];
    assert Legal(Apply(t, step, queue), [], queue);
  }

  lemma {:induction false} LeadsThrough(s: System, first: seq<Step>, second: seq<Step>, queue: string, waits: bool)
    requires Legal(s, first, queue)
    requires Legal(Run(s, first, queue), second, queue) ==>
               (waits ==> Patient(s, first, queue) && Patient(Run(s, first, queue), second, queue))
    ensures Legal(Run(s, first, queue), second, queue) ==>
              Leads(s, first + second, Run(Run(s, first, queue), second, queue), queue, waits)
    decreases |first|
  {
    hide Apply, Enabled, NoneLeaving;
    if first == [] {
      assert first + second == second;
    } else {
      assert (first + second)[1..] == first[1..] + second;
      LeadsThrough(Apply(s, first[0], queue), first[1..], second, queue, waits);
    }
  }

  lemma EmptyStoreClaim(req: ClaimRequest)
    ensures Claim(EmptyStore(), req) == (EmptyStore(), Ok([]))
  {
    assert Compact(EmptyStore(), req.queue) == EmptyStore();
    assert ClaimAll(map[], [], req) == map[];
  }

  function Settled(s: System, name: string, d: string): System {
    s.(registered := true, consumers := s.consumers[name := d], dispatchers := s.dispatchers[d := Waiting],
       abandoned := false)
  }

  lemma SubscribesAlso(first: seq<Step>, name: string, d: string, lease: int, names: set<string>)
    requires SubscribesOnly(first, names) && name in names
    ensures SubscribesOnly(
              first + [Subscribe(name, d)] + [Register(d)] + [ReadClock(d)] + [ClaimBatch(d, 1, lease)], names)
  {}

  /** A consumer subscribes while the store is empty, finds nothing and waits. */
  lemma SubscribeAndWait(origin: System, first: seq<Step>, s: System, name: string, d: string, queue: string,
                         waits: bool)
    returns (steps: seq<Step>)
    requires Leads(origin, first, s, queue, waits) && s.store == EmptyStore()
    requires name !in s.consumers && d !in s.dispatchers && d !in s.cancelled && (waits ==> NoneLeaving(s))
    ensures forall names :: SubscribesOnly(first, names) && name in names ==> SubscribesOnly(steps, names)
    ensures Leads(origin, steps, Settled(s, name, d), queue, waits)
  {
    hide Apply, Leads, NoneLeaving, SubscribesOnly;
    var lease := if s.clock == -1 then 2 else 1;
    var upTo := first + [Subscribe(name, d)];
    EnterTheLoop(s, name, d, queue);
    LeadsOn(origin, first, s, Subscribe(name, d), queue, waits);
    var s1 := Apply(s, Subscribe(name, d), queue);
    LeadsOn(origin, upTo, s1, Register(d), queue, waits);
    var s2 := Apply(s1, Register(d), queue);
    ClaimNothing(s2, d, lease, queue);
    LeadsOn(origin, upTo + [Register(d)], s2, ReadClock(d), queue, waits);
    var s3 := Apply(s2, ReadClock(d), queue);
    LeadsOn(origin, upTo + [Register(d)] + [ReadClock(d)], s3, ClaimBatch(d, 1, lease), queue, waits);
    steps := upTo + [Register(d)] + [ReadClock(d)] + [ClaimBatch(d, 1, lease)];
    forall names | SubscribesOnly(first, names) && name in names
      ensures SubscribesOnly(steps, names)
    {
      SubscribesAlso(first, name, d, lease, names);
    }
    assert s2.dispatchers[d := Waiting] == s.dispatchers[d := Waiting];
  }

  lemma EnterTheLoop(s: System, name: string, d: string, queue: string)
    requires Enabled(s, Subscribe(name, d), queue)
    ensures Enabled(Apply(s, Subscribe(name, d), queue), Register(d), queue)
    ensures Apply(Apply(s, Subscribe(name, d), queue), Register(d), queue)
            == s.(registered := true, consumers := s.consumers[name := d], dispatchers := s.dispatchers[d := Looping],
                  abandoned := false)
  {
    var s1 := Apply(s, Subscribe(name, d), queue);
    assert s1.dispatchers[d := Looping] == s.dispatchers[d := Looping];
  }

  lemma ClaimNothing(s: System, d: string, lease: int, queue: string)
    requires s.store == EmptyStore() && At(s, d, Looping) && d !in s.cancelled && s.clock + lease != ZERO_TIME
    ensures Enabled(s, ReadClock(d), queue)
    ensures Enabled(Apply(s, ReadClock(d), queue), ClaimBatch(d, 1, lease), queue)
    ensures Apply(Apply(s, ReadClock(d), queue), ClaimBatch(d, 1, lease), queue)
            == s.(dispatchers := s.dispatchers[d := Waiting])
  {
    hide Claim;
    EmptyStoreClaim(ClaimRequest(queue, d, 1, lease, s.clock));
    var s1 := Apply(s, ReadClock(d), queue);
    assert s1.dispatchers[d := Waiting] == s.dispatchers[d := Waiting];
  }

  const FIRST_LOOP := "first"
  const SECOND_LOOP := "second"

  /** Two loops wait on an empty queue: of two names, or of one name that was given up in between. */
  lemma TwoLoops(clock: int, queue: string, a: string, b: string, waits: bool) returns (steps: seq<Step>, s: System)
    requires waits ==> a != b
    ensures Leads(Start(clock), steps, s, queue, waits) && SubscribesOnly(steps, {a, b})
    ensures s.dispatchers == map[FIRST_LOOP := Waiting, SECOND_LOOP := Waiting] && s.cancelled == {}
    ensures s.clock == clock && s.store == EmptyStore() && !s.signal && s.registered && s.producers == map[]
  {
    hide Leads;
    var s0 := Start(clock);
    LeadsNowhere(s0, queue, waits);
    var one := SubscribeAndWait(s0, [], s0, a, FIRST_LOOP, queue, waits);
    var s1 := Settled(s0, a, FIRST_LOOP);
    if a == b {
      LeadsOn(s0, one, s1, GiveUp(a), queue, waits);
      one, s1 := one + [GiveUp(a)], Apply(s1, GiveUp(a), queue);
    } else {
      assert NoneLeaving(s1) by { assert s1.consumers[a] == FIRST_LOOP; }
    }
    steps := SubscribeAndWait(s0, one, s1, b, SECOND_LOOP, queue, waits);
    s := Settled(s1, b, SECOND_LOOP);
  }

  lemma StoredWhileTheyWait(clock: int, queue: string, a: string, b: string, m: Message, waits: bool)
    returns (steps: seq<Step>, s: System)
    requires (waits ==> a != b) && Appendable([m]) && m.queue == queue && m.availableAt == clock
    ensures Leads(Start(clock), steps, s, queue, waits) && SubscribesOnly(steps, {a, b})
    ensures s.dispatchers == map[FIRST_LOOP := Waiting, SECOND_LOOP := Waiting] && s.cancelled == {}
    ensures s.producers == map[0 := Producer(clock, {m.id})] && QueuedIn(s.store, m.id, queue)
    ensures !s.signal && s.registered
  {
    hide Append, Leads;
    var two, s2 := TwoLoops(clock, queue, a, b, waits);
    LeadsOn(Start(clock), two, s2, Begin(0), queue, waits);
    var s3 := Apply(s2, Begin(0), queue);
    LeadsOn(Start(clock), two + [Begin(0)], s3, Produce(0, [m]), queue, waits);
    AppendOnly(m);
    assert InQueue([m], queue) == {m.id} by { assert [m][0].id in InQueue([m], queue); }
    steps, s := two + [Begin(0)] + [Produce(0, [m])], Apply(s3, Produce(0, [m]), queue);
    assert s3.producers[0].queued + {m.id} == {m.id};
  }

  lemma AppendOnly(m: Message)
    ensures Append(EmptyStore(), [m]) == (AppendOne(EmptyStore(), m), Ok(()))
  {
    assert [m][..0] == [] && AppendAll(EmptyStore(), []) == EmptyStore();
  }

  /** A run from the start can end with a message missed, when two consumers subscribe, however patiently; or
      when one subscribes again while its earlier loop is still being stopped. */
  lemma TwoLoopsCanMissAMessage(clock: int, queue: string, a: string, b: string, m: Message, waits: bool)
    returns (steps: seq<Step>)
    requires (waits ==> a != b) && Appendable([m]) && m.queue == queue && m.availableAt == clock
    ensures Legal(Start(clock), steps, queue) && SubscribesOnly(steps, {a, b})
    ensures waits ==> Patient(Start(clock), steps, queue)
    ensures MissedIn(Run(Start(clock), steps, queue), m.id, queue)
  {
    hide Apply, Enabled, NoneLeaving, MissedIn;
    var before, s := StoredWhileTheyWait(clock, queue, a, b, m, waits);
    var more := [Notify(0), Wake(FIRST_LOOP, false), Cancel(FIRST_LOOP), Exit(FIRST_LOOP)];
    StoppedDispatcherTakesTheSignalAlong(s, 0, FIRST_LOOP, SECOND_LOOP, m.id, queue);
    NoSubscribersArePatient(s, more, queue);
    LeadsThrough(Start(clock), before, more, queue, waits);
    steps := before + more;
  }

  lemma {:induction false} NoSubscribersArePatient(s: System, steps: seq<Step>, queue: string)
    requires Legal(s, steps, queue) && forall i :: 0 <= i < |steps| ==> !steps[i].Subscribe?
    ensures Patient(s, steps, queue)
    decreases |steps|
  {
    hide Apply, Enabled, NoneLeaving;
    if steps != [] { NoSubscribersArePatient(Apply(s, steps[0], queue), steps[1..], queue); }
  }

  // ----- The exact condition -----

  /** No run in which only these consumers subscribe, patiently if `waits`, ever misses a message. */
  ghost predicate NeverMisses(clock: int, queue: string, names: set<string>, waits: bool) {
    forall steps, id ::
      Legal(Start(clock), steps, queue) && SubscribesOnly(steps, names)
      && (waits ==> Patient(Start(clock), steps, queue)) ==>
        !MissedIn(Run(Start(clock), steps, queue), id, queue)
  }

  /** One name, and a caller that waits for the earlier loop to end: loops follow one another. */
  lemma {:induction false} OnePatientNameIsOneAtATime(s: System, steps: seq<Step>, queue: string, names: set<string>)
    requires Legal(s, steps, queue) && SubscribesOnly(steps, names) && Patient(s, steps, queue)
    requires s.consumers.Keys <= names && forall a, b :: a in names && b in names ==> a == b
    ensures OneAtATime(s, steps, queue)
    decreases |steps|
  {
    hide Apply, Enabled, NobodyRuns, NoneLeaving;
    if steps != [] {
      NamesAfter(s, steps[0], queue, names);
      if steps[0].Subscribe? { NobodyLeft(s, steps[0].name, names); }
      OnePatientNameIsOneAtATime(Apply(s, steps[0], queue), steps[1..], queue, names);
    }
  }

  lemma NamesAfter(s: System, step: Step, queue: string, names: set<string>)
    requires Enabled(s, step, queue) && s.consumers.Keys <= names && (step.Subscribe? ==> step.name in names)
    ensures Apply(s, step, queue).consumers.Keys <= names && (step.Subscribe? ==> step.name !in s.consumers)
  {
    hide Enabled;
    match step
    case Subscribe(name, d) => SubscribeTakesAName(s, name, d, queue);
    case GiveUp(name) =>
    case _ => if InLoop(step) { LoopsKeepTheNames(s, step, queue); } else { OthersKeepTheNames(s, step, queue); }
  }

  lemma SubscribeTakesAName(s: System, name: string, d: string, queue: string)
    requires Enabled(s, Subscribe(name, d), queue)
    ensures Apply(s, Subscribe(name, d), queue).consumers == s.consumers[name := d] && name !in s.consumers
  {}

  predicate InLoop(step: Step) {
    || step.Register? || step.ReadClock? || step.ClaimBatch? || step.Submit? || step.ReleaseUndispatched? || step.Wake?
    || step.Cancel? || step.Exit?
  }

  lemma LoopsKeepTheNames(s: System, step: Step, queue: string)
    requires Enabled(s, step, queue) && InLoop(step)
    ensures Apply(s, step, queue).consumers == s.consumers
  {
    hide Apply, Enabled;
    if step.Submit? || step.ClaimBatch? || step.ReleaseUndispatched? {
      BatchesKeepTheNames(s, step, queue);
    } else {
      StagesKeepTheNames(s, step, queue);
    }
  }

  lemma BatchesKeepTheNames(s: System, step: Step, queue: string)
    requires Enabled(s, step, queue) && (step.Submit? || step.ClaimBatch? || step.ReleaseUndispatched?)
    ensures Apply(s, step, queue).consumers == s.consumers
  {
    hide Claim, Release;
  }

  lemma StagesKeepTheNames(s: System, step: Step, queue: string)
    requires Enabled(s, step, queue)
    requires step.Register? || step.ReadClock? || step.Wake? || step.Cancel? || step.Exit?
    ensures Apply(s, step, queue).consumers == s.consumers
  {
    hide Running;
  }

  lemma OthersKeepTheNames(s: System, step: Step, queue: string)
    requires Enabled(s, step, queue) && !InLoop(step) && !step.Subscribe? && !step.GiveUp?
    ensures Apply(s, step, queue).consumers == s.consumers
  {
    hide Enabled;
    hide Append, Claim, Release, Acknowledge, ScheduleRetry, MarkDeadLettered, StoreSpec.Purge, StoreSpec.DeleteQueue;
  }

  lemma NobodyLeft(s: System, name: string, names: set<string>)
    requires s.consumers.Keys <= names && name in names && name !in s.consumers && NoneLeaving(s)
    requires forall a, b :: a in names && b in names ==> a == b
    ensures NobodyRuns(s)
  {
    assert forall x :: x in s.consumers ==> x == name;
    assert s.consumers.Values == {};
    forall d | d in s.dispatchers
      ensures s.dispatchers[d] == Exited
    {
      assert !Running(s, d);
    }
  }

  lemma AtMostOne(names: set<string>)
    ensures |names| <= 1 <==> forall a, b :: a in names && b in names ==> a == b
  {
    if |names| <= 1 {
      forall a, b | a in names && b in names
        ensures a == b
      {
        assert |names - {a}| == |names| - 1;
      }
    } else {
      var a :| a in names;
      var rest := names - {a};
      assert |rest| == |names| - 1;
      var b :| b in rest;
    }
  }

  /** The exact condition: runs over a set of consumers never miss a message if and only if there is none, or
      there is one and its callers wait, before subscribing it again, until its earlier loop has ended. */
  lemma NeverMissesIff(clock: int, queue: string, names: set<string>, waits: bool)
    ensures NeverMisses(clock, queue, names, waits) <==> names == {} || (|names| == 1 && waits)
  {
    hide MissedIn;
    AtMostOne(names);
    if names == {} || (|names| == 1 && waits) {
      forall steps, id | Legal(Start(clock), steps, queue) && SubscribesOnly(steps, names)
                         && (waits ==> Patient(Start(clock), steps, queue))
        ensures !MissedIn(Run(Start(clock), steps, queue), id, queue)
      {
        if names == {} { NoSubscribersArePatient(Start(clock), steps, queue); }
        OnePatientNameIsOneAtATime(Start(clock), steps, queue, names);
        OneAtATimeMissesNothing(clock, steps, queue, id);
      }
    } else {
      var a :| a in names;
      var b := if waits then var b :| b in names && b != a; b else a;
      var m := Message("m", "", "", queue, "", "", map[], Queued, 0, 1, "", clock, clock, clock);
      var steps := TwoLoopsCanMissAMessage(clock, queue, a, b, m, waits);
      assert SubscribesOnly(steps, names);
    }
  }

  lemma OneAtATimeMissesNothing(clock: int, steps: seq<Step>, queue: string, id: string)
    requires Legal(Start(clock), steps, queue) && OneAtATime(Start(clock), steps, queue)
    ensures !MissedIn(Run(Start(clock), steps, queue), id, queue)
  {
    if MissedIn(Run(Start(clock), steps, queue), id, queue) {
      SoloDispatcherMissesNothing(clock, steps, queue, id);
    }
  }
}
