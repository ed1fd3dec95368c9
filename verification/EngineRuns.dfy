/** The engine's calls are runs of the delivery protocol: carried out without interruption, each leaves the
    store and the dead-letter book exactly as some legal sequence of protocol steps does. */
module EngineRuns {
  import opened Messages
  import opened StoreSpec
  import opened StoreInvariant
  import opened Leasing
  import opened DeadLetterSpec
  import opened Retry
  import opened Delivery
  import P = Publishing
  import S = Settling
  import R = Reclaiming
  import T = TopologySpec
  import W = Wakeup

  function Held(w: World): P.Holdings {
    P.Holdings(w.store, w.book, w.saved)
  }

  ghost predicate Reaches(w: World, steps: seq<Step>, p: Policy, h: P.Holdings) {
    Legal(w, steps, p) && Held(Run(w, steps, p)) == h && w.seen <= Run(w, steps, p).seen
  }

  // ----- Runs one after the other -----

  lemma NoSteps(w: World, p: Policy)
    ensures Reaches(w, [], p, Held(w))
  {}

  lemma OneStep(w: World, step: Step, p: Policy)
    requires Enabled(w, step, p)
    ensures Legal(w, [step], p) && Run(w, [step], p) == Apply(w, step, p)
  {
    hide Enabled, Apply;
    assert [step][1..] == [];
  }

  lemma {:induction false} RunAppend(w: World, a: seq<Step>, b: seq<Step>, p: Policy)
    ensures Run(w, a + b, p) == Run(Run(w, a, p), b, p)
    ensures Legal(w, a + b, p) <==> Legal(w, a, p) && Legal(Run(w, a, p), b, p)
    decreases |a|
  {
    hide Enabled, Apply;
    if a == [] {
      assert a + b == b;
    } else {
      assert (a + b)[1..] == a[1..] + b;
      RunAppend(Apply(w, a[0], p), a[1..], b, p);
    }
  }

  lemma SeenGrows(w: World, step: Step, p: Policy)
    ensures w.seen <= Apply(w, step, p).seen
  {}

  lemma StepReaches(w: World, step: Step, p: Policy)
    requires Enabled(w, step, p)
    ensures Reaches(w, [step], p, Held(Apply(w, step, p)))
  {
    hide Enabled, Apply;
    OneStep(w, step, p);
    SeenGrows(w, step, p);
  }

  lemma ThenReaches(w: World, a: seq<Step>, b: seq<Step>, p: Policy, h: P.Holdings)
    requires Reaches(w, a, p, Held(Run(w, a, p))) && Reaches(Run(w, a, p), b, p, h)
    ensures Reaches(w, a + b, p, h)
  {
    hide Run, Legal;
    RunAppend(w, a, b, p);
  }

  // ----- The calls -----

  lemma BuryIsRun(w: World, m: Message, deadId: string, reason: string, kind: string, failures: map<string, int>,
                  permanent: bool, now: int, p: Policy)
    returns (steps: seq<Step>)
    requires m in w.seen && deadId != "" && (permanent || p.maxAttempts <= m.attempts)
    ensures Reaches(w, steps, p, S.Bury(Held(w), m, deadId, reason, kind, failures, now))
    ensures Run(w, steps, p).published == w.published
  {
    if w.store.closed || deadId in w.book {
      steps := [];
      NoSteps(w, p);
    } else {
      var save := SaveDead(m, deadId, reason, kind, S.FirstFailure(failures, m.id, now), now);
      var mark := MarkDead(m, reason, permanent, now);
      var w1 := Apply(w, save, p);
      assert NewRecord(deadId, m, reason, kind, S.FirstFailure(failures, m.id, now), now) in w1.recorded;
      OneStep(w, save, p);
      StepReaches(w, save, p);
      StepReaches(w1, mark, p);
      steps := [save] + [mark];
      ThenReaches(w, [save], [mark], p, Held(Apply(w1, mark, p)));
      RunAppend(w, [save], [mark], p);
      OneStep(w1, mark, p);
    }
  }

  /** A handler's failure. */
  lemma FailIsRun(w: World, m: Message, cause: S.Cause, deadId: string, failures: map<string, int>, roll: real,
                  now: int, p: Policy)
    returns (steps: seq<Step>)
    requires m in w.seen && deadId != "" && 0.0 <= roll < 1.0
    ensures Reaches(w, steps, p, S.Fail(Held(w), m, cause, p, deadId, failures, roll, now))
    ensures Run(w, steps, p).published == w.published
  {
    hide Reaches;
    if !cause.permanent && p.ShouldRetry(m.attempts) {
      var retry := Retry(m, cause.reason, now, roll);
      steps := [retry];
      OneStep(w, retry, p);
      StepReaches(w, retry, p);
      RetryHeld(w, m, cause.reason, now, roll, p);
    } else {
      steps := BuryIsRun(w, m, deadId, cause.reason, if cause.permanent then S.KIND_PERMANENT else S.KIND_HANDLER,
                         failures, cause.permanent, now, p);
    }
  }

  lemma RetryHeld(w: World, m: Message, reason: string, now: int, roll: real, p: Policy)
    ensures var req := RetryRequest(m.id, m.attempts, reason, p.NextAttemptAt(now, m.attempts, roll), now);
            Held(Apply(w, Retry(m, reason, now, roll), p)) == Held(w).(store := ScheduleRetry(w.store, req).0)
  {}

  lemma ReclaimOneIsRun(w: World, m: Message, deadId: string, failures: map<string, int>, now: int, p: Policy)
    returns (steps: seq<Step>)
    requires m in w.seen && deadId != ""
    ensures Reaches(w, steps, p, R.ReclaimOne(Held(w), m, p, deadId, failures, now))
  {
    hide Reaches;
    if p.ShouldRetry(m.attempts) {
      steps := [Delivery.Reclaim(m, now)];
      StepReaches(w, Delivery.Reclaim(m, now), p);
      assert Held(Apply(w, Delivery.Reclaim(m, now), p)) == Held(w).(store := Release(w.store, m.id, now).0);
    } else {
      steps := BuryIsRun(w, m, deadId, R.LEASE_EXPIRED, R.KIND_EXPIRED, failures, false, now, p);
    }
  }

  lemma {:induction false} ReclaimAllIsRun(w: World, ms: seq<Message>, ids: nat -> string, from: nat,
                                           failures: map<string, int>, now: int, p: Policy)
    returns (steps: seq<Step>)
    requires (forall m :: m in ms ==> m in w.seen) && forall i :: from <= i ==> ids(i) != ""
    ensures Reaches(w, steps, p, R.ReclaimAll(Held(w), ms, p, ids, from, failures, now))
    decreases |ms|
  {
    hide Legal, Run, R.ReclaimOne;
    if ms == [] {
      steps := [];
      NoSteps(w, p);
    } else {
      var n := |ms| - 1;
      var front := ReclaimAllIsRun(w, ms[..n], ids, from, failures, now, p);
      var w1 := Run(w, front, p);
      assert ms[n] in ms;
      var last := ReclaimOneIsRun(w1, ms[n], ids(from + n), failures, now, p);
      steps := front + last;
      ThenReaches(w, front, last, p, R.ReclaimAll(Held(w), ms, p, ids, from, failures, now));
    }
  }

  /** A maintenance pass. */
  lemma PassIsRun(w: World, ids: nat -> string, from: nat, failures: map<string, int>, now: int, p: Policy)
    returns (steps: seq<Step>)
    requires forall i :: from <= i ==> ids(i) != ""
    ensures Reaches(w, steps, p, R.Pass(Held(w), p, ids, from, failures, now))
  {
    var scan := Scan(now, R.RECLAIM_BATCH_SIZE);
    var w1 := Apply(w, scan, p);
    OneStep(w, scan, p);
    StepReaches(w, scan, p);
    var rest := ReclaimAllIsRun(w1, ExpiredLeases(w.store, now, R.RECLAIM_BATCH_SIZE), ids, from, failures, now, p);
    steps := [scan] + rest;
    ThenReaches(w, [scan], rest, p, R.Pass(Held(w), p, ids, from, failures, now));
  }

  /** A negative acknowledgement, by identifier. */
  lemma NackIsRun(w: World, id: string, reason: string, requeue: bool, deadId: string, failures: map<string, int>,
                  roll: real, now: int, p: Policy)
    returns (steps: seq<Step>)
    requires WorldOk(w, p) && deadId != "" && 0.0 <= roll < 1.0
    ensures Reaches(w, steps, p, S.Nack(Held(w), id, reason, requeue, p, deadId, failures, roll, now).0)
    ensures Run(w, steps, p).published == w.published
  {
    hide WorldOk, S.Fail;
    if id !in w.store.messages {
      steps := [];
      NoSteps(w, p);
    } else if requeue {
      steps := [Requeue(id, now)];
      OneStep(w, Requeue(id, now), p);
      StepReaches(w, Requeue(id, now), p);
    } else {
      var read := Read(id);
      var w1 := Apply(w, read, p);
      OneStep(w, read, p);
      StepReaches(w, read, p);
      var cause := S.Cause(if reason == "" then S.DEFAULT_REASON else reason, false);
      var rest := FailIsRun(w1, w.store.messages[id].msg, cause, deadId, failures, roll, now, p);
      steps := [read] + rest;
      RunAppend(w, [read], rest, p);
      ThenReaches(w, [read], rest, p, S.Nack(Held(w), id, reason, requeue, p, deadId, failures, roll, now).0);
    }
  }

  /** A publication. */
  lemma PublishIsRun(w: World, t: T.Topology, schemas: P.Schemas, pub: Publication, ids: nat -> string, deadId: string,
                     now: int, p: Policy)
    returns (steps: seq<Step>)
    requires T.TopologyOk(t) && P.Injective(ids) && (forall i :: 0 <= i ==> ids(i) !in w.published) && deadId != ""
    ensures Reaches(w, steps, p, P.Publish(t, Held(w), schemas, pub, ids, deadId, now).0)
  {
    hide T.TopologyOk, T.Route, Reaches, AppendAll;
    var routed := T.Route(t, pub.exchange, pub.routingKey);
    if routed.Fault? {
      steps := [];
      NoSteps(w, p);
    } else {
      var batch := P.Batch(pub, routed.value, ids, now);
      var bad := P.FirstRefused(schemas, batch);
      if bad < |batch| {
        var park := Park(batch[bad], deadId, P.Judge(schemas, batch[bad]).reason, now);
        steps := [park];
        StepReaches(w, park, p);
      } else {
        P.RoutedQueues(t, pub);
        P.BatchAppendable(pub, routed.value, ids, now);
        steps := [Delivery.Publish(batch)];
        StepReaches(w, Delivery.Publish(batch), p);
      }
    }
  }

  /** A replay. */
  lemma ReplayIsRun(w: World, t: T.Topology, deadId: string, id: string, now: int, p: Policy) returns (steps: seq<Step>)
    requires WorldOk(w, p) && id !in w.published
    ensures Reaches(w, steps, p, S.Replay(t, Held(w), deadId, id, now).0)
  {
    hide Inv, BookOk, StoredOk, SeenOk, AppendAll;
    if deadId !in w.book || w.book[deadId].content.queue !in t.queues {
      steps := [];
      NoSteps(w, p);
    } else {
      var record := w.book[deadId];
      var replay := Delivery.Replay(record, id, t.queues[record.content.queue].spec.maxAttempts, now);
      StepReaches(w, replay, p);
      if Append(w.store, [ReplayOf(record, id, replay.maxAttempts, now)]).1.Err? {
        steps := [replay];
      } else {
        var mark := Delivery.Replayed(deadId, id, now);
        OneStep(w, replay, p);
        StepReaches(Apply(w, replay, p), mark, p);
        steps := [replay] + [mark];
        ThenReaches(w, [replay], [mark], p, S.Replay(t, Held(w), deadId, id, now).0);
      }
    }
  }

  // ----- A run that brings an acknowledged message back -----

  const FIRST_CLAIM_AT := 1

  function Original(id: string, queue: string, payload: string): Message {
    var at := FIRST_CLAIM_AT;
    Message(id, "", "", queue, "", payload, map[], Queued, 0, 1, "", at, at, at)
  }

  function Lease(queue: string): ClaimRequest {
    ClaimRequest(queue, "", 1, 1, FIRST_CLAIM_AT)
  }

  /** The store is open and holds the one message, in this state, after this many attempts, available from then on. */
  ghost predicate Only(w: World, origin: Message, state: State, attempts: int, since: int) {
    && !w.store.closed && w.book == map[] && w.published.Keys == {origin.id} == w.store.messages.Keys
    && var m := w.store.messages[origin.id].msg;
    && ContentOf(m) == ContentOf(origin) && m.maxAttempts == origin.maxAttempts
    && m.state == state && m.attempts == attempts && m.availableAt == since
  }

  lemma PublishedOnly(origin: Message, p: Policy)
    requires Appendable([origin])
    ensures Enabled(Start(), Delivery.Publish([origin]), p)
    ensures Only(Apply(Start(), Delivery.Publish([origin]), p), origin, Queued, 0, origin.availableAt)
  {
    assert [origin][..0] == [] && AppendAll(EmptyStore(), []) == EmptyStore();
    assert Enrol(map[], [origin]) == map[origin.id := origin] by { assert Enrol(map[], []) == map[]; }
  }

  /** A claim leases the one waiting message. */
  lemma ClaimedOnly(w: World, origin: Message, attempts: int, since: int, req: ClaimRequest, p: Policy)
    requires WorldOk(w, p) && Only(w, origin, Queued, attempts, since)
    requires req.queue == origin.queue && req.limit == 1 && since <= req.now && req.now + req.lease != ZERO_TIME
    ensures Enabled(w, Delivery.Claim(req), p)
    ensures var w' := Apply(w, Delivery.Claim(req), p);
            && Only(w', origin, Processing, attempts + 1, since)
            && w'.store.messages[origin.id].lease == req.now + req.lease
  {
    hide Inv, WorldOk, StoreSpec.Claim;
    var id := origin.id;
    StoreIsOk(w, p);
    ClaimIsExact(w.store, req);
    var r := StoreSpec.Claim(w.store, req).1;
    if r.value == [] {
      W.EmptyClaimMeansNothingAvailable(w.store, req, id);
    }
    assert r.value != [];
    assert r.value[0] in r.value && r.value[0].id == id;
    assert Returned(r.value, id);
    ClaimKeepsOpen(w.store, req);
  }

  lemma ClaimKeepsOpen(s: StoreState, req: ClaimRequest)
    ensures StoreSpec.Claim(s, req).0.closed == s.closed
  {}

  lemma LeasedOnly(w: World, origin: Message, attempts: int, since: int, at: int, p: Policy)
    requires WorldOk(w, p) && Only(w, origin, Processing, attempts, since)
    ensures Only(Apply(w, Delivery.Requeue(origin.id, at), p), origin, Queued, attempts, at)
    ensures Only(Apply(w, Delivery.Ack(origin.id, at), p), origin, Acknowledged, attempts, since)
  {
    hide Inv, WorldOk;
    StoreIsOk(w, p);
    RecordAt(w.store, origin.id);
  }

  lemma Continue(steps: seq<Step>, step: Step, p: Policy)
    requires Legal(Start(), steps, p) && p.Valid() && Enabled(Run(Start(), steps, p), step, p)
    ensures Legal(Start(), steps + [step], p)
    ensures Run(Start(), steps + [step], p) == Apply(Run(Start(), steps, p), step, p)
    ensures WorldOk(Run(Start(), steps + [step], p), p)
  {
    hide Enabled, Apply, WorldOk, Run, Legal;
    OneStep(Run(Start(), steps, p), step, p);
    RunAppend(Start(), steps, [step], p);
    StartOk(p);
    RunKeeps(Start(), steps + [step], p);
  }

  /** Claimed and explicitly requeued over and over, a message waits with any number of attempts. */
  lemma {:induction false} WaitingAfter(origin: Message, attempts: nat, p: Policy) returns (steps: seq<Step>)
    requires p.Valid() && Appendable([origin]) && origin.availableAt == FIRST_CLAIM_AT
    ensures Legal(Start(), steps, p) && WorldOk(Run(Start(), steps, p), p)
    ensures Only(Run(Start(), steps, p), origin, Queued, attempts, FIRST_CLAIM_AT)
    decreases attempts
  {
    hide Apply, WorldOk, Only;
    if attempts == 0 {
      PublishedOnly(origin, p);
      steps := [] + [Delivery.Publish([origin])];
      Continue([], Delivery.Publish([origin]), p);
    } else {
      var before := WaitingAfter(origin, attempts - 1, p);
      var leased := LeaseAgain(before, origin, attempts - 1, p);
      LeasedOnly(Run(Start(), leased, p), origin, attempts, FIRST_CLAIM_AT, FIRST_CLAIM_AT, p);
      steps := leased + [Delivery.Requeue(origin.id, FIRST_CLAIM_AT)];
      Continue(leased, Delivery.Requeue(origin.id, FIRST_CLAIM_AT), p);
    }
  }

  lemma LeaseAgain(before: seq<Step>, origin: Message, attempts: int, p: Policy) returns (steps: seq<Step>)
    requires p.Valid() && Legal(Start(), before, p) && WorldOk(Run(Start(), before, p), p)
    requires Only(Run(Start(), before, p), origin, Queued, attempts, FIRST_CLAIM_AT)
    ensures Legal(Start(), steps, p) && WorldOk(Run(Start(), steps, p), p)
    ensures Only(Run(Start(), steps, p), origin, Processing, attempts + 1, FIRST_CLAIM_AT)
  {
    hide Apply, WorldOk, Only, Run, Legal;
    ClaimedOnly(Run(Start(), before, p), origin, attempts, FIRST_CLAIM_AT, Lease(origin.queue), p);
    steps := before + [Delivery.Claim(Lease(origin.queue))];
    Continue(before, Delivery.Claim(Lease(origin.queue)), p);
  }

  /** A run that ends with the message acknowledged on its last granted attempt. */
  lemma AcknowledgedAtLast(origin: Message, p: Policy) returns (steps: seq<Step>)
    requires p.Valid() && Appendable([origin]) && origin.availableAt == FIRST_CLAIM_AT
    ensures Legal(Start(), steps, p) && WorldOk(Run(Start(), steps, p), p)
    ensures Only(Run(Start(), steps, p), origin, Acknowledged, p.maxAttempts, FIRST_CLAIM_AT)
  {
    hide Apply, WorldOk, Only, Run, Legal;
    var before := WaitingAfter(origin, p.maxAttempts - 1, p);
    var leased := LeaseAgain(before, origin, p.maxAttempts - 1, p);
    LeasedOnly(Run(Start(), leased, p), origin, p.maxAttempts, FIRST_CLAIM_AT, FIRST_CLAIM_AT, p);
    steps := leased + [Delivery.Ack(origin.id, FIRST_CLAIM_AT)];
    Continue(leased, Delivery.Ack(origin.id, FIRST_CLAIM_AT), p);
  }

  /** For every policy, declared queue and payload there is a run from the empty store after which the message
      is acknowledged and its payload is waiting again under another identifier. */
  lemma AcknowledgedCanComeBack(t: T.Topology, p: Policy, queue: string, payload: string) returns (steps: seq<Step>)
    requires T.TopologyOk(t) && queue in t.queues && p.Valid()
    ensures Legal(Start(), steps, p)
    ensures var ms := Run(Start(), steps, p).store.messages;
            && "a" in ms && ms["a"].msg.state == Acknowledged && ms["a"].msg.payload == payload
            && "b" in ms && ms["b"].msg.state == Queued && ms["b"].msg.payload == payload && ms["b"].msg.queue == queue
  {
    hide T.TopologyOk, WorldOk, Run, Legal, S.Nack, S.Replay;
    var origin := Original("a", queue, payload);
    var first := AcknowledgedAtLast(origin, p);
    var w := Run(Start(), first, p);
    WorldSound(w, p);
    S.AcknowledgedYetReplayed(t, Held(w), "a", p, "d", map[], 0.0, "b", FIRST_CLAIM_AT);
    var nack := NackIsRun(w, "a", "", false, "d", map[], 0.0, FIRST_CLAIM_AT, p);
    var w1 := Run(w, nack, p);
    RunKeeps(w, nack, p);
    var again := ReplayIsRun(w1, t, "d", "b", FIRST_CLAIM_AT, p);
    RunAppend(Start(), first, nack, p);
    RunAppend(Start(), first + nack, again, p);
    steps := first + nack + again;
  }

  /** For every policy and every other limit there is a run from the start after which a message with that limit of its
      own is being processed, and its failure is treated otherwise than its limit says. */
  lemma OwnLimitIsIgnored(p: Policy, limit: int) returns (steps: seq<Step>)
    requires p.Valid() && 1 <= limit && limit != p.maxAttempts
    ensures Legal(Start(), steps, p)
    ensures var w := Run(Start(), steps, p);
            && IsIn(w, "a", Processing) && w.store.messages["a"].msg.maxAttempts == limit
            && var was := w.store.messages["a"].msg;
            var ms := S.Fail(Held(w), was, S.Cause("", false), p, "d", map[], 0.0, FIRST_CLAIM_AT).store.messages;
            "a" in ms && (ms["a"].msg.state == Retrying) != (was.attempts < was.maxAttempts)
  {
    hide WorldOk, Run, Legal, S.Fail, Only;
    var attempts := if limit < p.maxAttempts then limit else p.maxAttempts;
    var origin := Original("a", "", "").(maxAttempts := limit);
    var before := WaitingAfter(origin, attempts - 1, p);
    steps := LeaseAgain(before, origin, attempts - 1, p);
    var w := Run(Start(), steps, p);
    LimitStays(w, origin, attempts, FIRST_CLAIM_AT);
    WorldSound(w, p);
    S.FailureIsSettled(Held(w), "a", S.Cause("", false), p, "d", map[], 0.0, FIRST_CLAIM_AT);
  }

  lemma LimitStays(w: World, origin: Message, attempts: int, since: int)
    requires Only(w, origin, Processing, attempts, since)
    ensures IsIn(w, origin.id, Processing) && !w.store.closed && w.book == map[]
    ensures w.store.messages[origin.id].msg.maxAttempts == origin.maxAttempts
    ensures w.store.messages[origin.id].msg.attempts == attempts
  {}

  lemma WorldSound(w: World, p: Policy)
    requires WorldOk(w, p)
    ensures Inv(w.store) && BookOk(w.book, w.saved)
  {}
}
