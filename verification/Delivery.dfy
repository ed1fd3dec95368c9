/** The delivery protocol. Every engine routine is a sequence of store transactions, and the
    transactions of different routines interleave freely: a decision may be taken on a snapshot
    that is out of date by the time it reaches the store. One step here is one transaction. */
module Delivery {
  import opened Sequences
  import Ordering
  import opened Messages
  import opened StoreSpec
  import opened StoreInvariant
  import opened Leasing
  import opened DeadLetterSpec
  import opened Retry

  /** What has happened to one message. `excess` counts the returns to the queue that the retry
      policy did not grant on the current attempt number: explicit requeues, releases of undispatched
      messages, and retries or reclaims decided on an old snapshot. `forced` counts the burials for a permanent
      cause. `delay` adds up the backoffs. */
  datatype Tally = Tally(
    claims: nat,
    acks: nat,
    retries: nat,
    releases: nat,
    burials: nat,
    excess: nat,
    forced: nat,
    delay: int)

  const NOTHING := Tally(0, 0, 0, 0, 0, 0, 0, 0)

  datatype World = World(
    store: StoreState,
    book: map<string, DeadLetter>,
    saved: seq<string>,
    seen: set<Message>,
    // the past
    published: map<string, Message>,
    removed: set<string>,
    recorded: set<DeadLetter>,
    tally: map<string, Tally>)

  function Start(): World {
    World(EmptyStore(), map[], [], {}, map[], {}, {}, map[])
  }

  datatype Step =
    | Publish(batch: seq<Message>)
    | Claim(request: ClaimRequest)
    | Read(id: string)
    | Scan(now: int, limit: int)
    | Ack(id: string, at: int)
    | Retry(basis: Message, reason: string, now: int, roll: real)
    | Requeue(id: string, at: int)
    | Undispatched(id: string, at: int)
    | Reclaim(basis: Message, now: int)
    | SaveDead(basis: Message, deadId: string, reason: string, kind: string, firstFailedAt: int, now: int)
    | MarkDead(basis: Message, reason: string, permanent: bool, now: int)
    | Park(rejected: Message, deadId: string, reason: string, now: int)
    | Replay(record: DeadLetter, id: string, maxAttempts: int, now: int)
    | Replayed(deadId: string, id: string, at: int)
    | Discard(deadId: string)
    | Purge(queue: string)
    | DeleteQueue(queue: string)
    | SaveQueue(queue: string)
    | Close

  /** What the engine guarantees before it issues a transaction. Decisions rest on a snapshot it has
      seen: it is retried or requeued only with attempts left, and buried only without, unless the cause is
      permanent. A message is marked only after a record of it was saved. */
  ghost predicate Enabled(w: World, step: Step, p: Policy) {
    match step
    case Publish(batch) => Fresh(w, batch)
    case Claim(req) => req.now + req.lease != ZERO_TIME
    case Retry(basis, _, _, roll) => basis in w.seen && basis.attempts < p.maxAttempts && 0.0 <= roll < 1.0
    case Reclaim(basis, _) => basis in w.seen && basis.attempts < p.maxAttempts
    case SaveDead(basis, deadId, _, _, _, _) => basis in w.seen && deadId != ""
    case Park(rejected, deadId, _, _) => rejected.id !in w.published && deadId != ""
    case MarkDead(basis, _, permanent, _) =>
      && basis in w.seen && HasRecord(w.recorded, ContentOf(basis))
      && (permanent || p.maxAttempts <= basis.attempts)
    case Replay(record, id, _, _) => HasRecord(w.recorded, record.content) && id !in w.published
    case _ => true
  }

  ghost predicate HasRecord(recorded: set<DeadLetter>, content: Content) {
    exists r :: r in recorded && r.content == content
  }

  function Enrol(published: map<string, Message>, batch: seq<Message>): map<string, Message> {
    if batch == [] then published
    else Enrol(published, batch[..|batch| - 1])[batch[|batch| - 1].id := batch[|batch| - 1]]
  }

  function Enter(w: World, batch: seq<Message>): World {
    var (s, r) := Append(w.store, batch);
    if r.Err? then w
    else
      var published := Enrol(w.published, batch);
      w.(store := s, published := published,
         tally := map id | id in published :: if id in w.tally then w.tally[id] else NOTHING)
  }

  function Count(t: Tally, stale: bool): nat {
    t.excess + (if stale then 1 else 0)
  }

  function Burial(t: Tally, permanent: bool): Tally {
    t.(burials := t.burials + 1, forced := t.forced + One(permanent))
  }

  function TallyOf(w: World, id: string): Tally {
    if id in w.tally then w.tally[id] else NOTHING
  }

  function Moved(w: World, next: (StoreState, Outcome<()>), id: string, t: Tally): World {
    if next.1.Err? then w else w.(store := next.0, tally := w.tally[id := t])
  }

  function Without(w: World, s: StoreState): World {
    w.(store := s, removed := w.removed + (w.store.messages.Keys - s.messages.Keys))
  }

  function Keep(w: World, record: DeadLetter): World {
    if w.store.closed || record.id in w.book then w
    else w.(book := w.book[record.id := record], saved := w.saved + [record.id], recorded := w.recorded + {record})
  }

  function Stale(w: World, basis: Message): bool {
    basis.id in w.store.messages && w.store.messages[basis.id].msg.attempts != basis.attempts
  }

  ghost function CountClaims(tally: map<string, Tally>, ms: seq<Message>): map<string, Tally> {
    map id | id in tally :: if Returned(ms, id) then tally[id].(claims := tally[id].claims + 1) else tally[id]
  }

  ghost function Apply(w: World, step: Step, p: Policy): World {
    match step
    case Publish(batch) => Enter(w, batch)
    case Claim(req) =>
      var (s, r) := StoreSpec.Claim(w.store, req);
      if r.Err? then w
      else w.(store := s, seen := w.seen + (set m | m in r.value), tally := CountClaims(w.tally, r.value))
    case Read(id) => if id in w.store.messages then w.(seen := w.seen + {w.store.messages[id].msg}) else w
    case Scan(now, limit) => w.(seen := w.seen + (set m | m in ExpiredLeases(w.store, now, limit)))
    case Ack(id, at) =>
      var t := TallyOf(w, id);
      Moved(w, Acknowledge(w.store, id, at), id, t.(acks := t.acks + 1))
    case Retry(basis, reason, now, roll) =>
      var t := TallyOf(w, basis.id);
      var wait := p.BackoffWithJitter(basis.attempts, roll);
      Moved(w, ScheduleRetry(w.store, RetryRequest(basis.id, basis.attempts, reason, now + wait, now)), basis.id,
            t.(retries := t.retries + 1, excess := Count(t, Stale(w, basis)), delay := t.delay + wait))
    case Requeue(id, at) =>
      var t := TallyOf(w, id);
      Moved(w, Release(w.store, id, at), id, t.(releases := t.releases + 1, excess := t.excess + 1))
    case Undispatched(id, at) =>
      var t := TallyOf(w, id);
      Moved(w, Release(w.store, id, at), id, t.(releases := t.releases + 1, excess := t.excess + 1))
    case Reclaim(basis, now) =>
      var t := TallyOf(w, basis.id);
      Moved(w, Release(w.store, basis.id, now), basis.id,
            t.(releases := t.releases + 1, excess := Count(t, Stale(w, basis))))
    case SaveDead(basis, deadId, reason, kind, firstFailedAt, now) =>
      Keep(w, NewRecord(deadId, basis, reason, kind, firstFailedAt, now))
    case Park(rejected, deadId, reason, now) => Keep(w, NewRecord(deadId, rejected, reason, KIND_VALIDATION, now, now))
    case MarkDead(basis, reason, permanent, now) =>
      Moved(w, MarkDeadLettered(w.store, basis.id, reason, now), basis.id, Burial(TallyOf(w, basis.id), permanent))
    case Replay(record, id, maxAttempts, now) => Enter(w, [ReplayOf(record, id, maxAttempts, now)])
    case Replayed(deadId, id, at) =>
      if deadId !in w.book then w
      else w.(book := w.book[deadId := MarkedReplayed(w.book[deadId], id, at)])
    case Discard(deadId) => w.(book := w.book - {deadId}, saved := Filter(Except(deadId), w.saved))
    case Purge(queue) => Without(w, StoreSpec.Purge(w.store, queue).0)
    case DeleteQueue(queue) => Without(w, StoreSpec.DeleteQueue(w.store, queue).0)
    case SaveQueue(queue) => w.(store := StoreSpec.SaveQueue(w.store, queue).0)
    case Close => w.(store := w.store.(closed := true))
  }

  ghost function Run(w: World, steps: seq<Step>, p: Policy): World
    decreases |steps|
  {
    if steps == [] then w else Run(Apply(w, steps[0], p), steps[1..], p)
  }

  ghost predicate Legal(w: World, steps: seq<Step>, p: Policy)
    decreases |steps|
  {
    steps == [] || (Enabled(w, steps[0], p) && Legal(Apply(w, steps[0], p), steps[1..], p))
  }

  // ----- The invariant -----

  ghost predicate MessageOk(m: Message, origin: Message, t: Tally, recorded: set<DeadLetter>, p: Policy) {
    && ContentOf(m) == ContentOf(origin)
    && t.claims == m.attempts
    && m.attempts == t.acks + t.retries + t.releases + t.burials + One(m.state == Processing)
    && t.acks == One(m.state == Acknowledged) && t.burials == One(m.state == DeadLettered)
    && m.attempts <= p.maxAttempts + t.excess
    && (m.state == Queued || m.state == Retrying ==> m.attempts < p.maxAttempts + t.excess)
    && 0 <= t.delay <= t.retries * p.maxInterval
    && (m.state == DeadLettered ==> HasRecord(recorded, ContentOf(origin)))
    && (m.state == DeadLettered && t.forced == 0 ==> p.maxAttempts <= m.attempts)
  }

  ghost predicate StoredOk(w: World, id: string, p: Policy) {
    id in w.store.messages ==>
      && id in w.published && id in w.tally
      && MessageOk(w.store.messages[id].msg, w.published[id], w.tally[id], w.recorded, p)
  }

  /** A snapshot has the published content and, while the message is stored, no more attempts than it has now. */
  ghost predicate SeenOk(w: World, m: Message) {
    m in w.seen ==>
      && m.id in w.published && ContentOf(m) == ContentOf(w.published[m.id])
      && (m.id in w.store.messages ==> m.attempts <= w.store.messages[m.id].msg.attempts)
  }

  ghost predicate WorldOk(w: World, p: Policy) {
    && Inv(w.store) && BookOk(w.book, w.saved)
    && w.published.Keys == w.tally.Keys == w.store.messages.Keys + w.removed
    && w.store.messages.Keys !! w.removed
    && (forall id :: id in w.published ==> w.published[id].id == id)
    && (forall id :: StoredOk(w, id, p))
    && (forall m :: SeenOk(w, m))
    && (forall id :: id in w.book ==> HasRecord(w.recorded, w.book[id].content))
  }

  // ----- One message, one step -----

  lemma ClaimedOk(m: Message, req: ClaimRequest, origin: Message, t: Tally, recorded: set<DeadLetter>, p: Policy)
    requires MessageOk(m, origin, t, recorded, p) && (m.state == Queued || m.state == Retrying)
    ensures MessageOk(Claimed(Record(m, ZERO_TIME, ""), req).msg, origin, t.(claims := t.claims + 1), recorded, p)
  {}

  lemma AckedOk(m: Message, at: int, origin: Message, t: Tally, recorded: set<DeadLetter>, p: Policy)
    requires MessageOk(m, origin, t, recorded, p) && m.state == Processing
    ensures MessageOk(m.(state := Acknowledged, updatedAt := at), origin, t.(acks := t.acks + 1), recorded, p)
  {}

  lemma RetriedOk(m: Message, req: RetryRequest, origin: Message, t: Tally, stale: bool, wait: int,
                  recorded: set<DeadLetter>, p: Policy)
    requires MessageOk(m, origin, t, recorded, p) && m.state == Processing
    requires 0 <= wait <= p.maxInterval && (!stale ==> m.attempts < p.maxAttempts)
    ensures MessageOk(Retried(Record(m, ZERO_TIME, ""), req).msg, origin,
                      t.(retries := t.retries + 1, excess := Count(t, stale), delay := t.delay + wait), recorded, p)
  {
    assert (t.retries + 1) * p.maxInterval == t.retries * p.maxInterval + p.maxInterval;
  }

  lemma ReleasedOk(m: Message, at: int, origin: Message, t: Tally, stale: bool, recorded: set<DeadLetter>, p: Policy)
    requires MessageOk(m, origin, t, recorded, p) && m.state == Processing && (!stale ==> m.attempts < p.maxAttempts)
    ensures MessageOk(Released(Record(m, ZERO_TIME, ""), at).msg, origin,
                      t.(releases := t.releases + 1, excess := Count(t, stale)), recorded, p)
  {}

  lemma BuriedOk(m: Message, reason: string, permanent: bool, at: int, origin: Message, t: Tally,
                 recorded: set<DeadLetter>, p: Policy)
    requires MessageOk(m, origin, t, recorded, p) && m.state == Processing && HasRecord(recorded, ContentOf(origin))
    requires permanent || p.maxAttempts <= m.attempts
    ensures MessageOk(Buried(Record(m, ZERO_TIME, ""), reason, at).msg, origin, Burial(t, permanent), recorded, p)
  {}

  // ----- The world, one step -----

  lemma StoredAt(w: World, id: string, p: Policy)
    requires WorldOk(w, p) && id in w.store.messages
    ensures id in w.published && id in w.tally && w.published[id].id == id
    ensures RecordOk(id, w.store.messages[id])
    ensures MessageOk(w.store.messages[id].msg, w.published[id], w.tally[id], w.recorded, p)
  {
    assert StoredOk(w, id, p);
  }

  /** A transaction that changed one record. */
  lemma OneRecord(w: World, s: StoreState, id: string, r: Record, t: Tally, p: Policy)
    requires WorldOk(w, p) && Inv(s) && id in w.store.messages && s.messages == w.store.messages[id := r]
    requires MessageOk(r.msg, w.published[id], t, w.recorded, p)
    requires w.store.messages[id].msg.attempts <= r.msg.attempts
    ensures WorldOk(w.(store := s, tally := w.tally[id := t]), p)
  {
    hide Inv, BookOk, MessageOk, HasRecord;
    StoredAt(w, id, p);
    var w' := w.(store := s, tally := w.tally[id := t]);
    forall x
      ensures StoredOk(w', x, p)
    {
      assert StoredOk(w, x, p);
    }
    forall m
      ensures SeenOk(w', m)
    {
      assert SeenOk(w, m);
    }
    assert w'.tally.Keys == w.tally.Keys && s.messages.Keys == w.store.messages.Keys;
  }

  lemma AckStep(w: World, id: string, at: int, p: Policy)
    requires WorldOk(w, p)
    ensures var t := TallyOf(w, id);
            WorldOk(Moved(w, Acknowledge(w.store, id, at), id, t.(acks := t.acks + 1)), p)
  {
    hide WorldOk, Inv, MessageOk, Acknowledge;
    StoreIsOk(w, p);
    AcknowledgeReplaces(w.store, id, at);
    if Acknowledge(w.store, id, at).1.Ok? {
      StoredAt(w, id, p);
      var r, t := w.store.messages[id], w.tally[id];
      AckedOk(r.msg, at, w.published[id], t, w.recorded, p);
      OneRecord(w, Acknowledge(w.store, id, at).0, id, Acked(r, at), t.(acks := t.acks + 1), p);
    }
  }

  lemma RetryStep(w: World, req: RetryRequest, wait: int, stale: bool, p: Policy)
    requires WorldOk(w, p) && 0 <= wait <= p.maxInterval
    requires req.id in w.store.messages && !stale ==> w.store.messages[req.id].msg.attempts < p.maxAttempts
    ensures var t := TallyOf(w, req.id);
            var next := t.(retries := t.retries + 1, excess := Count(t, stale), delay := t.delay + wait);
            WorldOk(Moved(w, ScheduleRetry(w.store, req), req.id, next), p)
  {
    hide WorldOk, Inv, MessageOk, ScheduleRetry;
    StoreIsOk(w, p);
    RetryReplaces(w.store, req);
    if ScheduleRetry(w.store, req).1.Ok? {
      StoredAt(w, req.id, p);
      var r, t := w.store.messages[req.id], w.tally[req.id];
      RetriedOk(r.msg, req, w.published[req.id], t, stale, wait, w.recorded, p);
      OneRecord(w, ScheduleRetry(w.store, req).0, req.id, Retried(r, req),
                t.(retries := t.retries + 1, excess := Count(t, stale), delay := t.delay + wait), p);
    }
  }

  lemma ReleaseStep(w: World, id: string, at: int, stale: bool, p: Policy)
    requires WorldOk(w, p)
    requires id in w.store.messages && !stale ==> w.store.messages[id].msg.attempts < p.maxAttempts
    ensures var t := TallyOf(w, id);
            var next := t.(releases := t.releases + 1, excess := Count(t, stale));
            WorldOk(Moved(w, Release(w.store, id, at), id, next), p)
  {
    hide WorldOk, Inv, MessageOk, Release;
    StoreIsOk(w, p);
    ReleaseReplaces(w.store, id, at);
    if Release(w.store, id, at).1.Ok? {
      StoredAt(w, id, p);
      var r, t := w.store.messages[id], w.tally[id];
      ReleasedOk(r.msg, at, w.published[id], t, stale, w.recorded, p);
      OneRecord(w, Release(w.store, id, at).0, id, Released(r, at),
                t.(releases := t.releases + 1, excess := Count(t, stale)), p);
    }
  }

  lemma MarkStep(w: World, basis: Message, reason: string, permanent: bool, now: int, p: Policy)
    requires WorldOk(w, p) && Enabled(w, MarkDead(basis, reason, permanent, now), p)
    ensures WorldOk(Apply(w, MarkDead(basis, reason, permanent, now), p), p)
  {
    hide WorldOk, Inv, MessageOk, HasRecord, MarkDeadLettered;
    StoreIsOk(w, p);
    SeenAt(w, basis, p);
    MarkReplaces(w.store, basis.id, reason, now);
    if MarkDeadLettered(w.store, basis.id, reason, now).1.Ok? {
      StoredAt(w, basis.id, p);
      var r, t := w.store.messages[basis.id], w.tally[basis.id];
      BuriedOk(r.msg, reason, permanent, now, w.published[basis.id], t, w.recorded, p);
      OneRecord(w, MarkDeadLettered(w.store, basis.id, reason, now).0, basis.id, Buried(r, reason, now),
                Burial(t, permanent), p);
    }
  }

  /** A claim leases exactly the messages it returns, and they were waiting and available. */
  lemma ClaimIsExact(s: StoreState, req: ClaimRequest)
    requires Inv(s) && !s.closed && req.now + req.lease != ZERO_TIME
    ensures var (t, r) := StoreSpec.Claim(s, req);
            && r.Ok? && t.messages.Keys == s.messages.Keys
            && (forall m :: m in r.value ==> m.id in t.messages && t.messages[m.id].msg == m)
            && (forall id :: id in s.messages && Returned(r.value, id) ==>
                  && var was := s.messages[id].msg;
                  && was.queue == req.queue && was.state in {Queued, Retrying} && was.availableAt <= req.now
                  && t.messages[id] == Record(
                       was.(state := Processing, updatedAt := req.now, attempts := was.attempts + 1),
                       req.now + req.lease, req.consumer))
            && (forall id :: id in s.messages && !Returned(r.value, id) ==> t.messages[id] == s.messages[id])
  {
    hide Inv, StoreSpec.Claim;
    ClaimTakesOnlyTheAvailable(s, req);
    var r := StoreSpec.Claim(s, req).1;
    forall id
      ensures Returned(r.value, id) <==> id in IdsOf(r.value)
    {
      ReturnedIds(r.value, id);
    }
  }

  lemma ClaimedStoredOk(w: World, req: ClaimRequest, id: string, p: Policy)
    requires WorldOk(w, p) && req.now + req.lease != ZERO_TIME && !w.store.closed
    ensures StoredOk(Apply(w, Claim(req), p), id, p)
  {
    hide WorldOk, Inv, MessageOk, StoreSpec.Claim;
    StoreIsOk(w, p);
    ClaimIsExact(w.store, req);
    if id in w.store.messages {
      var r := StoreSpec.Claim(w.store, req).1;
      StoredAt(w, id, p);
      if Returned(r.value, id) {
        ClaimedOk(w.store.messages[id].msg, req, w.published[id], w.tally[id], w.recorded, p);
      }
    }
  }

  lemma StoreIsOk(w: World, p: Policy)
    requires WorldOk(w, p)
    ensures Inv(w.store)
  {}

  lemma ClaimStep(w: World, req: ClaimRequest, p: Policy)
    requires WorldOk(w, p) && req.now + req.lease != ZERO_TIME
    ensures WorldOk(Apply(w, Claim(req), p), p)
  {
    hide Inv, BookOk, MessageOk, StoreSpec.Claim, HasRecord;
    if w.store.closed {
      ClosedClaim(w.store, req);
    } else {
      var w' := Apply(w, Claim(req), p);
      ClaimKeeps(w.store, req);
      ClaimIsExact(w.store, req);
      forall id
        ensures StoredOk(w', id, p)
      {
        ClaimedStoredOk(w, req, id, p);
      }
      forall m
        ensures SeenOk(w', m)
      {
        assert SeenOk(w, m);
        if m in w'.seen && m !in w.seen {
          assert StoredOk(w', m.id, p);
          SameContent(w', m.id, p);
        }
      }
    }
  }

  lemma ClosedClaim(s: StoreState, req: ClaimRequest)
    requires s.closed
    ensures StoreSpec.Claim(s, req).1.Err?
  {}

  lemma SameContent(w: World, id: string, p: Policy)
    requires StoredOk(w, id, p) && id in w.store.messages
    ensures ContentOf(w.store.messages[id].msg) == ContentOf(w.published[id])
  {}

  lemma FreshOk(m: Message, recorded: set<DeadLetter>, p: Policy)
    requires m.state == Queued && m.attempts == 0 && p.Valid()
    ensures MessageOk(m, m, NOTHING, recorded, p)
  {}

  ghost predicate Fresh(w: World, batch: seq<Message>) {
    Appendable(batch) && forall i :: 0 <= i < |batch| ==> batch[i].id !in w.published
  }

  lemma {:induction false} StoredIds(s: StoreState, batch: seq<Message>)
    ensures AppendAll(s, batch).messages.Keys == s.messages.Keys + BatchIds(batch)
    decreases |batch|
  {
    if batch != [] {
      BatchIdsPush(batch);
      StoredIds(s, batch[..|batch| - 1]);
    }
  }

  lemma {:induction false} EnrolledIds(published: map<string, Message>, batch: seq<Message>)
    requires forall id :: id in published ==> published[id].id == id
    ensures var all := Enrol(published, batch);
            && all.Keys == published.Keys + BatchIds(batch)
            && (forall id :: id in all ==> all[id].id == id)
            && (forall id :: id in published && id !in BatchIds(batch) ==> all[id] == published[id])
    decreases |batch|
  {
    if batch != [] {
      BatchIdsPush(batch);
      EnrolledIds(published, batch[..|batch| - 1]);
    }
  }

  lemma {:induction false} EnrolAt(published: map<string, Message>, batch: seq<Message>, i: nat)
    requires i < |batch| && forall j, k :: 0 <= j < k < |batch| ==> batch[j].id != batch[k].id
    ensures batch[i].id in Enrol(published, batch) && Enrol(published, batch)[batch[i].id] == batch[i]
    decreases |batch|
  {
    if i < |batch| - 1 {
      assert batch[i].id != batch[|batch| - 1].id;
      EnrolAt(published, batch[..|batch| - 1], i);
    }
  }

  lemma NewcomerOk(w: World, batch: seq<Message>, i: nat, p: Policy)
    requires p.Valid() && Fresh(w, batch) && Append(w.store, batch).1.Ok? && i < |batch|
    requires w.tally.Keys == w.published.Keys
    ensures StoredOk(Enter(w, batch), batch[i].id, p)
  {
    hide MessageOk, AppendAll, Enrol;
    AppendAllMessages(w.store, batch);
    EnrolAt(w.published, batch, i);
    FreshOk(batch[i], w.recorded, p);
  }

  lemma ResidentOk(w: World, batch: seq<Message>, id: string, p: Policy)
    requires WorldOk(w, p) && Fresh(w, batch) && Append(w.store, batch).1.Ok? && id in w.store.messages
    ensures StoredOk(Enter(w, batch), id, p)
  {
    hide Inv, BookOk, MessageOk, AppendAll, Enrol;
    StoredAt(w, id, p);
    AppendAllMessages(w.store, batch);
    EnrolledIds(w.published, batch);
    assert id !in BatchIds(batch);
  }

  lemma EnteredOk(w: World, batch: seq<Message>, id: string, p: Policy)
    requires WorldOk(w, p) && p.Valid() && Fresh(w, batch) && Append(w.store, batch).1.Ok?
    ensures StoredOk(Enter(w, batch), id, p)
  {
    hide Inv, BookOk, MessageOk, AppendAll, Enrol, StoredOk, SeenOk;
    if id in w.store.messages {
      ResidentOk(w, batch, id, p);
    } else if id in Enter(w, batch).store.messages {
      AppendAllMessages(w.store, batch);
      var i :| 0 <= i < |batch| && batch[i].id == id;
      NewcomerOk(w, batch, i, p);
    } else {
      AbsentOk(Enter(w, batch), id, p);
    }
  }

  lemma AbsentOk(w: World, id: string, p: Policy)
    requires id !in w.store.messages
    ensures StoredOk(w, id, p)
  {}

  lemma EnteredKeys(w: World, batch: seq<Message>, p: Policy)
    requires WorldOk(w, p) && Fresh(w, batch) && Append(w.store, batch).1.Ok?
    ensures var w' := Enter(w, batch);
            && w'.published.Keys == w'.tally.Keys == w'.store.messages.Keys + w'.removed
            && w'.store.messages.Keys !! w'.removed
            && (forall id :: id in w'.published ==> w'.published[id].id == id)
            && (forall id :: id in w.published ==> id in w'.published && w'.published[id] == w.published[id])
  {
    hide Inv, BookOk, MessageOk, StoredOk, SeenOk, AppendAll, Enrol, BatchIds, HasRecord;
    StoredIds(w.store, batch);
    EnrolledIds(w.published, batch);
    assert BatchIds(batch) !! w.published.Keys by { FreshIds(w, batch); }
    JoinedKeys(w.published.Keys, w.store.messages.Keys, w.removed, BatchIds(batch));
  }

  lemma FreshIds(w: World, batch: seq<Message>)
    requires Fresh(w, batch)
    ensures BatchIds(batch) !! w.published.Keys
  {}

  lemma JoinedKeys(published: set<string>, stored: set<string>, removed: set<string>, more: set<string>)
    requires published == stored + removed && stored !! removed && more !! published
    ensures published + more == stored + more + removed && stored + more !! removed
  {}

  lemma EnteredSeen(w: World, batch: seq<Message>, m: Message)
    requires Fresh(w, batch) && Append(w.store, batch).1.Ok? && SeenOk(w, m)
    requires var more := Enter(w, batch).published;
             forall id :: id in w.published ==> id in more && more[id] == w.published[id]
    ensures SeenOk(Enter(w, batch), m)
  {
    hide AppendAll, Enrol;
    AppendAllMessages(w.store, batch);
  }

  lemma EnterStep(w: World, batch: seq<Message>, p: Policy)
    requires WorldOk(w, p) && p.Valid() && Fresh(w, batch)
    ensures WorldOk(Enter(w, batch), p)
  {
    hide Inv, BookOk, MessageOk;
    if Append(w.store, batch).1.Ok? {
      var w' := Enter(w, batch);
      AppendKeeps(w.store, batch);
      EnteredKeys(w, batch, p);
      forall id
        ensures StoredOk(w', id, p)
      {
        EnteredOk(w, batch, id, p);
      }
      forall m
        ensures SeenOk(w', m)
      {
        EnteredSeen(w, batch, m);
      }
    }
  }

  lemma WithoutStep(w: World, s: StoreState, p: Policy)
    requires WorldOk(w, p) && Inv(s) && s.messages.Keys <= w.store.messages.Keys
    requires forall id :: id in s.messages ==> s.messages[id] == w.store.messages[id]
    ensures WorldOk(Without(w, s), p)
  {
    var w' := Without(w, s);
    forall id
      ensures StoredOk(w', id, p)
    {
      assert StoredOk(w, id, p);
    }
    forall m
      ensures SeenOk(w', m)
    {
      assert SeenOk(w, m);
    }
  }

  /** Reading, and everything that leaves messages and tallies alone. */
  lemma QuietStep(w: World, w': World, p: Policy)
    requires WorldOk(w, p) && BookOk(w'.book, w'.saved) && w.recorded <= w'.recorded && w.seen <= w'.seen
    requires w'.store == w.store.(closed := w'.store.closed, queues := w'.store.queues)
    requires w'.published == w.published && w'.removed == w.removed && w'.tally == w.tally
    requires forall m :: m in w'.seen && m !in w.seen ==> m.id in w.store.messages && m == w.store.messages[m.id].msg
    requires forall id :: id in w'.book ==> HasRecord(w'.recorded, w'.book[id].content)
    ensures WorldOk(w', p)
  {
    assert Inv(w'.store) by { TopologyKept(w.store, w'.store); }
    forall id
      ensures StoredOk(w', id, p)
    {
      assert StoredOk(w, id, p);
      if id in w.store.messages {
        MoreRecords(w.store.messages[id].msg, w.published[id], w.tally[id], w.recorded, w'.recorded, p);
      }
    }
    forall m
      ensures SeenOk(w', m)
    {
      assert SeenOk(w, m) && StoredOk(w, m.id, p);
    }
  }

  lemma MoreRecords(m: Message, origin: Message, t: Tally, recorded: set<DeadLetter>, more: set<DeadLetter>, p: Policy)
    requires MessageOk(m, origin, t, recorded, p) && recorded <= more
    ensures MessageOk(m, origin, t, more, p)
  {}

  lemma KeepStep(w: World, record: DeadLetter, p: Policy)
    requires WorldOk(w, p)
    ensures WorldOk(Keep(w, record), p)
  {
    hide Inv, MessageOk, BookOk;
    var w' := Keep(w, record);
    if !w.store.closed && record.id !in w.book {
      SaveKeeps(w.book, w.saved, record);
      forall id | id in w'.book
        ensures HasRecord(w'.recorded, w'.book[id].content)
      {
        if id == record.id {
          assert record in w'.recorded;
        } else {
          var r :| r in w.recorded && r.content == w.book[id].content;
          assert r in w'.recorded;
        }
      }
      QuietStep(w, w', p);
    }
  }

  lemma ReplayedStep(w: World, step: Step, p: Policy)
    requires WorldOk(w, p) && step.Replayed?
    ensures WorldOk(Apply(w, step, p), p)
  {
    hide Inv, MessageOk, BookOk, HasRecord;
    if step.deadId in w.book {
      var w' := Apply(w, step, p);
      MarkedBook(w.book, w.saved, step.deadId, w'.book[step.deadId]);
      forall id | id in w'.book
        ensures HasRecord(w'.recorded, w'.book[id].content)
      {
        assert HasRecord(w.recorded, w.book[id].content);
      }
      QuietStep(w, w', p);
    }
  }

  lemma MarkedBook(book: map<string, DeadLetter>, saved: seq<string>, id: string, r: DeadLetter)
    requires BookOk(book, saved) && id in book && r.id == book[id].id
    ensures BookOk(book[id := r], saved)
  {}

  lemma DiscardStep(w: World, deadId: string, p: Policy)
    requires WorldOk(w, p)
    ensures WorldOk(Apply(w, Discard(deadId), p), p)
  {
    hide Inv, MessageOk, BookOk;
    DeleteKeeps(w.book, w.saved, deadId);
    QuietStep(w, Apply(w, Discard(deadId), p), p);
  }

  lemma FoundAreStored(s: StoreState, now: int, limit: int)
    requires RecordsOk(s.messages)
    ensures forall m :: m in ExpiredLeases(s, now, limit) ==> m.id in s.messages && m == s.messages[m.id].msg
  {
    var found := ExpiredLeases(s, now, limit);
    var ids := TakePositive(limit, Ordering.Listing(ExpiredSet(s, now)));
    forall m | m in found
      ensures m.id in s.messages && m == s.messages[m.id].msg
    {
      var i :| 0 <= i < |found| && found[i] == m;
      assert ids[i] in ids;
      assert RecordOk(ids[i], s.messages[ids[i]]);
    }
  }

  lemma ReadStep(w: World, step: Step, p: Policy)
    requires WorldOk(w, p) && (step.Read? || step.Scan?)
    ensures WorldOk(Apply(w, step, p), p)
  {
    hide BookOk, MessageOk, ExpiredLeases;
    if step.Scan? {
      FoundAreStored(w.store, step.now, step.limit);
    } else if step.id in w.store.messages {
      assert RecordOk(step.id, w.store.messages[step.id]);
    }
    QuietStep(w, Apply(w, step, p), p);
  }

  /** The transactions that move one leased message. */
  lemma LeasedStepKeeps(w: World, step: Step, p: Policy)
    requires WorldOk(w, p) && p.Valid() && Enabled(w, step, p)
    requires step.Ack? || step.Retry? || step.Requeue? || step.Undispatched? || step.Reclaim? || step.MarkDead?
    ensures WorldOk(Apply(w, step, p), p)
  {
    hide WorldOk, HasRecord, Moved;
    match step
    case Ack(id, at) => AckStep(w, id, at, p);
    case Retry(basis, reason, now, roll) => RetryStepKeeps(w, basis, reason, now, roll, p);
    case Requeue(id, at) => ReleaseStep(w, id, at, true, p);
    case Undispatched(id, at) => ReleaseStep(w, id, at, true, p);
    case Reclaim(basis, now) => ReleaseStep(w, basis.id, now, Stale(w, basis), p);
    case MarkDead(basis, reason, permanent, now) => MarkStep(w, basis, reason, permanent, now, p);
  }

  lemma RetryStepKeeps(w: World, basis: Message, reason: string, now: int, roll: real, p: Policy)
    requires WorldOk(w, p) && p.Valid() && basis.attempts < p.maxAttempts && 0.0 <= roll < 1.0
    ensures WorldOk(Apply(w, Retry(basis, reason, now, roll), p), p)
  {
    hide WorldOk, Moved, ScheduleRetry;
    var wait := p.BackoffWithJitter(basis.attempts, roll);
    JitterStaysInBounds(p, basis.attempts, roll);
    RetryStep(w, RetryRequest(basis.id, basis.attempts, reason, now + wait, now), wait, Stale(w, basis), p);
  }

  lemma SeenAt(w: World, m: Message, p: Policy)
    requires WorldOk(w, p) && m in w.seen
    ensures m.id in w.published && ContentOf(m) == ContentOf(w.published[m.id])
    ensures m.id in w.store.messages ==> m.attempts <= w.store.messages[m.id].msg.attempts
  {
    assert SeenOk(w, m);
  }

  /** Every transaction of every engine routine keeps the invariant. */
  lemma StepKeeps(w: World, step: Step, p: Policy)
    requires WorldOk(w, p) && p.Valid() && Enabled(w, step, p)
    ensures WorldOk(Apply(w, step, p), p)
  {
    hide WorldOk, Enter, Keep, Without;
    match step
    case Publish(batch) => EnterStep(w, batch, p);
    case Claim(req) => ClaimStep(w, req, p);
    case Read(_) => ReadStep(w, step, p);
    case Scan(_, _) => ReadStep(w, step, p);
    case SaveDead(basis, deadId, reason, kind, firstFailedAt, now) =>
      KeepStep(w, NewRecord(deadId, basis, reason, kind, firstFailedAt, now), p);
    case Park(rejected, deadId, reason, now) =>
      KeepStep(w, NewRecord(deadId, rejected, reason, KIND_VALIDATION, now, now), p);
    case Replay(record, id, maxAttempts, now) => EnterStep(w, [ReplayOf(record, id, maxAttempts, now)], p);
    case Replayed(_, _, _) => ReplayedStep(w, step, p);
    case Discard(deadId) => DiscardStep(w, deadId, p);
    case Purge(queue) => RemovalStep(w, queue, p);
    case DeleteQueue(queue) => RemovalStep(w, queue, p);
    case SaveQueue(queue) => TopologyStep(w, StoreSpec.SaveQueue(w.store, queue).0, p);
    case Close => TopologyStep(w, w.store.(closed := true), p);
    case _ => LeasedStepKeeps(w, step, p);
  }

  lemma RemovalStep(w: World, queue: string, p: Policy)
    requires WorldOk(w, p)
    ensures WorldOk(Without(w, StoreSpec.Purge(w.store, queue).0), p)
    ensures WorldOk(Without(w, StoreSpec.DeleteQueue(w.store, queue).0), p)
  {
    hide Inv, BookOk, MessageOk;
    PurgeKeeps(w.store, queue);
    DeleteQueueKeeps(w.store, queue);
    WithoutStep(w, StoreSpec.Purge(w.store, queue).0, p);
    WithoutStep(w, StoreSpec.DeleteQueue(w.store, queue).0, p);
  }

  lemma TopologyStep(w: World, s: StoreState, p: Policy)
    requires WorldOk(w, p) && s == w.store.(closed := s.closed, queues := s.queues)
    ensures WorldOk(w.(store := s), p)
  {
    QuietStep(w, w.(store := s), p);
  }

  // ----- Every run -----

  lemma {:induction false} RunKeeps(w: World, steps: seq<Step>, p: Policy)
    requires WorldOk(w, p) && p.Valid() && Legal(w, steps, p)
    ensures WorldOk(Run(w, steps, p), p)
    decreases |steps|
  {
    hide WorldOk;
    if steps != [] {
      StepKeeps(w, steps[0], p);
      RunKeeps(Apply(w, steps[0], p), steps[1..], p);
    }
  }

  /** A live message: stored, listed once by its own queue and by no other. */
  ghost predicate InPlay(w: World, id: string) {
    && id in w.published && id in w.store.messages && !Terminal(w.store.messages[id].msg.state)
    && (forall q :: multiset(Index(w.store, q))[id] == One(q == w.published[id].queue))
  }

  ghost predicate IsIn(w: World, id: string, state: State) {
    id in w.store.messages && w.store.messages[id].msg.state == state
  }

  lemma InPlayIfLive(w: World, id: string, p: Policy)
    requires WorldOk(w, p) && id in w.store.messages && !Terminal(w.store.messages[id].msg.state)
    ensures id in w.published && InPlay(w, id)
  {
    assert StoredOk(w, id, p) && Listed(w.store, id);
    forall q
      ensures multiset(Index(w.store, q))[id] == One(q == w.published[id].queue)
    {
      assert QueueOk(w.store, q);
      Multiplicity(Index(w.store, q), id);
    }
  }

  lemma {:induction false} Multiplicity(ids: seq<string>, id: string)
    requires Distinct(ids)
    ensures multiset(ids)[id] == One(id in ids)
    decreases |ids|
  {
    if ids != [] {
      var front, last := ids[..|ids| - 1], ids[|ids| - 1];
      assert ids == front + [last];
      Multiplicity(front, id);
    }
  }

  /** No message is lost. In every interleaved run each published message is exactly one of: live and
      listed once; acknowledged; dead-lettered, with a record of its content saved in this run; or
      removed with its queue. And while stored its content is what was published. */
  lemma NoMessageIsLost(steps: seq<Step>, p: Policy, id: string)
    requires p.Valid() && Legal(Start(), steps, p)
    requires id in Run(Start(), steps, p).published
    ensures var w := Run(Start(), steps, p);
            && One(InPlay(w, id)) + One(IsIn(w, id, Acknowledged)) + One(IsIn(w, id, DeadLettered))
               + One(id in w.removed) == 1
            && (IsIn(w, id, DeadLettered) ==> HasRecord(w.recorded, ContentOf(w.published[id])))
            && (id in w.store.messages ==> ContentOf(w.store.messages[id].msg) == ContentOf(w.published[id]))
            && (id in w.store.messages ==> w.store.messages[id].msg.state !in {Created, Failed})
  {
    StartOk(p);
    RunKeeps(Start(), steps, p);
    var w := Run(Start(), steps, p);
    if id in w.store.messages {
      StoredAt(w, id, p);
      if !Terminal(w.store.messages[id].msg.state) { InPlayIfLive(w, id, p); }
    }
  }

  lemma StartOk(p: Policy)
    ensures WorldOk(Start(), p)
  {}

  /** Attempts are conserved and bounded. Every claim is answered by exactly one acknowledgement, retry,
      release or burial, except the one being processed; there are at most `maxAttempts` claims plus the
      ungranted returns; and the granted backoffs add up to at most one maximal wait per return. */
  lemma AttemptsAreConservedAndBounded(steps: seq<Step>, p: Policy, id: string)
    requires p.Valid() && Legal(Start(), steps, p)
    requires id in Run(Start(), steps, p).store.messages
    ensures var w := Run(Start(), steps, p);
            var m, t := w.store.messages[id].msg, TallyOf(w, id);
            && m.attempts == t.claims == t.acks + t.retries + t.releases + t.burials + One(m.state == Processing)
            && m.attempts <= p.maxAttempts + t.excess
            && t.retries + t.releases <= p.maxAttempts + t.excess - 1
            && t.claims + t.acks + t.retries + t.releases + t.burials <= 2 * (p.maxAttempts + t.excess)
            && 0 <= t.delay <= (p.maxAttempts + t.excess - 1) * p.maxInterval
  {
    hide Run, Legal, WorldOk;
    StartOk(p);
    RunKeeps(Start(), steps, p);
    var w := Run(Start(), steps, p);
    StoredAt(w, id, p);
    var t := TallyOf(w, id);
    ScaleInt(t.retries, p.maxAttempts + t.excess - 1, p.maxInterval);
  }

  // ----- What the tallies count -----

  /** The step puts a message that is being processed back although the policy has not granted it on this attempt: on
      request, because it could not be handed over, or because of an earlier attempt. */
  ghost predicate Ungranted(w: World, step: Step, id: string) {
    && IsIn(w, id, Processing)
    && match step
       case Requeue(x, _) => x == id
       case Undispatched(x, _) => x == id
       case Retry(basis, _, _, _) => basis.id == id && basis.attempts != w.store.messages[id].msg.attempts
       case Reclaim(basis, _) => basis.id == id && basis.attempts != w.store.messages[id].msg.attempts
       case _ => false
  }

  /** The step buries a message that is being processed for a permanent cause. */
  ghost predicate Forced(w: World, step: Step, id: string) {
    IsIn(w, id, Processing) && step.MarkDead? && step.basis.id == id && step.permanent
  }

  /** No step of the run does that. */
  ghost predicate AllGranted(w: World, steps: seq<Step>, p: Policy, id: string)
    decreases |steps|
  {
    steps == [] || (!Ungranted(w, steps[0], id) && AllGranted(Apply(w, steps[0], p), steps[1..], p, id))
  }

  ghost predicate NoneForced(w: World, steps: seq<Step>, p: Policy, id: string)
    decreases |steps|
  {
    steps == [] || (!Forced(w, steps[0], id) && NoneForced(Apply(w, steps[0], p), steps[1..], p, id))
  }

  /** How long a retry makes the message wait. */
  ghost function Wait(w: World, step: Step, p: Policy, id: string): int {
    if step.Retry? && step.basis.id == id && IsIn(w, id, Processing) && IsIn(Apply(w, step, p), id, Retrying)
    then Apply(w, step, p).store.messages[id].msg.availableAt - step.now else 0
  }

  lemma EnteredTally(w: World, batch: seq<Message>, id: string)
    requires w.published.Keys == w.tally.Keys
    ensures TallyOf(Enter(w, batch), id) == TallyOf(w, id)
  {
    hide AppendAll;
    if Append(w.store, batch).1.Ok? {
      EnrolledMore(w.published, batch, id);
    }
  }

  lemma {:induction false} EnrolledMore(published: map<string, Message>, batch: seq<Message>, id: string)
    ensures id in published ==> id in Enrol(published, batch)
    decreases |batch|
  {
    if batch != [] { EnrolledMore(published, batch[..|batch| - 1], id); }
  }

  /** What a retry does to the message it names, and that it does nothing to another. */
  lemma RetryEffect(w: World, basis: Message, reason: string, now: int, roll: real, p: Policy, id: string)
    requires RecordsOk(w.store.messages)
    ensures var w' := Apply(w, Retry(basis, reason, now, roll), p);
            var wait := p.BackoffWithJitter(basis.attempts, roll);
            if basis.id != id || !IsIn(w, id, Processing) then TallyOf(w', id) == TallyOf(w, id)
            else
              var t := TallyOf(w, id);
              && IsIn(w', id, Retrying) && w'.store.messages[id].msg.availableAt == now + wait
              && TallyOf(w', id)
                 == t.(retries := t.retries + 1, excess := Count(t, Stale(w, basis)), delay := t.delay + wait)
  {
    hide Policy.BackoffWithJitter, Stale;
    if id in w.store.messages { assert RecordOk(id, w.store.messages[id]); }
  }

  lemma RetryCounts(w: World, step: Step, p: Policy, id: string)
    requires step.Retry? && RecordsOk(w.store.messages)
    ensures var t, t' := TallyOf(w, id), TallyOf(Apply(w, step, p), id);
            && t'.excess == t.excess + One(Ungranted(w, step, id)) && t'.forced == t.forced + One(Forced(w, step, id))
            && t'.delay == t.delay + Wait(w, step, p, id)
  {
    hide Apply, Policy.BackoffWithJitter;
    RetryEffect(w, step.basis, step.reason, step.now, step.roll, p, id);
  }

  lemma ReturnCounts(w: World, step: Step, p: Policy, id: string)
    requires step.Requeue? || step.Undispatched? || step.Reclaim?
    ensures var t, t' := TallyOf(w, id), TallyOf(Apply(w, step, p), id);
            && t'.excess == t.excess + One(Ungranted(w, step, id)) && t'.forced == t.forced + One(Forced(w, step, id))
            && t'.delay == t.delay + Wait(w, step, p, id)
  {}

  lemma SettlementCounts(w: World, step: Step, p: Policy, id: string)
    requires (step.Ack? || step.MarkDead?) && RecordsOk(w.store.messages)
    ensures var t, t' := TallyOf(w, id), TallyOf(Apply(w, step, p), id);
            && t'.excess == t.excess + One(Ungranted(w, step, id)) && t'.forced == t.forced + One(Forced(w, step, id))
            && t'.delay == t.delay + Wait(w, step, p, id)
  {
    if id in w.store.messages { assert RecordOk(id, w.store.messages[id]); }
  }

  lemma OthersCountNothing(w: World, step: Step, p: Policy, id: string)
    requires !step.Ack? && !step.Retry? && !step.Requeue? && !step.Undispatched? && !step.Reclaim? && !step.MarkDead?
    requires w.published.Keys == w.tally.Keys
    ensures var t, t' := TallyOf(w, id), TallyOf(Apply(w, step, p), id);
            t'.excess == t.excess && t'.forced == t.forced && t'.delay == t.delay
  {
    hide Enter, StoreSpec.Claim, ExpiredLeases;
    match step
    case Publish(batch) => EnteredTally(w, batch, id);
    case Replay(record, x, maxAttempts, now) => EnteredTally(w, [ReplayOf(record, x, maxAttempts, now)], id);
    case _ =>
  }

  lemma StepCounts(w: World, step: Step, p: Policy, id: string)
    requires WorldOk(w, p)
    ensures var t, t' := TallyOf(w, id), TallyOf(Apply(w, step, p), id);
            && t'.excess == t.excess + One(Ungranted(w, step, id)) && t'.forced == t.forced + One(Forced(w, step, id))
            && t'.delay == t.delay + Wait(w, step, p, id)
  {
    hide Apply, StoredOk, SeenOk, BookOk, QueueOk, Listed, RecordsOk;
    if step.Retry? {
      RetryCounts(w, step, p, id);
    } else if step.Requeue? || step.Undispatched? || step.Reclaim? {
      ReturnCounts(w, step, p, id);
    } else if step.Ack? || step.MarkDead? {
      SettlementCounts(w, step, p, id);
    } else {
      OthersCountNothing(w, step, p, id);
    }
  }

  /** Without such steps the counts stay as they were. */
  lemma {:induction false} RunCounts(w: World, steps: seq<Step>, p: Policy, id: string)
    requires WorldOk(w, p) && p.Valid() && Legal(w, steps, p)
    ensures AllGranted(w, steps, p, id) ==> TallyOf(Run(w, steps, p), id).excess == TallyOf(w, id).excess
    ensures NoneForced(w, steps, p, id) ==> TallyOf(Run(w, steps, p), id).forced == TallyOf(w, id).forced
    decreases |steps|
  {
    hide WorldOk, Apply, Enabled, Ungranted, Forced, TallyOf;
    if steps != [] {
      StepKeeps(w, steps[0], p);
      StepCounts(w, steps[0], p, id);
      RunCounts(Apply(w, steps[0], p), steps[1..], p, id);
    }
  }

  /** No message is given up early: without a burial for a permanent cause, whatever snapshots were decided on, a
      message is dead-lettered only when it has used every attempt the policy grants. If no return was ungranted
      either, it has used exactly those. */
  lemma NotBuriedEarly(steps: seq<Step>, p: Policy, id: string)
    requires p.Valid() && Legal(Start(), steps, p) && NoneForced(Start(), steps, p, id)
    requires IsIn(Run(Start(), steps, p), id, DeadLettered)
    ensures var attempts := Run(Start(), steps, p).store.messages[id].msg.attempts;
            p.maxAttempts <= attempts && (AllGranted(Start(), steps, p, id) ==> attempts == p.maxAttempts)
  {
    hide Run, Legal, WorldOk, NoneForced, AllGranted;
    StartOk(p);
    RunKeeps(Start(), steps, p);
    RunCounts(Start(), steps, p, id);
    StoredAt(Run(Start(), steps, p), id, p);
  }

  lemma ScaleInt(a: int, b: int, c: int)
    requires a <= b && 0 <= c
    ensures a * c <= b * c
  {}

  /** No poison loop: without ungranted returns a message is claimed at most `maxAttempts` times, and
      once it has been, it is being processed or settled, never waiting again. */
  lemma NoPoisonLoop(steps: seq<Step>, p: Policy, id: string)
    requires p.Valid() && Legal(Start(), steps, p) && AllGranted(Start(), steps, p, id)
    requires id in Run(Start(), steps, p).store.messages
    ensures var w := Run(Start(), steps, p);
            var m := w.store.messages[id].msg;
            && m.attempts == TallyOf(w, id).claims <= p.maxAttempts
            && (m.attempts == p.maxAttempts ==> m.state == Processing || Terminal(m.state))
            && TallyOf(w, id).delay <= (p.maxAttempts - 1) * p.maxInterval
  {
    hide Run, Legal, WorldOk, AllGranted;
    AttemptsAreConservedAndBounded(steps, p, id);
    StartOk(p);
    RunKeeps(Start(), steps, p);
    RunCounts(Start(), steps, p, id);
    StoredAt(Run(Start(), steps, p), id, p);
  }
}
