/** The engine's calls on the registry and the store, each carried out without interruption and proved
    against its value-level counterpart. Identifiers, the clock, the random draw and the message history
    come in as parameters. */
module Engine {
  import opened Ordering
  import opened Messages
  import opened StoreSpec
  import opened StoreInvariant
  import opened DeadLetterSpec
  import opened Retry
  import opened Publishing
  import opened Settling
  import opened Reclaiming
  import T = TopologySpec
  import Registry
  import MemoryStore

  class Engine {
    const registry: Registry.Registry
    const store: MemoryStore.Store
    const policy: Policy
    const schemas: Schemas

    constructor (registry: Registry.Registry, store: MemoryStore.Store, policy: Policy, schemas: Schemas)
      ensures this.registry == registry && this.store == store && this.policy == policy && this.schemas == schemas
    {
      this.registry, this.store, this.policy, this.schemas := registry, store, policy, schemas;
    }

    ghost function Held(): Holdings
      reads store
    {
      Holdings(store.State(), store.deadLetters, store.deadOrder)
    }

    ghost predicate Valid()
      reads registry, store
    {
      registry.Valid() && store.Valid()
    }

    /** Store a record under an identifier drawn by the store. */
    method Save(entry: DeadLetter) returns (r: Outcome<string>)
      requires Valid() && entry.id != ""
      modifies store`deadLetters, store`deadOrder
      ensures Valid() && Held() == SaveRecord(old(Held()), entry)
      ensures r.Ok? <==> !store.closed && entry.id !in old(store.deadLetters)
    {
      r := store.SaveDeadLetter(entry, entry.id);
    }

    method Publish(pub: Publication, ids: nat -> string, deadId: string, now: int) returns (r: PublishOutcome)
      requires Valid() && Injective(ids) && deadId != ""
      modifies store
      ensures Valid()
      ensures (Held(), r) == Publishing.Publish(registry.State(), old(Held()), schemas, pub, ids, deadId, now)
    {
      hide Inv, BookOk, T.TopologyOk, T.Route, AppendAll, FirstRefused;
      var routed := registry.Route(pub.exchange, pub.routingKey);
      if routed.Fault? {
        return Unrouted(routed.fault);
      }
      var queues := routed.value;
      ghost var whole := Batch(pub, queues, ids, now);
      var batch: seq<Message> := [];
      var messageIds: seq<string> := [];
      var names: seq<string> := [];
      for i := 0 to |queues|
        invariant batch == whole[..i] && |messageIds| == |names| == i
        invariant forall j :: 0 <= j < i ==>
                    Judge(schemas, whole[j]).Accepted? && messageIds[j] == whole[j].id && names[j] == whole[j].queue
        invariant Held() == old(Held()) && Valid()
      {
        var queue := queues[i].spec;
        var m := NewMessage(ids(i), pub, queue.name, now).(maxAttempts := queue.maxAttempts);
        if m.schema == "" {
          m := m.(schema := queue.schema);
        }
        var verdict := Judge(schemas, m);
        if verdict.Refused? {
          FirstIs(schemas, whole, i);
          var _ := Save(RejectionOf(m, deadId, verdict.reason, now));
          return Rejected(verdict.reason);
        }
        var queued := Transition(m, Queued, now);
        assert queued.Ok?;
        batch := batch + [queued.value];
        messageIds := messageIds + [queued.value.id];
        names := names + [queue.name];
      }
      assert batch == whole;
      FirstIs(schemas, whole, |whole|);
      RoutedBatch(registry.State(), pub, queues, ids, now);
      var stored := store.Append(batch);
      if stored.Err? {
        return Unstored(stored.error);
      }
      assert messageIds == ReceiptFor(pub, batch).ids && names == ReceiptFor(pub, batch).queues;
      r := Published(Receipt(pub.exchange, pub.routingKey, messageIds, names));
    }

    static lemma {:induction false} FirstIs(schemas: Schemas, batch: seq<Message>, n: nat)
      requires n <= |batch| && (forall i :: 0 <= i < n ==> Judge(schemas, batch[i]).Accepted?)
      requires n < |batch| ==> Judge(schemas, batch[n]).Refused?
      ensures FirstRefused(schemas, batch) == n
    {}

    static lemma RoutedBatch(t: T.Topology, pub: Publication, queues: seq<T.Queue>, ids: nat -> string, now: int)
      requires T.TopologyOk(t) && Injective(ids) && T.Route(t, pub.exchange, pub.routingKey) == T.Fine(queues)
      ensures Appendable(Batch(pub, queues, ids, now))
    {
      hide T.TopologyOk, T.Route;
      RoutedQueues(t, pub);
      BatchAppendable(pub, queues, ids, now);
    }

    method DeadLetterMessage(m: Message, deadId: string, reason: string, kind: string, failures: map<string, int>,
                             now: int)
      requires Valid() && deadId != ""
      modifies store
      ensures Valid() && Held() == Bury(old(Held()), m, deadId, reason, kind, failures, now)
    {
      hide Inv, BookOk, T.TopologyOk;
      var saved := Save(NewRecord(deadId, m, reason, kind, FirstFailure(failures, m.id, now), now));
      if saved.Err? {
        return;
      }
      var _ := store.MarkDeadLettered(m.id, reason, now);
    }

    method Fail(m: Message, cause: Cause, deadId: string, failures: map<string, int>, roll: real, now: int)
      requires Valid() && deadId != ""
      modifies store
      ensures Valid() && Held() == Settling.Fail(old(Held()), m, cause, policy, deadId, failures, roll, now)
    {
      hide Inv, BookOk, T.TopologyOk;
      var retryable := !cause.permanent && policy.ShouldRetry(m.attempts);
      if !retryable {
        DeadLetterMessage(m, deadId, cause.reason, if cause.permanent then KIND_PERMANENT else KIND_HANDLER, failures,
                          now);
        return;
      }
      var availableAt := policy.NextAttemptAt(now, m.attempts, roll);
      var _ := store.ScheduleRetry(RetryRequest(m.id, m.attempts, cause.reason, availableAt, now));
    }

    method Nack(id: string, reason: string, requeue: bool, deadId: string, failures: map<string, int>, roll: real,
                now: int) returns (r: Outcome<()>)
      requires Valid() && deadId != ""
      modifies store
      ensures Valid()
      ensures (Held(), r) == Settling.Nack(old(Held()), id, reason, requeue, policy, deadId, failures, roll, now)
    {
      hide Inv, BookOk, T.TopologyOk;
      var found := store.Message(id);
      if found.Err? {
        return Err(found.error);
      }
      var why := if reason == "" then DEFAULT_REASON else reason;
      if requeue {
        r := store.Release(id, now);
        return;
      }
      Fail(found.value, Cause(why, false), deadId, failures, roll, now);
      r := Ok(());
    }

    method ReplayDeadLetter(deadId: string, id: string, now: int) returns (r: ReplayOutcome)
      requires Valid()
      modifies store
      ensures Valid() && (Held(), r) == Replay(registry.State(), old(Held()), deadId, id, now)
    {
      hide Inv, BookOk, T.TopologyOk, AppendAll;
      var found := store.DeadLetter(deadId);
      if found.Err? {
        return NotReplayed(found.error);
      }
      var record := found.value;
      if record.content.queue !in registry.queues {
        return NoQueue(T.QueueNotFound);
      }
      var queue := registry.queues[record.content.queue].spec;
      var c := record.content;
      var pub := Publication(c.exchange, c.routingKey, c.payload, c.headers, c.schema);
      var m := NewMessage(id, pub, queue.name, now).(maxAttempts := queue.maxAttempts);
      m := m.(headers := m.headers[HEADER_REPLAY_OF := c.id]);
      RecordName(store.deadLetters, store.deadOrder, deadId);
      QueueNameIs(registry.State(), c.queue);
      m := m.(headers := m.headers[HEADER_DEAD_LETTER_ID := record.id]);
      var queued := Transition(m, Queued, now);
      assert queued.Ok?;
      var stored := store.Append([queued.value]);
      if stored.Err? {
        return NotReplayed(stored.error);
      }
      var _ := store.MarkDeadLetterReplayed(record.id, id, now);
      r := Replayed(id, queue.name);
    }

    static lemma RecordName(book: map<string, DeadLetter>, saved: seq<string>, deadId: string)
      requires BookOk(book, saved) && deadId in book
      ensures book[deadId].id == deadId
    {}

    static lemma QueueNameIs(t: T.Topology, name: string)
      requires T.TopologyOk(t) && name in t.queues
      ensures t.queues[name].spec.name == name
    {}

    /** Requeue one expired lease, or bury it when its attempts are exhausted. */
    method ReclaimMessage(m: Message, deadId: string, failures: map<string, int>, now: int) returns (requeued: bool)
      requires Valid() && deadId != ""
      modifies store
      ensures Valid() && Held() == ReclaimOne(old(Held()), m, policy, deadId, failures, now)
      ensures requeued <==> policy.ShouldRetry(m.attempts) && Leased(old(store.State()), m.id).Ok?
    {
      hide Inv, BookOk, T.TopologyOk;
      if policy.ShouldRetry(m.attempts) {
        var released := store.Release(m.id, now);
        requeued := released.Ok?;
      } else {
        DeadLetterMessage(m, deadId, LEASE_EXPIRED, KIND_EXPIRED, failures, now);
        requeued := false;
      }
    }

    /** One maintenance pass. The queues that gained a waiting message are returned, to be signalled. */
    method Reclaim(ids: nat -> string, from: nat, failures: map<string, int>, now: int) returns (requeued: seq<string>)
      requires Valid() && forall i :: from <= i ==> ids(i) != ""
      modifies store
      ensures Valid() && Held() == Pass(old(Held()), policy, ids, from, failures, now)
      ensures AllSignalled(old(store.messages), store.messages, requeued)
    {
      hide Inv, BookOk, T.TopologyOk, ReclaimAll, AllSignalled;
      var expired := store.ExpiredLeases(now, RECLAIM_BATCH_SIZE);
      SnapshotsAreStored(store.State(), now, RECLAIM_BATCH_SIZE);
      requeued := ReclaimEach(expired, ids, from, failures, now);
    }

    method ReclaimEach(expired: seq<Message>, ids: nat -> string, from: nat, failures: map<string, int>, now: int)
      returns (requeued: seq<string>)
      requires Valid() && (forall i :: from <= i ==> ids(i) != "")
      requires forall m :: m in expired ==> m.id in store.messages && m == store.messages[m.id].msg
      modifies store
      ensures Valid() && Held() == ReclaimAll(old(Held()), expired, policy, ids, from, failures, now)
      ensures AllSignalled(old(store.messages), store.messages, requeued)
    {
      hide Inv, BookOk, T.TopologyOk, ReclaimOne, ReclaimAll, AllSignalled;
      ReclaimNone(Held(), expired, policy, ids, from, failures, now);
      ghost var was := store.messages;
      requeued := [];
      NoneSignalled(was);
      for i := 0 to |expired|
        invariant Valid() && Held() == ReclaimAll(old(Held()), expired[..i], policy, ids, from, failures, now)
        invariant AllSignalled(was, store.messages, requeued)
      {
        var m := expired[i];
        ReclaimOneMore(old(Held()), expired, i, policy, ids, from, failures, now);
        QueueAt(store.State(), "");
        SignalOne(was, Held(), requeued, m, policy, ids(from + i), failures, now);
        var moved := ReclaimMessage(m, ids(from + i), failures, now);
        if moved {
          requeued := requeued + [m.queue];
        }
      }
      assert expired[..|expired|] == expired;
    }

    /** Every message that has become claimable again belongs to a queue that will be signalled. */
    static ghost predicate AllSignalled(was: map<string, Record>, ms: map<string, Record>, queues: seq<string>) {
      forall id :: id in was ==>
        && id in ms && ms[id].msg.queue == was[id].msg.queue
        && (ms[id].msg.state == Queued && was[id].msg.state != Queued ==> was[id].msg.queue in queues)
    }

    static lemma NoneSignalled(was: map<string, Record>)
      ensures AllSignalled(was, was, [])
    {}

    static lemma SnapshotsAreStored(s: StoreState, now: int, limit: int)
      requires Inv(s)
      ensures forall m :: m in StoreSpec.ExpiredLeases(s, now, limit) ==>
                m.id in s.messages && m == s.messages[m.id].msg
    {
      var ids := TakePositive(limit, Listing(ExpiredSet(s, now)));
      var found := StoreSpec.ExpiredLeases(s, now, limit);
      forall m | m in found
        ensures m.id in s.messages && m == s.messages[m.id].msg
      {
        var i :| 0 <= i < |found| && found[i] == m;
        assert ids[i] in ids;
        assert RecordOk(ids[i], s.messages[ids[i]]);
      }
    }

    static lemma SignalOne(was: map<string, Record>, h: Holdings, queues: seq<string>, m: Message, p: Policy,
                           deadId: string, failures: map<string, int>, now: int)
      requires AllSignalled(was, h.store.messages, queues) && m.id in was && m == was[m.id].msg
      requires RecordsOk(h.store.messages)
      ensures AllSignalled(was, ReclaimOne(h, m, p, deadId, failures, now).store.messages,
                           if p.ShouldRetry(m.attempts) && Leased(h.store, m.id).Ok? then queues + [m.queue]
                                else queues)
    {}
  }
}
