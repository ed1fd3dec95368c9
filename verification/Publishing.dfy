/** Publishing as a value: what one call does to the store and the dead-letter book, over all topologies. */
module Publishing {
  import opened Ordering
  import opened Messages
  import opened StoreSpec
  import opened StoreInvariant
  import opened DeadLetterSpec
  import T = TopologySpec
  import TopologyRuns

  /** Everything the store holds. */
  datatype Holdings = Holdings(store: StoreState, book: map<string, DeadLetter>, saved: seq<string>)

  /** The schema check of a payload, supplied from outside. */
  datatype Verdict = Accepted | Refused(reason: string)
  type Schemas = (string, string) -> Verdict

  datatype Receipt = Receipt(exchange: string, routingKey: string, ids: seq<string>, queues: seq<string>)

  datatype PublishOutcome =
    | Published(receipt: Receipt)
    | Unrouted(fault: T.Fault)
    | Rejected(reason: string)
    | Unstored(error: Error)

  /** Generated identifiers never repeat. */
  ghost predicate Injective(ids: nat -> string) {
    forall i, j :: 0 <= i < j ==> ids(i) != ids(j)
  }

  // ----- Publishing -----

  /** The message for one routed queue, ready to be stored. */
  function Prepared(pub: Publication, queue: T.Queue, id: string, now: int): Message {
    NewMessage(id, pub, queue.spec.name, now).(
      state := Queued,
      maxAttempts := queue.spec.maxAttempts,
      schema := if pub.schema == "" then queue.spec.schema else pub.schema)
  }

  function Batch(pub: Publication, queues: seq<T.Queue>, ids: nat -> string, now: int): (r: seq<Message>)
    ensures |r| == |queues|
    ensures forall i :: 0 <= i < |queues| ==> r[i] == Prepared(pub, queues[i], ids(i), now)
  {
    seq(|queues|, i requires 0 <= i < |queues| => Prepared(pub, queues[i], ids(i), now))
  }

  function Judge(schemas: Schemas, m: Message): Verdict {
    if m.schema == "" then Accepted else schemas(m.schema, m.payload)
  }

  /** The position of the first message its schema refuses, or the length. */
  function FirstRefused(schemas: Schemas, batch: seq<Message>): (n: nat)
    ensures n <= |batch|
    ensures n < |batch| ==> Judge(schemas, batch[n]).Refused?
    ensures forall i :: 0 <= i < n ==> Judge(schemas, batch[i]).Accepted?
  {
    if batch == [] || Judge(schemas, batch[0]).Refused? then 0 else 1 + FirstRefused(schemas, batch[1..])
  }

  function SaveRecord(h: Holdings, entry: DeadLetter): Holdings {
    if h.store.closed || entry.id in h.book then h
    else h.(book := h.book[entry.id := entry], saved := h.saved + [entry.id])
  }

  function RejectionOf(m: Message, deadId: string, reason: string, now: int): DeadLetter {
    NewRecord(deadId, m, reason, KIND_VALIDATION, now, now)
  }

  function ReceiptFor(pub: Publication, batch: seq<Message>): Receipt {
    Receipt(pub.exchange, pub.routingKey,
            seq(|batch|, i requires 0 <= i < |batch| => batch[i].id),
            seq(|batch|, i requires 0 <= i < |batch| => batch[i].queue))
  }

  ghost function Publish(t: T.Topology, h: Holdings, schemas: Schemas, pub: Publication, ids: nat -> string,
                         deadId: string, now: int)
    : (Holdings, PublishOutcome)
  {
    match T.Route(t, pub.exchange, pub.routingKey)
    case Fault(f) => (h, Unrouted(f))
    case Fine(queues) =>
      var batch := Batch(pub, queues, ids, now);
      var bad := FirstRefused(schemas, batch);
      if bad < |batch| then
        var reason := Judge(schemas, batch[bad]).reason;
        (SaveRecord(h, RejectionOf(batch[bad], deadId, reason, now)), Rejected(reason))
      else
        match Append(h.store, batch)
        case (_, Err(e)) => (h, Unstored(e))
        case (s, Ok(_)) => (h.(store := s), Published(ReceiptFor(pub, batch)))
  }

  /** Some binding of the exchange leads the publication to the queue. */
  ghost predicate Hit(t: T.Topology, pub: Publication, name: string) {
    TopologyRuns.LeadsTo(t, pub.exchange, pub.routingKey, name)
  }

  ghost predicate Accepts(t: T.Topology, schemas: Schemas, pub: Publication, name: string)
    requires name in t.queues
  {
    var schema := if pub.schema == "" then t.queues[name].spec.schema else pub.schema;
    schema == "" || schemas(schema, pub.payload).Accepted?
  }

  /** What the queue's copy carries: everything the publication said, with the queue's schema if it named none. */
  function ContentFor(pub: Publication, queue: T.Queue, id: string, now: int): Content {
    Content(id, pub.exchange, pub.routingKey, queue.spec.name,
            if pub.schema == "" then queue.spec.schema else pub.schema, pub.payload, pub.headers, now)
  }

  /** The queue gained one message, at the end of its index: the publication, waiting to be claimed. */
  ghost predicate Delivered(s: StoreState, s': StoreState, pub: Publication, queue: T.Queue, id: string, now: int) {
    && id !in s.messages && id in s'.messages
    && Index(s', queue.spec.name) == Index(s, queue.spec.name) + [id]
    && s'.messages[id].lease == ZERO_TIME && s'.messages[id].consumer == ""
    && var m := s'.messages[id].msg;
    && ContentOf(m) == ContentFor(pub, queue, id, now)
    && m.state == Queued && m.attempts == 0 && m.maxAttempts == queue.spec.maxAttempts && m.lastError == ""
    && m.availableAt == now && m.updatedAt == now
  }

  // ----- Publishing is exact -----

  lemma NamedSomewhere(queues: seq<T.Queue>, name: string)
    ensures (exists q :: q in queues && q.spec.name == name)
            <==> (exists i :: 0 <= i < |queues| && queues[i].spec.name == name)
  {
    if q :| q in queues && q.spec.name == name {
      var i :| 0 <= i < |queues| && queues[i] == q;
    }
    if i :| 0 <= i < |queues| && queues[i].spec.name == name {
      assert queues[i] in queues;
    }
  }

  /** The routed queues are the hit ones, each once, by increasing name. */
  lemma RoutedQueues(t: T.Topology, pub: Publication)
    requires T.TopologyOk(t)
    ensures match T.Route(t, pub.exchange, pub.routingKey)
            case Fault(f) =>
              && f == (if pub.exchange in t.exchanges then T.Unroutable else T.ExchangeNotFound)
              && forall name :: !Hit(t, pub, name)
            case Fine(queues) =>
              && queues != [] && SortedBy(T.QueueName(), queues)
              && (forall name :: Hit(t, pub, name) <==> exists i :: 0 <= i < |queues| && queues[i].spec.name == name)
              && (forall i :: 0 <= i < |queues| ==>
                    queues[i].spec.name in t.queues && t.queues[queues[i].spec.name] == queues[i])
  {
    hide T.TopologyOk, T.Route, TopologyRuns.LeadsTo;
    TopologyRuns.RouteIsExact(t, pub.exchange, pub.routingKey);
    match T.Route(t, pub.exchange, pub.routingKey)
    case Fault(_) =>
    case Fine(queues) =>
      forall name
        ensures Hit(t, pub, name) <==> exists i :: 0 <= i < |queues| && queues[i].spec.name == name
      {
        NamedSomewhere(queues, name);
      }
  }

  /** Appending messages of different queues extends each of those indexes by its own message. */
  lemma {:induction false} IndexAfterAppendAll(s: StoreState, batch: seq<Message>, name: string)
    requires forall i, j :: 0 <= i < j < |batch| ==> batch[i].queue != batch[j].queue
    ensures forall i :: 0 <= i < |batch| && batch[i].queue == name ==>
              Index(AppendAll(s, batch), name) == Index(s, name) + [batch[i].id]
    ensures (forall i :: 0 <= i < |batch| ==> batch[i].queue != name) ==>
              Index(AppendAll(s, batch), name) == Index(s, name)
    decreases |batch|
  {
    if batch != [] {
      IndexAfterAppendAll(s, batch[..|batch| - 1], name);
    }
  }

  lemma {:induction false} AppendAllSize(s: StoreState, batch: seq<Message>)
    requires Appendable(batch) && Disjoint(s, batch)
    ensures |AppendAll(s, batch).messages| == |s.messages| + |batch|
    decreases |batch|
  {
    if batch != [] {
      var front, last := batch[..|batch| - 1], batch[|batch| - 1];
      AppendAllSize(s, front);
      AppendAllMessages(s, front);
      var before := AppendAll(s, front).messages;
      assert last.id !in before;
      assert before[last.id := Record(last, ZERO_TIME, "")].Keys == before.Keys + {last.id};
    }
  }

  lemma BatchAppendable(pub: Publication, queues: seq<T.Queue>, ids: nat -> string, now: int)
    requires Injective(ids) && SortedBy(T.QueueName(), queues)
    ensures var batch := Batch(pub, queues, ids, now);
            && Appendable(batch)
            && (forall i, j :: 0 <= i < j < |batch| ==> batch[i].queue != batch[j].queue)
            && (forall i, j :: 0 <= i < j < |batch| ==> Less(batch[i].queue, batch[j].queue))
  {
    var batch := Batch(pub, queues, ids, now);
    forall i, j | 0 <= i < j < |batch|
      ensures batch[i].queue != batch[j].queue && Less(batch[i].queue, batch[j].queue)
    {
      assert Less(T.QueueName()(queues[i]), T.QueueName()(queues[j]));
      LessIrreflexive(batch[i].queue);
    }
  }

  lemma DeliveredAt(s: StoreState, pub: Publication, queues: seq<T.Queue>, ids: nat -> string, now: int, i: nat)
    requires i < |queues| && Append(s, Batch(pub, queues, ids, now)).1.Ok?
    requires var batch := Batch(pub, queues, ids, now);
             Appendable(batch) && forall j, k :: 0 <= j < k < |batch| ==> batch[j].queue != batch[k].queue
    ensures Delivered(s, AppendAll(s, Batch(pub, queues, ids, now)), pub, queues[i], ids(i), now)
  {
    hide AppendAll;
    var batch := Batch(pub, queues, ids, now);
    IndexAfterAppendAll(s, batch, batch[i].queue);
    AppendAllStores(s, batch, i);
    assert batch[i].id !in s.messages;
  }

  /** A publication that was stored reached every hit queue once and no other, and touched nothing else. */
  lemma DeliveryIsExact(t: T.Topology, s: StoreState, pub: Publication, queues: seq<T.Queue>, ids: nat -> string,
                        now: int, name: string)
    requires T.TopologyOk(t) && Injective(ids) && T.Route(t, pub.exchange, pub.routingKey) == T.Fine(queues)
    requires Append(s, Batch(pub, queues, ids, now)).1.Ok?
    ensures var s' := AppendAll(s, Batch(pub, queues, ids, now));
            && (Hit(t, pub, name) ==> name in t.queues && exists i :: 0 <= i < |queues| && queues[i].spec.name == name
                                                            && Delivered(s, s', pub, t.queues[name], ids(i), now))
            && (!Hit(t, pub, name) ==> Index(s', name) == Index(s, name))
  {
    hide T.TopologyOk, T.Route, Hit, AppendAll, Delivered;
    var batch := Batch(pub, queues, ids, now);
    var s' := AppendAll(s, batch);
    RoutedQueues(t, pub);
    BatchAppendable(pub, queues, ids, now);
    if Hit(t, pub, name) {
      var i :| 0 <= i < |queues| && queues[i].spec.name == name;
      DeliveredAt(s, pub, queues, ids, now, i);
      assert Delivered(s, s', pub, t.queues[name], ids(i), now);
    } else {
      assert forall i :: 0 <= i < |batch| ==> batch[i].queue == queues[i].spec.name;
      IndexAfterAppendAll(s, batch, name);
    }
  }

  /** What a caller can check beforehand: the exchange leads somewhere, every such queue's schema accepts the
      payload, the store is open, and the identifiers drawn are unused. */
  ghost predicate Publishable(t: T.Topology, h: Holdings, schemas: Schemas, pub: Publication, ids: nat -> string)
    requires T.TopologyOk(t)
  {
    && !h.store.closed
    && (exists name :: Hit(t, pub, name))
    && (forall name :: Hit(t, pub, name) ==> name in t.queues && Accepts(t, schemas, pub, name))
    && (forall i :: 0 <= i < Fanout(t, pub) ==> ids(i) !in h.store.messages)
  }

  /** How many queues the publication is routed to. */
  ghost function Fanout(t: T.Topology, pub: Publication): nat {
    match T.Route(t, pub.exchange, pub.routingKey)
    case Fault(_) => 0
    case Fine(queues) => |queues|
  }

  lemma AcceptsIs(t: T.Topology, schemas: Schemas, pub: Publication, queue: T.Queue, id: string, now: int)
    requires queue.spec.name in t.queues && t.queues[queue.spec.name] == queue
    ensures Judge(schemas, Prepared(pub, queue, id, now)).Accepted? <==> Accepts(t, schemas, pub, queue.spec.name)
  {}

  /** Publishing succeeds exactly when it can, and otherwise stores no message at all. */
  lemma PublishSucceedsIff(t: T.Topology, h: Holdings, schemas: Schemas, pub: Publication, ids: nat -> string,
                           deadId: string, now: int)
    requires T.TopologyOk(t)
    ensures var (h', r) := Publish(t, h, schemas, pub, ids, deadId, now);
            && (r.Published? <==> Publishable(t, h, schemas, pub, ids))
            && (!r.Published? ==> h'.store == h.store)
            && (!r.Rejected? ==> h'.book == h.book && h'.saved == h.saved)
            && (r.Unrouted? <==> forall name :: !Hit(t, pub, name))
            && (r.Unrouted? ==> r.fault == if pub.exchange in t.exchanges then T.Unroutable else T.ExchangeNotFound)
            && (r.Unstored? ==> r.error == if h.store.closed then StoreClosed else Conflict)
  {
    hide T.TopologyOk, T.Route, Hit, AppendAll, Accepts, Judge, FirstRefused;
    RoutedQueues(t, pub);
    match T.Route(t, pub.exchange, pub.routingKey)
    case Fault(_) =>
    case Fine(queues) =>
      var batch := Batch(pub, queues, ids, now);
      assert Hit(t, pub, queues[0].spec.name);
      forall i | 0 <= i < |queues|
        ensures Hit(t, pub, queues[i].spec.name)
        ensures Judge(schemas, batch[i]).Accepted? <==> Accepts(t, schemas, pub, queues[i].spec.name)
        ensures batch[i].id == ids(i)
      {
        AcceptsIs(t, schemas, pub, queues[i], ids(i), now);
      }
  }

  /** The receipt names the queue, beside the identifier of the message it gained. */
  ghost predicate Reached(t: T.Topology, s: StoreState, s': StoreState, pub: Publication, receipt: Receipt,
                          name: string, now: int) {
    && name in t.queues && |receipt.ids| == |receipt.queues|
    && exists i ::
         && 0 <= i < |receipt.ids| && receipt.queues[i] == name
         && Delivered(s, s', pub, t.queues[name], receipt.ids[i], now)
  }

  lemma HitIsReached(t: T.Topology, s: StoreState, pub: Publication, queues: seq<T.Queue>, ids: nat -> string,
                     now: int, name: string)
    requires T.TopologyOk(t) && Injective(ids) && T.Route(t, pub.exchange, pub.routingKey) == T.Fine(queues)
    requires Append(s, Batch(pub, queues, ids, now)).1.Ok? && Hit(t, pub, name)
    ensures var batch := Batch(pub, queues, ids, now);
            Reached(t, s, AppendAll(s, batch), pub, ReceiptFor(pub, batch), name, now)
  {
    hide T.TopologyOk, T.Route, Hit, AppendAll, Delivered, Injective;
    var batch := Batch(pub, queues, ids, now);
    DeliveryIsExact(t, s, pub, queues, ids, now, name);
    var i :| 0 <= i < |queues| && queues[i].spec.name == name
        && Delivered(s, AppendAll(s, batch), pub, t.queues[name], ids(i), now);
    assert ReceiptFor(pub, batch).ids[i] == ids(i) && ReceiptFor(pub, batch).queues[i] == name;
  }

  /** The whole effect of a successful publication. */
  lemma PublishIsExact(t: T.Topology, h: Holdings, schemas: Schemas, pub: Publication, ids: nat -> string,
                       deadId: string, now: int)
    requires T.TopologyOk(t) && Inv(h.store) && Injective(ids) && Publishable(t, h, schemas, pub, ids)
    ensures var (h', r) := Publish(t, h, schemas, pub, ids, deadId, now);
            && Inv(h'.store) && r.Published?
            && (forall name :: Hit(t, pub, name) ==> Reached(t, h.store, h'.store, pub, r.receipt, name, now))
            && (forall name :: !Hit(t, pub, name) ==> Index(h'.store, name) == Index(h.store, name))
            && (forall id :: id in h.store.messages ==>
                  id in h'.store.messages && h'.store.messages[id] == h.store.messages[id])
            && |h'.store.messages| == |h.store.messages| + |r.receipt.ids|
            && r.receipt.exchange == pub.exchange && r.receipt.routingKey == pub.routingKey
            && (forall i, j :: 0 <= i < j < |r.receipt.queues| ==> Less(r.receipt.queues[i], r.receipt.queues[j]))
  {
    hide T.TopologyOk, T.Route, Hit, AppendAll, Inv, Delivered, Reached, Publishable, FirstRefused;
    PublishSucceedsIff(t, h, schemas, pub, ids, deadId, now);
    var queues := T.Route(t, pub.exchange, pub.routingKey).value;
    var batch := Batch(pub, queues, ids, now);
    assert Append(h.store, batch).1.Ok?;
    RoutedQueues(t, pub);
    StoredBatch(h.store, pub, queues, ids, now);
    forall name
      ensures !Hit(t, pub, name) ==> Index(AppendAll(h.store, batch), name) == Index(h.store, name)
      ensures Hit(t, pub, name) ==>
                Reached(t, h.store, AppendAll(h.store, batch), pub, ReceiptFor(pub, batch), name, now)
    {
      if Hit(t, pub, name) { HitIsReached(t, h.store, pub, queues, ids, now, name); }
      else { DeliveryIsExact(t, h.store, pub, queues, ids, now, name); }
    }
  }

  lemma StoredBatch(s: StoreState, pub: Publication, queues: seq<T.Queue>, ids: nat -> string, now: int)
    requires Inv(s) && Injective(ids) && SortedBy(T.QueueName(), queues)
             && Append(s, Batch(pub, queues, ids, now)).1.Ok?
    ensures var batch := Batch(pub, queues, ids, now);
            var s', receipt := AppendAll(s, batch), ReceiptFor(pub, batch);
            && Inv(s') && |s'.messages| == |s.messages| + |receipt.ids|
            && (forall id :: id in s.messages ==> id in s'.messages && s'.messages[id] == s.messages[id])
            && (forall i, j :: 0 <= i < j < |receipt.queues| ==> Less(receipt.queues[i], receipt.queues[j]))
  {
    hide AppendAll, Inv;
    var batch := Batch(pub, queues, ids, now);
    BatchAppendable(pub, queues, ids, now);
    AppendKeeps(s, batch);
    AppendAllSize(s, batch);
    AppendAllMessages(s, batch);
  }

  ghost predicate Refuses(t: T.Topology, schemas: Schemas, pub: Publication, name: string) {
    Hit(t, pub, name) && name in t.queues && !Accepts(t, schemas, pub, name)
  }

  lemma RefusalAt(t: T.Topology, schemas: Schemas, pub: Publication, queues: seq<T.Queue>, ids: nat -> string,
                  now: int, i: nat)
    requires T.TopologyOk(t) && T.Route(t, pub.exchange, pub.routingKey) == T.Fine(queues) && i < |queues|
    ensures Judge(schemas, Batch(pub, queues, ids, now)[i]).Refused? <==> Refuses(t, schemas, pub, queues[i].spec.name)
  {
    hide T.TopologyOk, T.Route, Hit;
    RoutedQueues(t, pub);
  }

  /** The first refused message belongs to the refusing queue with the smallest name. */
  lemma FirstRefusal(t: T.Topology, schemas: Schemas, pub: Publication, queues: seq<T.Queue>, ids: nat -> string,
                     now: int, name: string)
    requires T.TopologyOk(t) && Injective(ids) && T.Route(t, pub.exchange, pub.routingKey) == T.Fine(queues)
    requires Refuses(t, schemas, pub, name)
    ensures var bad := FirstRefused(schemas, Batch(pub, queues, ids, now));
            bad < |queues| && !Less(name, queues[bad].spec.name)
  {
    hide T.TopologyOk, T.Route, Hit, Refuses;
    var batch := Batch(pub, queues, ids, now);
    var bad := FirstRefused(schemas, batch);
    assert Hit(t, pub, name) by { RefusesHit(t, schemas, pub, name); }
    RoutedQueues(t, pub);
    BatchAppendable(pub, queues, ids, now);
    var i :| 0 <= i < |queues| && queues[i].spec.name == name;
    RefusalAt(t, schemas, pub, queues, ids, now, i);
    assert bad <= i;
    if bad < i {
      assert Less(batch[bad].queue, batch[i].queue);
      LessAsymmetric(batch[bad].queue, batch[i].queue);
    } else {
      LessIrreflexive(name);
    }
  }

  lemma RefusesHit(t: T.Topology, schemas: Schemas, pub: Publication, name: string)
    requires Refuses(t, schemas, pub, name)
    ensures Hit(t, pub, name)
  {}

  /** The record was added, as the newest; on a closed store or under a taken identifier nothing was. */
  ghost predicate Parked(h: Holdings, h': Holdings, record: DeadLetter) {
    if h.store.closed || record.id in h.book then h' == h
    else h' == h.(book := h.book[record.id := record], saved := h.saved + [record.id])
  }

  /** A payload some hit queue refuses is parked once: a record of it for the first refusing queue by name. */
  lemma RejectionIsParked(t: T.Topology, h: Holdings, schemas: Schemas, pub: Publication, ids: nat -> string,
                          deadId: string, now: int)
    requires T.TopologyOk(t) && Injective(ids) && BookOk(h.book, h.saved)
    ensures var (h', r) := Publish(t, h, schemas, pub, ids, deadId, now);
            && BookOk(h'.book, h'.saved)
            && (r.Rejected? <==> exists name :: Refuses(t, schemas, pub, name))
            && (r.Rejected? ==>
                  exists i, name ::
                    && Refuses(t, schemas, pub, name)
                    && (forall other :: Refuses(t, schemas, pub, other) ==> !Less(other, name))
                    && var content := ContentFor(pub, t.queues[name], ids(i), now);
                    && schemas(content.schema, pub.payload) == Refused(r.reason)
                    && Parked(h, h', DeadLetter(deadId, content, r.reason, KIND_VALIDATION, 0, now, now,
                                                "", ZERO_TIME, 0)))
  {
    hide T.TopologyOk, T.Route, Hit, AppendAll, BookOk, Injective;
    RoutedQueues(t, pub);
    match T.Route(t, pub.exchange, pub.routingKey)
    case Fault(_) =>
    case Fine(queues) =>
      var batch := Batch(pub, queues, ids, now);
      var bad := FirstRefused(schemas, batch);
      forall name | Refuses(t, schemas, pub, name)
        ensures bad < |queues| && !Less(name, queues[bad].spec.name)
      {
        FirstRefusal(t, schemas, pub, queues, ids, now, name);
      }
      if bad < |batch| {
        RefusalAt(t, schemas, pub, queues, ids, now, bad);
        var record := RejectionOf(batch[bad], deadId, Judge(schemas, batch[bad]).reason, now);
        if deadId !in h.book { SaveKeeps(h.book, h.saved, record); }
        assert batch[bad] == Prepared(pub, t.queues[queues[bad].spec.name], ids(bad), now);
      }
  }

  lemma LessAsymmetric(a: string, b: string)
    requires Less(a, b)
    ensures !Less(b, a) && a != b
  {
    LessIrreflexive(a);
    if Less(b, a) { LessTransitive(a, b, a); }
  }
}
