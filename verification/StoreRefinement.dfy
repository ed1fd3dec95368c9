/** The compacting index refines the append log it replaced: a store that never trims its index
    answers every sequence of operations alike. */
module StoreRefinement {
  import opened Sequences
  import opened Ordering
  import opened Messages
  import opened StoreSpec
  import opened StoreInvariant

  datatype Op =
    | Append(batch: seq<Message>)
    | Claim(request: ClaimRequest)
    | Acknowledge(id: string, at: int)
    | ScheduleRetry(retry: RetryRequest)
    | Release(id: string, at: int)
    | MarkDeadLettered(id: string, reason: string, at: int)
    | Read(id: string)
    | ExpiredLeases(now: int, limit: int)
    | Depth(queue: string)
    | Purge(queue: string)
    | SaveQueue(queue: string)
    | DeleteQueue(queue: string)
    | Close

  datatype Output =
    | Delivered(messages: Outcome<seq<Message>>)
    | Measured(depth: Outcome<StoreSpec.Depth>)
    | Counted(count: Outcome<int>)
    | Found(message: Outcome<Message>)
    | Done(result: Outcome<()>)

  /** One operation; the unpruned store claims straight from its log. */
  ghost function Step(s: StoreState, op: Op, pruned: bool): (StoreState, Output) {
    match op
    case Append(batch) => var r := StoreSpec.Append(s, batch); (r.0, Done(r.1))
    case Claim(req) =>
      var r := if pruned || s.closed then StoreSpec.Claim(s, req) else ClaimListed(s, req);
      (r.0, Delivered(r.1))
    case Acknowledge(id, at) => var r := StoreSpec.Acknowledge(s, id, at); (r.0, Done(r.1))
    case ScheduleRetry(req) => var r := StoreSpec.ScheduleRetry(s, req); (r.0, Done(r.1))
    case Release(id, at) => var r := StoreSpec.Release(s, id, at); (r.0, Done(r.1))
    case MarkDeadLettered(id, reason, at) => var r := StoreSpec.MarkDeadLettered(s, id, reason, at); (r.0, Done(r.1))
    case Read(id) => (s, Found(if id in s.messages then Ok(s.messages[id].msg) else Err(NotFound)))
    case ExpiredLeases(now, limit) => (s, Delivered(Ok(StoreSpec.ExpiredLeases(s, now, limit))))
    case Depth(queue) => (s, Measured(DepthOf(s, queue)))
    case Purge(queue) => var r := StoreSpec.Purge(s, queue); (r.0, Counted(r.1))
    case SaveQueue(queue) => var r := StoreSpec.SaveQueue(s, queue); (r.0, Done(r.1))
    case DeleteQueue(queue) => var r := StoreSpec.DeleteQueue(s, queue); (r.0, Done(r.1))
    case Close => (s.(closed := true), Done(Ok(())))
  }

  ghost function Outputs(s: StoreState, ops: seq<Op>, pruned: bool): (r: seq<Output>)
    ensures |r| == |ops|
    decreases |ops|
  {
    if ops == [] then []
    else
      var (t, out) := Step(s, ops[0], pruned);
      [out] + Outputs(t, ops[1..], pruned)
  }

  ghost function Final(s: StoreState, ops: seq<Op>, pruned: bool): StoreState
    decreases |ops|
  {
    if ops == [] then s else Final(Step(s, ops[0], pruned).0, ops[1..], pruned)
  }

  ghost function IdsOf(op: Op): set<string> {
    if op.Append? then BatchIds(op.batch) else {}
  }

  /** What the engine guarantees of a call: fresh identifiers, queued messages, a real lease. */
  ghost predicate Proper(op: Op, used: set<string>) {
    && (op.Append? ==> Appendable(op.batch) && IdsOf(op) !! used)
    && (op.Claim? ==> op.request.now + op.request.lease != ZERO_TIME)
  }

  ghost predicate ProperRun(ops: seq<Op>, used: set<string>)
    decreases |ops|
  {
    ops == [] || (Proper(ops[0], used) && ProperRun(ops[1..], used + IdsOf(ops[0])))
  }

  // ----- The simulation -----

  ghost predicate SameMessages(ms: map<string, Record>, log: map<string, Record>) {
    && (forall id :: id in log ==> id in ms && ms[id] == log[id])
    && (forall id :: id in ms && id !in log ==> Terminal(ms[id].msg.state))
  }

  /** The same live identifiers in the same order, listed in `ids` only if they are in `log`. */
  ghost predicate SameListing(ms: map<string, Record>, ids: seq<string>, ms': map<string, Record>, log: seq<string>) {
    && Live(ms, ids) == Live(ms', log)
    && (forall id :: id in ids ==> id in log)
  }

  ghost predicate SameQueue(s: StoreState, l: StoreState, queue: string) {
    SameListing(s.messages, Index(s, queue), l.messages, Index(l, queue))
  }

  /** `s` prunes, `l` does not: they agree on everything but settled messages that `s` forgot to delete. */
  ghost predicate Sim(s: StoreState, l: StoreState) {
    && Inv(s) && Inv(l)
    && s.closed == l.closed && s.queues == l.queues
    && SameMessages(s.messages, l.messages)
    && (forall queue :: SameQueue(s, l, queue))
  }

  /** Anything read off live messages through the index reads the same off the log. */
  lemma SameReading(s: StoreState, l: StoreState, queue: string, p: string -> bool, q: string -> bool)
    requires SameQueue(s, l, queue)
    requires forall id :: p(id) ==> LiveIn(s.messages)(id)
    requires forall id :: q(id) ==> LiveIn(l.messages)(id)
    requires forall id :: id in Live(s.messages, Index(s, queue)) ==> p(id) == q(id)
    ensures Filter(p, Index(s, queue)) == Filter(q, Index(l, queue))
  {
    FilterFilter(p, LiveIn(s.messages), Index(s, queue));
    FilterFilter(q, LiveIn(l.messages), Index(l, queue));
    FilterCong(p, q, Live(s.messages, Index(s, queue)));
  }

  lemma SameRecords(s: StoreState, l: StoreState, queue: string)
    requires Sim(s, l)
    ensures forall id :: id in Live(s.messages, Index(s, queue)) ==>
              id in s.messages && id in l.messages && s.messages[id] == l.messages[id]
  {
    assert SameQueue(s, l, queue);
  }

  lemma PutSim(s: StoreState, l: StoreState, r: Record)
    requires Sim(s, l) && Replaces(l, r) && !Terminal(r.msg.state)
    ensures Sim(Put(s, r), Put(l, r))
  {
    PutKeeps(s, r);
    PutKeeps(l, r);
    forall queue
      ensures SameQueue(Put(s, r), Put(l, r), queue)
    {
      assert SameQueue(s, l, queue);
      LiveAfterPut(s.messages, r, Index(s, queue));
      LiveAfterPut(l.messages, r, Index(l, queue));
    }
  }

  lemma SettleSim(s: StoreState, l: StoreState, r: Record)
    requires Sim(s, l) && Replaces(l, r) && Terminal(r.msg.state)
    ensures Sim(Settle(s, r), Settle(l, r))
  {
    SettleKeeps(s, r);
    SettleKeeps(l, r);
    forall queue
      ensures SameQueue(Settle(s, r), Settle(l, r), queue)
    {
      assert SameQueue(s, l, queue);
      LiveAfterSettle(s.messages, r, Index(s, queue));
      LiveAfterSettle(l.messages, r, Index(l, queue));
    }
  }

  lemma AppendedListingSim(ms: map<string, Record>, ids: seq<string>, ms': map<string, Record>, log: seq<string>,
                           m: Message)
    requires SameListing(ms, ids, ms', log) && m.id !in ms && m.id !in ms' && m.state == Queued
    requires forall id :: id in ids ==> id in ms
    requires forall id :: id in log ==> id in ms'
    ensures var r := Record(m, ZERO_TIME, "");
            && SameListing(ms[m.id := r], ids, ms'[m.id := r], log)
            && SameListing(ms[m.id := r], ids + [m.id], ms'[m.id := r], log + [m.id])
  {
    LiveAfterAppend(ms, m, ids);
    LiveAfterAppend(ms', m, log);
  }

  lemma AppendedQueueSim(s: StoreState, l: StoreState, m: Message, queue: string)
    requires SameQueue(s, l, queue) && QueueOk(s, queue) && QueueOk(l, queue)
    requires m.id !in s.messages && m.id !in l.messages && m.state == Queued
    ensures SameQueue(AppendOne(s, m), AppendOne(l, m), queue)
  {
    AppendedListingSim(s.messages, Index(s, queue), l.messages, Index(l, queue), m);
  }

  lemma AppendOneSim(s: StoreState, l: StoreState, m: Message)
    requires Sim(s, l) && m.id !in s.messages && m.state == Queued && 0 <= m.attempts
    ensures Sim(AppendOne(s, m), AppendOne(l, m))
  {
    AppendOneKeeps(s, m);
    AppendOneKeeps(l, m);
    forall queue
      ensures SameQueue(AppendOne(s, m), AppendOne(l, m), queue)
    {
      assert SameQueue(s, l, queue) && QueueOk(s, queue) && QueueOk(l, queue);
      AppendedQueueSim(s, l, m, queue);
    }
  }

  lemma {:induction false} AppendAllSim(s: StoreState, l: StoreState, batch: seq<Message>)
    requires Sim(s, l) && Appendable(batch) && Disjoint(s, batch)
    ensures Sim(AppendAll(s, batch), AppendAll(l, batch))
    decreases |batch|
  {
    if batch != [] {
      var front := batch[..|batch| - 1];
      AppendAllSim(s, l, front);
      AppendAllMessages(s, front);
      AppendOneSim(AppendAll(s, front), AppendAll(l, front), batch[|batch| - 1]);
    }
  }

  lemma CompactSim(s: StoreState, l: StoreState, queue: string)
    requires Sim(s, l)
    ensures Sim(Compact(s, queue), l)
  {
    var t := Compact(s, queue);
    CompactKeeps(s, queue);
    forall q
      ensures SameQueue(t, l, q)
    {
      assert SameQueue(s, l, q);
      forall id | id in Index(t, q)
        ensures id in Index(s, q)
      {}
    }
  }

  lemma ClaimIdsSim(s: StoreState, l: StoreState, req: ClaimRequest)
    requires Sim(s, l)
    ensures ClaimIds(s, req) == ClaimIds(l, req)
  {
    SameRecords(s, l, req.queue);
    SameReading(s, l, req.queue, ClaimableIn(s.messages, req.now), ClaimableIn(l.messages, req.now));
  }

  lemma ClaimAllSim(ms: map<string, Record>, log: map<string, Record>, ids: seq<string>, req: ClaimRequest)
    requires SameMessages(ms, log) && forall id :: id in ids ==> id in log
    ensures SameMessages(ClaimAll(ms, ids, req), ClaimAll(log, ids, req))
    ensures MessagesOf(ClaimAll(ms, ids, req), ids) == MessagesOf(ClaimAll(log, ids, req), ids)
  {}

  lemma ClaimListedSim(s: StoreState, l: StoreState, req: ClaimRequest)
    requires Sim(s, l) && req.now + req.lease != ZERO_TIME
    ensures Sim(ClaimListed(s, req).0, ClaimListed(l, req).0)
    ensures ClaimListed(s, req).1 == ClaimListed(l, req).1
  {
    ClaimIdsSim(s, l, req);
    ClaimAllSim(s.messages, l.messages, ClaimIds(l, req), req);
    ClaimListedKeeps(s, req);
    ClaimListedKeeps(l, req);
    forall queue
      ensures SameQueue(ClaimListed(s, req).0, ClaimListed(l, req).0, queue)
    {
      ClaimedQueueSim(s, l, req, queue);
    }
  }

  lemma ClaimedQueueSim(s: StoreState, l: StoreState, req: ClaimRequest, queue: string)
    requires Sim(s, l) && req.now + req.lease != ZERO_TIME
    ensures SameQueue(ClaimListed(s, req).0, ClaimListed(l, req).0, queue)
  {
    assert SameQueue(s, l, queue);
    ClaimListedKeeps(s, req);
    ClaimListedKeeps(l, req);
  }

  lemma CountSim(s: StoreState, l: StoreState, queue: string, states: set<State>)
    requires Sim(s, l) && Acknowledged !in states && DeadLettered !in states
    ensures CountIn(s, queue, states) == CountIn(l, queue, states)
  {
    SameRecords(s, l, queue);
    SameReading(s, l, queue, StateIn(s.messages, states), StateIn(l.messages, states));
  }

  lemma DepthSim(s: StoreState, l: StoreState, queue: string)
    requires Sim(s, l)
    ensures DepthOf(s, queue) == DepthOf(l, queue)
  {
    CountSim(s, l, queue, {Queued});
    CountSim(s, l, queue, {Processing});
    CountSim(s, l, queue, {Retrying, Failed});
  }

  lemma SameMessagesOf(ms: map<string, Record>, ns: map<string, Record>, ids: seq<string>)
    requires forall id :: id in ids ==> id in ms && id in ns && ms[id].msg == ns[id].msg
    ensures MessagesOf(ms, ids) == MessagesOf(ns, ids)
  {
    forall i | 0 <= i < |ids|
      ensures MessagesOf(ms, ids)[i] == MessagesOf(ns, ids)[i]
    {
      assert ids[i] in ids;
    }
  }

  lemma ExpiredSim(s: StoreState, l: StoreState, now: int, limit: int)
    requires SameMessages(s.messages, l.messages)
    ensures StoreSpec.ExpiredLeases(s, now, limit) == StoreSpec.ExpiredLeases(l, now, limit)
  {
    hide Listing;
    assert ExpiredSet(s, now) == ExpiredSet(l, now);
    var ids := TakePositive(limit, Listing(ExpiredSet(l, now)));
    assert forall id :: id in ids ==> id in ExpiredSet(s, now) && id in ExpiredSet(l, now);
    SameMessagesOf(s.messages, l.messages, ids);
  }

  lemma PurgeSim(s: StoreState, l: StoreState, queue: string)
    requires Sim(s, l)
    ensures Sim(StoreSpec.Purge(s, queue).0, StoreSpec.Purge(l, queue).0)
    ensures StoreSpec.Purge(s, queue).1 == StoreSpec.Purge(l, queue).1
  {
    var s', l' := StoreSpec.Purge(s, queue).0, StoreSpec.Purge(l, queue).0;
    assert SameQueue(s, l, queue);
    if queue in s.queues {
      PurgeKeeps(s, queue);
      PurgeKeeps(l, queue);
      forall q
        ensures SameQueue(s', l', q)
      {
        assert SameQueue(s, l, q) && QueueOk(s, q) && QueueOk(l, q) && QueueOk(s, queue) && QueueOk(l, queue);
        PurgedQueueSim(s, l, queue, q);
      }
    }
  }

  lemma PurgedQueueSim(s: StoreState, l: StoreState, queue: string, q: string)
    requires SameMessages(s.messages, l.messages) && SameQueue(s, l, q)
    requires QueueOk(s, q) && QueueOk(l, q) && QueueOk(s, queue) && QueueOk(l, queue)
    requires queue in s.queues && queue in l.queues
    ensures SameQueue(StoreSpec.Purge(s, queue).0, StoreSpec.Purge(l, queue).0, q)
  {
    var s', l' := StoreSpec.Purge(s, queue).0, StoreSpec.Purge(l, queue).0;
    if q == queue {
      IndexAfterPurge(s, queue);
      IndexAfterPurge(l, queue);
    } else {
      IndexUnaffected(s.messages, s'.messages, q, Index(s, q), SettledCount(s, q));
      IndexUnaffected(l.messages, l'.messages, q, Index(l, q), SettledCount(l, q));
    }
  }

  lemma DeletedMessagesSim(s: StoreState, l: StoreState, queue: string)
    requires Sim(s, l) && queue in s.queues
    ensures SameMessages(StoreSpec.DeleteQueue(s, queue).0.messages, StoreSpec.DeleteQueue(l, queue).0.messages)
  {
    var ms, log := StoreSpec.DeleteQueue(s, queue).0.messages, StoreSpec.DeleteQueue(l, queue).0.messages;
    forall id | id in log
      ensures id in ms && ms[id] == log[id]
    {
      assert SameQueue(s, l, queue);
    }
    forall id | id in ms && id !in log
      ensures Terminal(ms[id].msg.state)
    {
      if id in l.messages {
        assert QueueOk(l, queue) && Listed(s, id);
      }
    }
  }

  lemma DeletedQueueSim(s: StoreState, l: StoreState, queue: string, q: string)
    requires SameQueue(s, l, q) && QueueOk(s, q) && QueueOk(l, q) && QueueOk(s, queue) && QueueOk(l, queue)
    requires queue in s.queues && queue in l.queues
    ensures SameQueue(StoreSpec.DeleteQueue(s, queue).0, StoreSpec.DeleteQueue(l, queue).0, q)
  {
    hide Filter, IndexOk;
    UndeletedQueue(s, queue, q);
    UndeletedQueue(l, queue, q);
  }

  /** Deleting a queue empties its index and leaves the others as they were. */
  lemma UndeletedQueue(s: StoreState, queue: string, q: string)
    requires QueueOk(s, q) && QueueOk(s, queue) && queue in s.queues
    ensures var t := StoreSpec.DeleteQueue(s, queue).0;
            && Index(t, q) == (if q == queue then [] else Index(s, q))
            && Live(t.messages, Index(t, q)) == (if q == queue then [] else Live(s.messages, Index(s, q)))
  {
    hide Filter;
    var t := StoreSpec.DeleteQueue(s, queue).0;
    if q == queue {
      FilterNone(LiveIn(t.messages), []);
    } else {
      IndexUnaffected(s.messages, t.messages, q, Index(s, q), SettledCount(s, q));
    }
  }

  lemma DeleteQueueSim(s: StoreState, l: StoreState, queue: string)
    requires Sim(s, l)
    ensures Sim(StoreSpec.DeleteQueue(s, queue).0, StoreSpec.DeleteQueue(l, queue).0)
  {
    if queue in s.queues {
      DeleteQueueKeeps(s, queue);
      DeleteQueueKeeps(l, queue);
      DeletedMessagesSim(s, l, queue);
      forall q
        ensures SameQueue(StoreSpec.DeleteQueue(s, queue).0, StoreSpec.DeleteQueue(l, queue).0, q)
      {
        assert SameQueue(s, l, q) && QueueOk(s, q) && QueueOk(l, q) && QueueOk(s, queue) && QueueOk(l, queue);
        DeletedQueueSim(s, l, queue, q);
      }
    }
  }

  // ----- One operation, then every run -----

  /** A message that outlived its queue in the pruned store only. */
  ghost predicate Leftover(s: StoreState, l: StoreState, id: string) {
    id in s.messages && id !in l.messages
  }

  ghost predicate NamesLeftover(s: StoreState, l: StoreState, op: Op) {
    match op
    case Acknowledge(id, _) => Leftover(s, l, id)
    case ScheduleRetry(req) => Leftover(s, l, req.id)
    case Release(id, _) => Leftover(s, l, id)
    case MarkDeadLettered(id, _, _) => Leftover(s, l, id)
    case Read(id) => Leftover(s, l, id)
    case _ => false
  }

  /** What becomes visible of a leftover: the log does not know it; the pruned store still shows it when it
      is read, settled, and otherwise refuses too, with another error. */
  ghost predicate Trace(out: Output, ref: Output) {
    || (out.Found? && ref == Found(Err(NotFound)) && out.message.Ok? && Terminal(out.message.value.state))
    || (out.Done? && ref == Done(Err(NotFound)) && out.result.Err? && out != ref)
  }

  ghost predicate StepOk(s: StoreState, l: StoreState, op: Op) {
    var (s', out), (l', ref) := Step(s, op, true), Step(l, op, false);
    && Sim(s', l')
    && if NamesLeftover(s, l, op) then Trace(out, ref) else out == ref
  }

  lemma AppendStep(s: StoreState, l: StoreState, batch: seq<Message>)
    requires Sim(s, l) && Proper(Append(batch), s.messages.Keys)
    ensures StepOk(s, l, Append(batch))
  {
    forall i | 0 <= i < |batch|
      ensures batch[i].id !in s.messages
    {
      assert batch[i].id in IdsOf(Append(batch));
    }
    AppendAllSim(s, l, batch);
  }

  lemma ClaimStep(s: StoreState, l: StoreState, req: ClaimRequest)
    requires Sim(s, l) && req.now + req.lease != ZERO_TIME
    ensures StepOk(s, l, Claim(req))
  {
    CompactSim(s, l, req.queue);
    assert Compact(s, req.queue).closed == s.closed by { CompactKeeps(s, req.queue); }
    ClaimListedSim(Compact(s, req.queue), l, req);
  }

  /** What a leased operation sees of one identifier in both stores. */
  ghost predicate AlikeAt(s: StoreState, l: StoreState, id: string) {
    && (id in l.messages ==> id in s.messages && s.messages[id] == l.messages[id] && RecordOk(id, l.messages[id]))
    && (id in s.messages && id !in l.messages ==> Terminal(s.messages[id].msg.state))
  }

  lemma AlikeIn(s: StoreState, l: StoreState, id: string)
    requires Sim(s, l)
    ensures AlikeAt(s, l, id)
  {}

  lemma AcknowledgeStep(s: StoreState, l: StoreState, id: string, at: int)
    requires Sim(s, l)
    ensures StepOk(s, l, Acknowledge(id, at))
  {
    hide Sim;
    AlikeIn(s, l, id);
    if Leased(l, id).Ok? { SettleSim(s, l, Acked(l.messages[id], at)); }
  }

  lemma MarkStep(s: StoreState, l: StoreState, id: string, reason: string, at: int)
    requires Sim(s, l)
    ensures StepOk(s, l, MarkDeadLettered(id, reason, at))
  {
    hide Sim;
    AlikeIn(s, l, id);
    if Leased(l, id).Ok? { SettleSim(s, l, Buried(l.messages[id], reason, at)); }
  }

  lemma ReleaseStep(s: StoreState, l: StoreState, id: string, at: int)
    requires Sim(s, l)
    ensures StepOk(s, l, Release(id, at))
  {
    hide Sim;
    AlikeIn(s, l, id);
    if Leased(l, id).Ok? { PutSim(s, l, Released(l.messages[id], at)); }
  }

  lemma RetryStep(s: StoreState, l: StoreState, req: RetryRequest)
    requires Sim(s, l)
    ensures StepOk(s, l, ScheduleRetry(req))
  {
    hide Sim;
    AlikeIn(s, l, req.id);
    if Leased(l, req.id).Ok? { PutSim(s, l, Retried(l.messages[req.id], req)); }
  }

  lemma DepthStep(s: StoreState, l: StoreState, queue: string)
    requires Sim(s, l)
    ensures StepOk(s, l, Op.Depth(queue))
  {
    hide Sim, DepthOf;
    DepthSim(s, l, queue);
  }

  lemma ExpiredStep(s: StoreState, l: StoreState, now: int, limit: int)
    requires Sim(s, l)
    ensures StepOk(s, l, ExpiredLeases(now, limit))
  {
    hide Inv, SameQueue, StoreSpec.ExpiredLeases;
    ExpiredSim(s, l, now, limit);
  }

  lemma ReadStep(s: StoreState, l: StoreState, id: string)
    requires Sim(s, l)
    ensures StepOk(s, l, Read(id))
  {
    hide Inv, SameQueue;
  }

  lemma TopologyStep(s: StoreState, l: StoreState, queue: string)
    requires Sim(s, l)
    ensures StepOk(s, l, SaveQueue(queue)) && StepOk(s, l, Close)
  {
    TopologySim(s, l, s.closed, s.queues + {queue});
    TopologySim(s, l, true, s.queues);
  }

  lemma RemovingStep(s: StoreState, l: StoreState, queue: string)
    requires Sim(s, l)
    ensures StepOk(s, l, DeleteQueue(queue)) && StepOk(s, l, Purge(queue))
  {
    DeleteQueueSim(s, l, queue);
    PurgeSim(s, l, queue);
  }

  /** One operation on both stores: they stay alike, and their outputs are equal unless the operation names
      a leftover, which shows. */
  lemma StepSim(s: StoreState, l: StoreState, op: Op)
    requires Sim(s, l) && Proper(op, s.messages.Keys)
    ensures StepOk(s, l, op)
  {
    match op
    case Append(batch) => AppendStep(s, l, batch);
    case Claim(req) => ClaimStep(s, l, req);
    case Acknowledge(id, at) => AcknowledgeStep(s, l, id, at);
    case ScheduleRetry(req) => RetryStep(s, l, req);
    case Release(id, at) => ReleaseStep(s, l, id, at);
    case MarkDeadLettered(id, reason, at) => MarkStep(s, l, id, reason, at);
    case ExpiredLeases(now, limit) => ExpiredStep(s, l, now, limit);
    case Read(id) => ReadStep(s, l, id);
    case Depth(queue) => DepthStep(s, l, queue);
    case Purge(queue) => RemovingStep(s, l, queue);
    case SaveQueue(queue) => TopologyStep(s, l, queue);
    case DeleteQueue(queue) => RemovingStep(s, l, queue);
    case Close => TopologyStep(s, l, "");
  }

  lemma TopologySim(s: StoreState, l: StoreState, closed: bool, queues: set<string>)
    requires Sim(s, l)
    ensures Sim(s.(closed := closed, queues := queues), l.(closed := closed, queues := queues))
  {
    var s', l' := s.(closed := closed, queues := queues), l.(closed := closed, queues := queues);
    forall q
      ensures QueueOk(s', q) && QueueOk(l', q) && SameQueue(s', l', q)
    {
      assert QueueOk(s, q) && QueueOk(l, q) && SameQueue(s, l, q);
    }
    forall id
      ensures Listed(s', id) && Listed(l', id)
    {
      assert Listed(s, id) && Listed(l, id);
    }
  }

  lemma StepKeepsUsed(s: StoreState, op: Op, used: set<string>)
    requires RecordsOk(s.messages) && s.messages.Keys <= used && Proper(op, used)
    ensures Step(s, op, true).0.messages.Keys <= used + IdsOf(op)
  {
    if op.Append? {
      AppendAllMessages(s, op.batch);
      forall id | id in AppendAll(s, op.batch).messages && id !in s.messages
        ensures id in IdsOf(op)
      {
        var i :| 0 <= i < |op.batch| && op.batch[i].id == id;
      }
    }
  }

  /** Operation `i` of the run names a leftover. */
  ghost predicate ShowsAt(s: StoreState, l: StoreState, ops: seq<Op>, i: nat)
    requires i < |ops|
  {
    NamesLeftover(Final(s, ops[..i], true), Final(l, ops[..i], false), ops[i])
  }

  /** Position `i`: equal outputs, or the trace of a leftover. */
  ghost predicate OutputOk(s: StoreState, l: StoreState, ops: seq<Op>, i: nat)
    requires i < |ops|
  {
    var out, ref := Outputs(s, ops, true)[i], Outputs(l, ops, false)[i];
    if ShowsAt(s, l, ops, i) then Trace(out, ref) else out == ref
  }

  lemma OutputLater(s: StoreState, l: StoreState, ops: seq<Op>, i: nat)
    requires 0 < i < |ops|
    requires OutputOk(Step(s, ops[0], true).0, Step(l, ops[0], false).0, ops[1..], i - 1)
    ensures OutputOk(s, l, ops, i)
  {
    hide Step, NamesLeftover, Trace;
    assert ops[..i][1..] == ops[1..][..i - 1] && ops[..i][0] == ops[0];
  }

  /** For every sequence of operations, what the pruning store delivers, measures and counts is what the
      unpruned log delivers, measures and counts; only an operation that names a leftover tells them apart. */
  lemma {:induction false} PruningIsInvisible(s: StoreState, l: StoreState, ops: seq<Op>, used: set<string>)
    requires Sim(s, l) && s.messages.Keys <= used && ProperRun(ops, used)
    ensures Sim(Final(s, ops, true), Final(l, ops, false))
    ensures Final(s, ops, true).messages.Keys <= used + AllIds(ops)
    ensures forall i :: 0 <= i < |ops| ==> OutputOk(s, l, ops, i)
    decreases |ops|
  {
    hide Sim, Step, NamesLeftover, Trace, Proper;
    if ops != [] {
      var s', l' := Step(s, ops[0], true).0, Step(l, ops[0], false).0;
      FirstStep(s, l, ops[0], used);
      PruningIsInvisible(s', l', ops[1..], used + IdsOf(ops[0]));
      forall i | 0 <= i < |ops|
        ensures OutputOk(s, l, ops, i)
      {
        if i == 0 { assert ops[..0] == []; } else { OutputLater(s, l, ops, i); }
      }
    }
  }

  lemma FirstStep(s: StoreState, l: StoreState, op: Op, used: set<string>)
    requires Sim(s, l) && s.messages.Keys <= used && Proper(op, used)
    ensures var (s', out), (l', ref) := Step(s, op, true), Step(l, op, false);
            && Sim(s', l') && s'.messages.Keys <= used + IdsOf(op)
            && if NamesLeftover(s, l, op) then Trace(out, ref) else out == ref
  {
    hide Step, NamesLeftover, Trace;
    assert Proper(op, s.messages.Keys);
    StepSim(s, l, op);
    assert RecordsOk(s.messages) by { QueueAt(s, ""); }
    StepKeepsUsed(s, op, used);
  }

  ghost function AllIds(ops: seq<Op>): set<string>
    decreases |ops|
  {
    if ops == [] then {} else IdsOf(ops[0]) + AllIds(ops[1..])
  }

  /** From the empty store: every run keeps the invariant and refines the log. */
  lemma EveryRunRefinesTheLog(ops: seq<Op>)
    requires ProperRun(ops, {})
    ensures Inv(Final(EmptyStore(), ops, true))
    ensures forall i :: 0 <= i < |ops| ==> OutputOk(EmptyStore(), EmptyStore(), ops, i)
  {
    hide Final, Outputs, ProperRun, OutputOk;
    PruningIsInvisible(EmptyStore(), EmptyStore(), ops, {});
  }

  // ----- The one visible trace of compaction -----

  const SAMPLE: Message := Message("m", "", "", "q", "", "", map[], Queued, 0, 3, "", 1, 1, 1)
  const REQUEST: ClaimRequest := ClaimRequest("q", "c", 1, 5, 1)

  function Snapshot(m: Record, index: seq<string>, settled: map<string, int>): StoreState {
    StoreState(false, {"q"}, map["m" := m], map["q" := index], settled)
  }

  lemma {:induction false} FinalAppend(s: StoreState, front: seq<Op>, back: seq<Op>, pruned: bool)
    ensures Final(s, front + back, pruned) == Final(Final(s, front, pruned), back, pruned)
    decreases |front|
  {
    if front == [] {
      assert front + back == back;
    } else {
      assert (front + back)[1..] == front[1..] + back;
      FinalAppend(Step(s, front[0], pruned).0, front[1..], back, pruned);
    }
  }

  lemma TwoSteps(s: StoreState, a: Op, b: Op, pruned: bool)
    ensures Final(s, [a, b], pruned) == Step(Step(s, a, pruned).0, b, pruned).0
  {
    var t := Step(s, a, pruned).0;
    assert [a, b][1..] == [b];
    assert Final(t, [b], pruned) == Final(Step(t, b, pruned).0, [], pruned);
  }

  lemma SampleSetup(pruned: bool)
    ensures Final(EmptyStore(), [SaveQueue("q"), Append([SAMPLE])], pruned)
            == Snapshot(Record(SAMPLE, ZERO_TIME, ""), ["m"], map[])
  {
    var s := Step(EmptyStore(), SaveQueue("q"), pruned).0;
    assert AppendAll(s, [SAMPLE]) == AppendOne(s, SAMPLE) by { assert [SAMPLE][..0] == []; }
    assert [] + ["m"] == ["m"];
    TwoSteps(EmptyStore(), SaveQueue("q"), Append([SAMPLE]), pruned);
  }

  lemma SampleClaim(pruned: bool)
    ensures var r := Record(SAMPLE, ZERO_TIME, "");
            Step(Snapshot(r, ["m"], map[]), Claim(REQUEST), pruned).0 == Snapshot(Claimed(r, REQUEST), ["m"], map[])
  {
    var r := Record(SAMPLE, ZERO_TIME, "");
    var s := Snapshot(r, ["m"], map[]);
    hide Filter;
    assert ClaimIds(s, REQUEST) == ["m"] by { FilterAll(ClaimableIn(s.messages, 1), ["m"]); }
    assert ClaimAll(s.messages, ["m"], REQUEST) == map["m" := Claimed(r, REQUEST)];
    assert Compact(s, "q") == s by {
      assert SettledHead(s.messages, ["m"]) == 0;
      assert Trim(s, "q") == s && Sweep(s, "q") == s;
    }
  }

  lemma SampleAck(pruned: bool)
    ensures var r := Record(SAMPLE, ZERO_TIME, "");
            Final(Snapshot(r, ["m"], map[]), [Claim(REQUEST), Acknowledge("m", 2)], pruned)
            == Snapshot(Acked(Claimed(r, REQUEST), 2), ["m"], map["q" := 1])
  {
    var r := Record(SAMPLE, ZERO_TIME, "");
    SampleClaim(pruned);
    TwoSteps(Snapshot(r, ["m"], map[]), Claim(REQUEST), Acknowledge("m", 2), pruned);
    assert map["m" := Claimed(r, REQUEST)]["m" := Acked(Claimed(r, REQUEST), 2)]
           == map["m" := Acked(Claimed(r, REQUEST), 2)];
  }

  lemma SettledClaim(r: Record)
    requires r.msg.state == Acknowledged
    ensures Step(Snapshot(r, ["m"], map["q" := 1]), Claim(REQUEST), true).0 == Snapshot(r, [], map["q" := 0])
    ensures Step(Snapshot(r, ["m"], map["q" := 1]), Claim(REQUEST), false).0 == Snapshot(r, ["m"], map["q" := 1])
  {
    var s := Snapshot(r, ["m"], map["q" := 1]);
    assert SettledHead(s.messages, ["m"]) == 1 by { assert SettledHead(s.messages, ["m"][1..]) == 0; }
    assert Compact(s, "q") == Snapshot(r, [], map["q" := 0]);
    assert ClaimIds(s, REQUEST) == [] by { FilterNone(ClaimableIn(s.messages, 1), ["m"]); }
    assert ClaimAll(s.messages, [], REQUEST) == s.messages;
  }

  lemma SettledDelete(r: Record, pruned: bool)
    requires r.msg.state == Acknowledged
    ensures Final(Snapshot(r, ["m"], map["q" := 1]), [Claim(REQUEST), DeleteQueue("q")], pruned)
            == StoreState(false, {}, if pruned then map["m" := r] else map[], map[], map[])
  {
    SettledClaim(r);
    TwoSteps(Snapshot(r, ["m"], map["q" := 1]), Claim(REQUEST), DeleteQueue("q"), pruned);
  }

  /** Acknowledge, trim, delete the queue: the pruning store still remembers the settled message. It shows it
      when asked, and refuses to acknowledge it again with a state mismatch; the log no longer knows it. */
  lemma LeftoversShow(pruned: bool)
    ensures var ops := [SaveQueue("q"), Append([SAMPLE])] + [Claim(REQUEST), Acknowledge("m", 2)] + [Claim(REQUEST),
          DeleteQueue("q")];
            var s := Final(EmptyStore(), ops, pruned);
            && Step(s, Acknowledge("m", 3), pruned).1
               == Done(Err(if pruned then StateMismatch("m", Acknowledged) else NotFound))
            && Step(s, Read("m"), pruned).1 ==
               Found(if pruned then Ok(Acked(Claimed(Record(SAMPLE, ZERO_TIME, ""), REQUEST), 2).msg)
                     else Err(NotFound))
  {
    var a, b, c := [SaveQueue("q"), Append([SAMPLE])], [Claim(REQUEST), Acknowledge("m", 2)], [Claim(REQUEST),
          DeleteQueue("q")];
    SampleEnd(a, b, c, pruned);
  }

  lemma SampleEnd(a: seq<Op>, b: seq<Op>, c: seq<Op>, pruned: bool)
    requires a == [SaveQueue("q"), Append([SAMPLE])] && b == [Claim(REQUEST), Acknowledge("m", 2)]
             && c == [Claim(REQUEST), DeleteQueue("q")]
    ensures var r := Acked(Claimed(Record(SAMPLE, ZERO_TIME, ""), REQUEST), 2);
            Final(EmptyStore(), a + b + c, pruned) == StoreState(false, {}, if pruned then map["m" := r] else map[],
                                                                 map[], map[])
  {
    hide Step, Final;
    FinalAppend(EmptyStore(), a + b, c, pruned);
    FinalAppend(EmptyStore(), a, b, pruned);
    SampleSetup(pruned);
    SampleAck(pruned);
    SettledDelete(Acked(Claimed(Record(SAMPLE, ZERO_TIME, ""), REQUEST), 2), pruned);
  }
}
