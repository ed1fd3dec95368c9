/** Claims and leases of the store, said on the fields of its records: which messages a claim takes and in which
    order, what a lease is, and when it has ended. */
module Leasing {
  import opened Sequences
  import opened Ordering
  import opened Messages
  import opened StoreSpec
  import opened StoreInvariant

  function IdsOf(ms: seq<Message>): (r: seq<string>)
    ensures |r| == |ms| && forall i :: 0 <= i < |ms| ==> r[i] == ms[i].id
  {
    seq(|ms|, i requires 0 <= i < |ms| => ms[i].id)
  }

  ghost predicate Returned(ms: seq<Message>, id: string) {
    exists m :: m in ms && m.id == id
  }

  lemma ReturnedIds(ms: seq<Message>, id: string)
    ensures Returned(ms, id) <==> id in IdsOf(ms)
  {
    if m :| m in ms && m.id == id {
      var i :| 0 <= i < |ms| && ms[i] == m;
      assert IdsOf(ms)[i] == id;
    }
    if i :| 0 <= i < |ms| && IdsOf(ms)[i] == id {
      assert ms[i] in ms;
    }
  }

  // ----- Claims -----

  /** Compaction hides nothing a claim could take. */
  lemma CompactedClaim(s: StoreState, req: ClaimRequest)
    requires Inv(s)
    ensures var c := Compact(s, req.queue);
            c.messages == s.messages && ClaimIds(c, req) == ClaimIds(s, req)
  {
    hide Inv, Compact, Filter;
    var c := Compact(s, req.queue);
    CompactKeeps(s, req.queue);
    var p, live := ClaimableIn(s.messages, req.now), LiveIn(s.messages);
    FilterFilter(p, live, Index(s, req.queue));
    FilterFilter(p, live, Index(c, req.queue));
  }

  /** The messages a claim returns, by their identifiers, and what it leaves in the store. */
  lemma ClaimReturns(s: StoreState, req: ClaimRequest)
    requires Inv(s) && !s.closed
    ensures var (t, r) := Claim(s, req);
            && r.Ok? && IdsOf(r.value) == ClaimIds(s, req)
            && t.messages == ClaimAll(s.messages, ClaimIds(s, req), req)
            && (forall m :: m in r.value ==> m.id in t.messages && t.messages[m.id].msg == m)
  {
    hide Inv, Compact, ClaimIds;
    CompactedClaim(s, req);
    QueueAt(s, req.queue);
    ClaimIdsAreClaimable(s, req);
    var ids := ClaimIds(s, req);
    forall k | 0 <= k < |ids|
      ensures ids[k] in s.messages && s.messages[ids[k]].msg.id == ids[k]
    {
      assert ids[k] in ids;
      assert RecordOk(ids[k], s.messages[ids[k]]);
    }
  }

  /** A claim takes only messages of its queue that are QUEUED or RETRYING and whose time has come, counts an
      attempt and leases each of them. No other record changes. */
  lemma ClaimTakesOnlyTheAvailable(s: StoreState, req: ClaimRequest)
    requires Inv(s) && !s.closed
    ensures var (t, r) := Claim(s, req);
            && r.Ok? && |r.value| <= (if req.limit < 0 then 0 else req.limit)
            && (forall m :: m in r.value ==>
                  && m.id in Index(s, req.queue) && m.id in s.messages
                  && var was := s.messages[m.id].msg;
                  && was.queue == req.queue && was.state in {Queued, Retrying} && was.availableAt <= req.now
                  && m == was.(state := Processing, updatedAt := req.now, attempts := was.attempts + 1)
                  && m.id in t.messages && t.messages[m.id] == Record(m, req.now + req.lease, req.consumer))
            && t.messages.Keys == s.messages.Keys
            && (forall id :: id in s.messages && id !in IdsOf(r.value) ==> t.messages[id] == s.messages[id])
  {
    hide Inv, Claim, Filter;
    ClaimReturns(s, req);
    QueueAt(s, req.queue);
    var (t, r) := Claim(s, req);
    forall m | m in r.value
      ensures m.id in ClaimIds(s, req) && m.id in t.messages && t.messages[m.id].msg == m
    {
      var k :| 0 <= k < |r.value| && r.value[k] == m;
      assert IdsOf(r.value)[k] in ClaimIds(s, req);
    }
  }

  /** And it takes them in the order of the index. A message that could have been taken is left out only when the
      limit is reached, and then it stands behind every message that was taken. */
  lemma ClaimTakesTheFirst(s: StoreState, req: ClaimRequest)
    requires Inv(s) && !s.closed
    ensures Claim(s, req).1.Ok?
    ensures var taken, index := Claim(s, req).1.value, Index(s, req.queue);
            && (forall a, b, i, j ::
                  0 <= a < b < |taken| && 0 <= i < |index| && 0 <= j < |index| ==>
                    index[i] == taken[a].id && index[j] == taken[b].id ==> i < j)
            && (forall j :: 0 <= j < |index| && index[j] in s.messages && index[j] !in IdsOf(taken) ==>
                  var m := s.messages[index[j]].msg;
                  m.state in {Queued, Retrying} && m.availableAt <= req.now ==>
                    && |taken| == (if req.limit < 0 then 0 else req.limit)
                    && forall i :: 0 <= i < |index| && index[i] in IdsOf(taken) ==> i < j)
  {
    hide Inv, Claim, Filter;
    ClaimReturns(s, req);
    QueueAt(s, req.queue);
    var taken, index, p := Claim(s, req).1.value, Index(s, req.queue), ClaimableIn(s.messages, req.now);
    forall j | 0 <= j < |index| && p(index[j]) && index[j] !in IdsOf(taken)
      ensures |taken| == if req.limit < 0 then 0 else req.limit
      ensures forall i :: 0 <= i < |index| && index[i] in IdsOf(taken) ==> i < j
    {
      FirstComeFirst(p, index, req.limit, j);
    }
    forall a, b, i, j | 0 <= a < b < |taken| && 0 <= i < |index| && 0 <= j < |index|
                        && index[i] == taken[a].id && index[j] == taken[b].id
      ensures i < j
    {
      assert IdsOf(taken)[a] == Filter(p, index)[a] && IdsOf(taken)[b] == Filter(p, index)[b];
      FilterInOrder(p, index, a, b, i, j);
    }
  }

  // ----- Leases -----

  /** A maintenance scan finds, with the smallest identifiers first and up to a positive limit, exactly the messages
      that are being processed and whose lease has ended. */
  lemma ScanFindsTheEnded(s: StoreState, now: int, limit: int)
    requires Inv(s)
    ensures var found := ExpiredLeases(s, now, limit);
            && (forall m :: m in found ==>
                  && m.id in s.messages && s.messages[m.id].msg == m && m.state == Processing
                  && s.messages[m.id].lease <= now)
            && SortedBy(Itself(), IdsOf(found))
            && (limit > 0 ==> |found| <= limit)
            && (forall id :: id in s.messages && id !in IdsOf(found) ==>
                  s.messages[id].msg.state == Processing && s.messages[id].lease <= now ==>
                    && limit > 0 && |found| == limit
                    && forall x :: x in IdsOf(found) ==> Less(x, id))
  {
    hide Inv, Listing;
    var all := Listing(ExpiredSet(s, now));
    var ids := TakePositive(limit, all);
    var found := ExpiredLeases(s, now, limit);
    ListingSorted(ExpiredSet(s, now));
    forall k | 0 <= k < |ids|
      ensures ids[k] in s.messages && found[k] == s.messages[ids[k]].msg && found[k].id == ids[k]
      ensures Expired(s.messages[ids[k]], now)
    {
      assert ids[k] in ids;
      RecordAt(s, ids[k]);
    }
    assert IdsOf(found) == ids;
    forall id | id in s.messages && s.messages[id].msg.state == Processing && s.messages[id].lease <= now
                && id !in ids
      ensures limit > 0 && |found| == limit && forall x :: x in ids ==> Less(x, id)
    {
      RecordAt(s, id);
      assert id in all;
      var j :| 0 <= j < |all| && all[j] == id;
    }
  }

  /** A message that has just been claimed is found by no scan before its lease ends. */
  lemma LeaseLasts(s: StoreState, req: ClaimRequest, m: Message, now: int, limit: int)
    requires Inv(s) && !s.closed && req.now + req.lease != ZERO_TIME
    requires m in Claim(s, req).1.value && now < req.now + req.lease
    ensures m.id !in IdsOf(ExpiredLeases(Claim(s, req).0, now, limit))
  {
    hide Inv, Claim;
    ClaimTakesOnlyTheAvailable(s, req);
    ClaimKeeps(s, req);
    ScanFindsTheEnded(Claim(s, req).0, now, limit);
  }

  // ----- Counts -----

  /** The stored messages of a queue in these states. */
  function InStates(s: StoreState, queue: string, states: set<State>): set<string> {
    set id | id in s.messages && s.messages[id].msg.queue == queue && s.messages[id].msg.state in states
  }

  lemma CountIsSize(s: StoreState, queue: string, states: set<State>)
    requires Inv(s) && Acknowledged !in states && DeadLettered !in states
    ensures CountIn(s, queue, states) == |InStates(s, queue, states)|
  {
    hide Filter;
    var p, index := StateIn(s.messages, states), Index(s, queue);
    assert QueueOk(s, queue);
    FilterDistinct(p, index);
    forall id
      ensures id in Filter(p, index) <==> id in InStates(s, queue, states)
    {
      assert Listed(s, id);
    }
    DistinctSize(Filter(p, index), InStates(s, queue, states));
  }

  /** The depth of a queue is the number of its stored messages that are queued, being processed and retrying. */
  lemma DepthCounts(s: StoreState, queue: string)
    requires Inv(s)
    ensures match DepthOf(s, queue)
            case Err(e) => queue !in s.queues && e == NotFound
            case Ok(d) =>
              && queue in s.queues && d.ready == |InStates(s, queue, {Queued})|
              && d.inFlight == |InStates(s, queue, {Processing})| && d.scheduled == |InStates(s, queue, {Retrying})|
              && d.total == |InStates(s, queue, {Queued, Processing, Retrying})|
  {
    hide Inv, CountIn, InStates;
    CountIsSize(s, queue, {Queued});
    CountIsSize(s, queue, {Processing});
    CountIsSize(s, queue, {Retrying, Failed});
    NoneFailed(s, queue);
    StatesAddUp(s, queue, {Queued}, {Processing});
    StatesAddUp(s, queue, {Queued} + {Processing}, {Retrying});
    assert {Queued} + {Processing} + {Retrying} == {Queued, Processing, Retrying};
  }

  lemma NoneFailed(s: StoreState, queue: string)
    requires Inv(s)
    ensures InStates(s, queue, {Retrying, Failed}) == InStates(s, queue, {Retrying})
  {
    hide Inv;
    forall id | id in s.messages
      ensures s.messages[id].msg.state != Failed
    {
      RecordAt(s, id);
    }
  }

  lemma StatesAddUp(s: StoreState, queue: string, a: set<State>, b: set<State>)
    requires a !! b
    ensures |InStates(s, queue, a + b)| == |InStates(s, queue, a)| + |InStates(s, queue, b)|
  {
    assert InStates(s, queue, a + b) == InStates(s, queue, a) + InStates(s, queue, b);
    assert InStates(s, queue, a) !! InStates(s, queue, b);
  }

  // ----- Answers and removals -----

  /** An acknowledgement succeeds exactly for a message that is being processed and settles it; nobody holds it any
      more. Otherwise nothing changes and the error says why. */
  lemma AcknowledgeIsExact(s: StoreState, id: string, at: int)
    requires Inv(s)
    ensures var (t, r) := Acknowledge(s, id, at);
            if id !in s.messages then t == s && r == Err(NotFound)
            else
              var was := s.messages[id].msg;
              if was.state != Processing then t == s && r == Err(StateMismatch(id, was.state))
              else
                && r == Ok(()) && t == s.(messages := t.messages, settled := t.settled)
                && t.messages == s.messages[id := Record(was.(state := Acknowledged, updatedAt := at), ZERO_TIME, "")]
  {
    hide Inv;
    if id in s.messages { RecordAt(s, id); }
  }

  /** A burial succeeds exactly for a message that is being processed; outside that state the lifecycle forbids it. */
  lemma BurialIsExact(s: StoreState, id: string, reason: string, at: int)
    requires Inv(s)
    ensures var (t, r) := MarkDeadLettered(s, id, reason, at);
            if id !in s.messages then t == s && r == Err(NotFound)
            else
              var was := s.messages[id].msg;
              if was.state != Processing then t == s && r == Err(InvalidTransition(was.state, DeadLettered))
              else
                && r == Ok(()) && t == s.(messages := t.messages, settled := t.settled)
                && t.messages == s.messages[id := Record(
                     was.(state := DeadLettered, updatedAt := at, lastError := reason), ZERO_TIME, "")]
  {
    hide Inv;
    if id in s.messages { RecordAt(s, id); }
  }

  /** A purge removes exactly the queue's messages that are not settled and reports how many. */
  lemma PurgeRemovesTheLive(s: StoreState, queue: string)
    requires Inv(s)
    ensures var (t, r) := Purge(s, queue);
            var live := InStates(s, queue, {Queued, Processing, Retrying});
            if queue !in s.queues then t == s && r == Err(NotFound)
            else
              && r == Ok(|live|) && t.messages == s.messages - live
              && t == s.(messages := t.messages, order := t.order, settled := t.settled)
              && (forall q :: q != queue ==> Index(t, q) == Index(s, q))
              && (forall id :: id in Index(t, queue) <==> id in Index(s, queue) && id !in live)
  {
    hide Filter;
    if queue in s.queues {
      var live := Live(s.messages, Index(s, queue));
      assert QueueOk(s, queue);
      FilterDistinct(LiveIn(s.messages), Index(s, queue));
      forall id
        ensures id in live <==> id in InStates(s, queue, {Queued, Processing, Retrying})
      {
        assert Listed(s, id);
        if id in s.messages { RecordAt(s, id); }
      }
      DistinctSize(live, InStates(s, queue, {Queued, Processing, Retrying}));
    }
  }

  /** Deleting a queue removes its messages, save settled ones it no longer listed, and no other queue's. */
  lemma DeletionRemovesTheQueue(s: StoreState, queue: string)
    requires Inv(s)
    ensures var (t, r) := DeleteQueue(s, queue);
            if queue !in s.queues then t == s && r == Err(NotFound)
            else
              && r == Ok(()) && queue !in t.queues && t.queues + {queue} == s.queues && Index(t, queue) == []
              && (forall q :: q != queue ==> Index(t, q) == Index(s, q))
              && (forall id :: id in t.messages ==>
                    && id in s.messages && t.messages[id] == s.messages[id]
                    && (s.messages[id].msg.queue == queue ==>
                          s.messages[id].msg.state in {Acknowledged, DeadLettered} && id !in Index(s, queue)))
              && (forall id :: id in s.messages && s.messages[id].msg.queue != queue ==> id in t.messages)
  {
    if queue in s.queues {
      assert QueueOk(s, queue);
      forall id | id in s.messages && id !in Index(s, queue) && s.messages[id].msg.queue == queue
        ensures Terminal(s.messages[id].msg.state)
      {
        assert Listed(s, id);
      }
    }
  }
}
