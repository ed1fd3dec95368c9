/** Every store operation keeps the index invariant, and what that buys: the settled counter is
    exact, the clamp never fires, no claim fails half-way, the index stays short. */
module StoreInvariant {
  import opened Sequences
  import opened Messages
  import opened StoreSpec

  // ----- How one changed record shows in a listing -----

  /** Replacing a live record by a live one changes no listing. */
  lemma LiveAfterPut(ms: map<string, Record>, r: Record, ids: seq<string>)
    requires r.msg.id in ms && !Terminal(ms[r.msg.id].msg.state) && !Terminal(r.msg.state)
    ensures Live(ms[r.msg.id := r], ids) == Live(ms, ids)
  {
    FilterCong(LiveIn(ms[r.msg.id := r]), LiveIn(ms), ids);
  }

  /** Settling a record drops exactly that identifier from every listing. */
  lemma LiveAfterSettle(ms: map<string, Record>, r: Record, ids: seq<string>)
    requires r.msg.id in ms && Terminal(r.msg.state)
    ensures Live(ms[r.msg.id := r], ids) == Filter(Except(r.msg.id), Live(ms, ids))
  {
    FilterBoth(LiveIn(ms[r.msg.id := r]), LiveIn(ms), r.msg.id, ids);
  }

  lemma {:induction false} FilterBoth(p: string -> bool, q: string -> bool, id: string, ids: seq<string>)
    requires forall x :: p(x) <==> q(x) && x != id
    ensures Filter(p, ids) == Filter(Except(id), Filter(q, ids))
    decreases |ids|
  {
    if ids != [] {
      var front, last := ids[..|ids| - 1], ids[|ids| - 1];
      FilterBoth(p, q, id, front);
      if q(last) {
        FilterPush(Except(id), Filter(q, front), last);
      } else {
        assert Filter(q, ids) == Filter(q, front);
      }
    }
  }

  /** A change that leaves the listed records' queue and liveness alone keeps the index sound. */
  lemma IndexUnaffected(ms: map<string, Record>, ms': map<string, Record>, queue: string, index: seq<string>,
                        settled: int)
    requires IndexOk(ms, queue, index, settled)
    requires forall id :: id in index ==> id in ms' && ms'[id].msg.queue == queue && LiveIn(ms')(id) == LiveIn(ms)(id)
    ensures IndexOk(ms', queue, index, settled)
    ensures Live(ms', index) == Live(ms, index)
  {
    FilterCong(LiveIn(ms'), LiveIn(ms), index);
  }

  lemma IndexAfterSettle(ms: map<string, Record>, r: Record, index: seq<string>, settled: int)
    requires IndexOk(ms, r.msg.queue, index, settled)
    requires r.msg.id in index && !Terminal(ms[r.msg.id].msg.state) && Terminal(r.msg.state)
    ensures IndexOk(ms[r.msg.id := r], r.msg.queue, index, settled + 1)
  {
    LiveAfterSettle(ms, r, index);
    FilterDistinct(LiveIn(ms), index);
    ExceptLength(r.msg.id, Live(ms, index));
  }

  /** Any part of a sound index is sound, once its settled identifiers are counted again. */
  lemma IndexFiltered(ms: map<string, Record>, queue: string, index: seq<string>, settled: int, p: string -> bool)
    requires IndexOk(ms, queue, index, settled)
    ensures IndexOk(ms, queue, Filter(p, index), |Filter(p, index)| - |Live(ms, Filter(p, index))|)
  {
    FilterDistinct(p, index);
  }

  // ----- Operations on one record -----

  ghost predicate Replaces(s: StoreState, r: Record) {
    && r.msg.id in s.messages && RecordOk(r.msg.id, r)
    && r.msg.queue == s.messages[r.msg.id].msg.queue
    && !Terminal(s.messages[r.msg.id].msg.state)
  }

  lemma PutKeeps(s: StoreState, r: Record)
    requires Inv(s) && Replaces(s, r) && !Terminal(r.msg.state)
    ensures Inv(Put(s, r))
  {
    var t := Put(s, r);
    forall queue
      ensures QueueOk(t, queue)
    {
      assert QueueOk(s, queue);
      IndexUnaffected(s.messages, t.messages, queue, Index(s, queue), SettledCount(s, queue));
    }
    forall id
      ensures Listed(t, id)
    {
      assert Listed(s, id);
    }
  }

  lemma SettleKeeps(s: StoreState, r: Record)
    requires Inv(s) && Replaces(s, r) && Terminal(r.msg.state)
    ensures Inv(Settle(s, r))
  {
    var t := Settle(s, r);
    forall queue
      ensures QueueOk(t, queue)
    {
      assert QueueOk(s, queue);
      if queue == r.msg.queue {
        assert Listed(s, r.msg.id);
        IndexAfterSettle(s.messages, r, Index(s, queue), SettledCount(s, queue));
      } else {
        IndexUnaffected(s.messages, t.messages, queue, Index(s, queue), SettledCount(s, queue));
      }
    }
    forall id
      ensures Listed(t, id)
    {
      assert Listed(s, id);
    }
  }

  lemma AcknowledgeKeeps(s: StoreState, id: string, at: int)
    requires Inv(s)
    ensures Inv(Acknowledge(s, id, at).0)
  {
    if Leased(s, id).Ok? { SettleKeeps(s, Acked(s.messages[id], at)); }
  }

  lemma RetryKeeps(s: StoreState, req: RetryRequest)
    requires Inv(s)
    ensures Inv(ScheduleRetry(s, req).0)
  {
    if Leased(s, req.id).Ok? { PutKeeps(s, Retried(s.messages[req.id], req)); }
  }

  lemma ReleaseKeeps(s: StoreState, id: string, at: int)
    requires Inv(s)
    ensures Inv(Release(s, id, at).0)
  {
    if Leased(s, id).Ok? { PutKeeps(s, Released(s.messages[id], at)); }
  }

  lemma MarkKeeps(s: StoreState, id: string, reason: string, at: int)
    requires Inv(s)
    ensures Inv(MarkDeadLettered(s, id, reason, at).0)
  {
    if MarkDeadLettered(s, id, reason, at).1.Ok? {
      SettleKeeps(s, Buried(s.messages[id], reason, at));
    }
  }

  // ----- Append -----

  function BatchIds(batch: seq<Message>): set<string> {
    set i | 0 <= i < |batch| :: batch[i].id
  }

  ghost predicate DifferentIds(batch: seq<Message>) {
    forall i, j :: 0 <= i < j < |batch| ==> batch[i].id != batch[j].id
  }

  /** What publishing and replaying hand to the store. */
  ghost predicate Appendable(batch: seq<Message>) {
    DifferentIds(batch) && forall i :: 0 <= i < |batch| ==> batch[i].state == Queued && batch[i].attempts == 0
  }

  predicate Waiting(m: Message) {
    (m.state == Queued || m.state == Retrying) && 0 <= m.attempts
  }

  /** What the store can take in without losing track. */
  ghost predicate Storable(batch: seq<Message>) {
    DifferentIds(batch) && forall i :: 0 <= i < |batch| ==> Waiting(batch[i])
  }

  lemma LiveAfterAppend(ms: map<string, Record>, m: Message, ids: seq<string>)
    requires m.id !in ms && !Terminal(m.state)
    requires forall id :: id in ids ==> id in ms
    ensures var ms' := ms[m.id := Record(m, ZERO_TIME, "")];
            Live(ms', ids) == Live(ms, ids) && Live(ms', ids + [m.id]) == Live(ms, ids) + [m.id]
  {
    var ms' := ms[m.id := Record(m, ZERO_TIME, "")];
    FilterCong(LiveIn(ms'), LiveIn(ms), ids);
    FilterPush(LiveIn(ms'), ids, m.id);
  }

  lemma IndexAfterAppend(ms: map<string, Record>, m: Message, index: seq<string>, settled: int)
    requires IndexOk(ms, m.queue, index, settled) && m.id !in ms && !Terminal(m.state)
    ensures IndexOk(ms[m.id := Record(m, ZERO_TIME, "")], m.queue, index + [m.id], settled)
  {
    LiveAfterAppend(ms, m, index);
    DistinctPush(index, m.id);
  }

  lemma AppendOneKeeps(s: StoreState, m: Message)
    requires Inv(s) && m.id !in s.messages && Waiting(m)
    ensures Inv(AppendOne(s, m))
  {
    var t := AppendOne(s, m);
    forall queue
      ensures QueueOk(t, queue)
    {
      assert QueueOk(s, queue);
      if queue == m.queue {
        IndexAfterAppend(s.messages, m, Index(s, queue), SettledCount(s, queue));
      } else {
        IndexUnaffected(s.messages, t.messages, queue, Index(s, queue), SettledCount(s, queue));
      }
    }
    forall id
      ensures Listed(t, id)
    {
      assert Listed(s, id);
    }
  }

  ghost predicate Disjoint(s: StoreState, batch: seq<Message>) {
    forall i :: 0 <= i < |batch| ==> batch[i].id !in s.messages
  }

  lemma {:induction false} AppendAllFrame(s: StoreState, batch: seq<Message>, id: string)
    ensures var t := AppendAll(s, batch);
            && t == s.(messages := t.messages, order := t.order)
            && (id in s.messages ==> id in t.messages)
            && (id in t.messages ==> id in s.messages || id in BatchIds(batch))
            && (id in s.messages && id !in BatchIds(batch) ==> t.messages[id] == s.messages[id])
    decreases |batch|
  {
    if batch != [] {
      BatchIdsPush(batch);
      AppendAllFrame(s, batch[..|batch| - 1], id);
    }
  }

  lemma BatchIdsPush(batch: seq<Message>)
    requires batch != []
    ensures BatchIds(batch) == BatchIds(batch[..|batch| - 1]) + {batch[|batch| - 1].id}
  {
    var front, last := batch[..|batch| - 1], batch[|batch| - 1];
    forall id
      ensures id in BatchIds(batch) <==> id in BatchIds(front) + {last.id}
    {
      if id in BatchIds(batch) {
        var i :| 0 <= i < |batch| && batch[i].id == id;
        assert i < |front| ==> front[i].id in BatchIds(front);
      }
      if id in BatchIds(front) {
        var i :| 0 <= i < |front| && front[i].id == id;
        assert batch[i].id == id;
      }
    }
  }

  lemma {:induction false} AppendAllStores(s: StoreState, batch: seq<Message>, i: nat)
    requires DifferentIds(batch) && i < |batch|
    ensures var t := AppendAll(s, batch);
            batch[i].id in t.messages && t.messages[batch[i].id] == Record(batch[i], ZERO_TIME, "")
    decreases |batch|
  {
    if i < |batch| - 1 {
      assert batch[i].id != batch[|batch| - 1].id;
      AppendAllStores(s, batch[..|batch| - 1], i);
    }
  }

  lemma AppendAllMessages(s: StoreState, batch: seq<Message>)
    requires DifferentIds(batch)
    ensures var t := AppendAll(s, batch);
            && (forall id :: id in s.messages ==> id in t.messages)
            && (forall i :: 0 <= i < |batch| ==>
                  batch[i].id in t.messages && t.messages[batch[i].id] == Record(batch[i], ZERO_TIME, ""))
            && (forall id :: id in t.messages ==> id in s.messages || exists i :: 0 <= i < |batch| && batch[i].id == id)
            && (forall id :: id in s.messages && (forall i :: 0 <= i < |batch| ==> batch[i].id != id) ==>
                  t.messages[id] == s.messages[id])
            && t == s.(messages := t.messages, order := t.order)
  {
    hide AppendAll;
    forall i | 0 <= i < |batch|
      ensures batch[i].id in AppendAll(s, batch).messages
      ensures AppendAll(s, batch).messages[batch[i].id] == Record(batch[i], ZERO_TIME, "")
    {
      AppendAllStores(s, batch, i);
    }
    forall id
      ensures id in s.messages ==> id in AppendAll(s, batch).messages
      ensures id in AppendAll(s, batch).messages ==> id in s.messages || id in BatchIds(batch)
      ensures id in s.messages && id !in BatchIds(batch) ==> AppendAll(s, batch).messages[id] == s.messages[id]
    {
      AppendAllFrame(s, batch, id);
    }
    AppendAllFrame(s, batch, "");
  }

  lemma {:induction false} AppendAllKeeps(s: StoreState, batch: seq<Message>)
    requires Inv(s) && Storable(batch) && Disjoint(s, batch)
    ensures Inv(AppendAll(s, batch))
    decreases |batch|
  {
    if batch != [] {
      var front := batch[..|batch| - 1];
      AppendAllKeeps(s, front);
      AppendAllMessages(s, front);
      AppendOneKeeps(AppendAll(s, front), batch[|batch| - 1]);
    }
  }

  lemma AppendKeeps(s: StoreState, batch: seq<Message>)
    requires Inv(s) && Appendable(batch)
    ensures Inv(Append(s, batch).0)
  {
    if Append(s, batch).1.Ok? { AppendAllKeeps(s, batch); }
  }

  /** Indexes only grow at the end. */
  lemma {:induction false} IndexGrows(s: StoreState, batch: seq<Message>, m: nat, n: nat, queue: string)
    requires m <= n <= |batch|
    ensures Index(AppendAll(s, batch[..m]), queue) <= Index(AppendAll(s, batch[..n]), queue)
    decreases n
  {
    if m < n {
      IndexGrows(s, batch, m, n - 1, queue);
      assert batch[..n][..n - 1] == batch[..n - 1];
    }
  }

  /** Where the identifier of message `i` ends up in the index of its queue. */
  function Place(s: StoreState, batch: seq<Message>, i: nat): nat
    requires i < |batch|
  {
    |Index(AppendAll(s, batch[..i]), batch[i].queue)|
  }

  lemma PlaceIs(s: StoreState, batch: seq<Message>, i: nat, n: nat)
    requires i < n <= |batch|
    ensures var index := Index(AppendAll(s, batch[..n]), batch[i].queue);
            |Index(s, batch[i].queue)| <= Place(s, batch, i) < |index| && index[Place(s, batch, i)] == batch[i].id
  {
    assert batch[..i + 1][..i] == batch[..i];
    assert batch[..0] == [];
    IndexGrows(s, batch, 0, i, batch[i].queue);
    IndexGrows(s, batch, i + 1, n, batch[i].queue);
  }

  lemma SoundMeansDifferentIds(s: StoreState, batch: seq<Message>)
    requires Inv(AppendAll(s, batch))
    ensures DifferentIds(batch)
  {
    hide Inv, AppendAll, Index;
    var t := AppendAll(s, batch);
    assert batch[..|batch|] == batch;
    forall i, j | 0 <= i < j < |batch|
      ensures batch[i].id != batch[j].id
    {
      PlaceIs(s, batch, i, |batch|);
      PlaceIs(s, batch, j, |batch|);
      PlaceIs(s, batch, i, j);
      QueueAt(t, batch[i].queue);
      QueueAt(t, batch[j].queue);
      assert Index(t, batch[i].queue)[Place(s, batch, i)] in Index(t, batch[i].queue);
      assert Index(t, batch[j].queue)[Place(s, batch, j)] in Index(t, batch[j].queue);
    }
  }

  /** An index that grew while its settled count did not grew by live identifiers only. */
  lemma GrewByLive(s: StoreState, t: StoreState, queue: string, i: nat)
    requires QueueOk(s, queue) && QueueOk(t, queue) && SettledCount(t, queue) == SettledCount(s, queue)
    requires Index(s, queue) <= Index(t, queue) && |Index(s, queue)| <= i < |Index(t, queue)|
    requires forall id :: id in s.messages ==> id in t.messages && t.messages[id] == s.messages[id]
    ensures LiveIn(t.messages)(Index(t, queue)[i])
  {
    hide Filter, LiveIn, QueueOk, IndexOk;
    SettledIs(s, queue);
    SettledIs(t, queue);
    var was, index := Index(s, queue), Index(t, queue);
    var more := index[|was|..];
    assert index == was + more && more[i - |was|] == index[i];
    FilterAppend(LiveIn(t.messages), was, more);
    assert Live(t.messages, was) == Live(s.messages, was) by { SameLive(s, t, queue); }
    FilterFull(LiveIn(t.messages), more);
  }

  lemma SettledIs(s: StoreState, queue: string)
    requires QueueOk(s, queue)
    ensures SettledCount(s, queue) == |Index(s, queue)| - |Live(s.messages, Index(s, queue))|
  {}

  lemma SameLive(s: StoreState, t: StoreState, queue: string)
    requires QueueOk(s, queue) && forall id :: id in s.messages ==> id in t.messages && t.messages[id] == s.messages[id]
    ensures Live(t.messages, Index(s, queue)) == Live(s.messages, Index(s, queue))
  {
    hide Filter;
    FilterCong(LiveIn(t.messages), LiveIn(s.messages), Index(s, queue));
  }

  lemma SoundMeansWaiting(s: StoreState, batch: seq<Message>, i: nat)
    requires Inv(s) && Inv(AppendAll(s, batch)) && DifferentIds(batch) && Disjoint(s, batch) && i < |batch|
    ensures Waiting(batch[i])
  {
    hide Inv, AppendAll, Filter;
    var t, queue := AppendAll(s, batch), batch[i].queue;
    AppendAllMessages(s, batch);
    RecordAt(t, batch[i].id);
    QueueAt(s, queue);
    QueueAt(t, queue);
    assert batch[..|batch|] == batch && batch[..0] == [];
    PlaceIs(s, batch, i, |batch|);
    IndexGrows(s, batch, 0, |batch|, queue);
    assert AppendAll(s, batch[..0]) == s by { NothingAppended(s); }
    GrewByLive(s, t, queue, Place(s, batch, i));
  }

  lemma NothingAppended(s: StoreState)
    ensures AppendAll(s, []) == s
  {}

  /** An accepted batch leaves the store sound if and only if its identifiers differ and its messages wait. */
  lemma AppendKeepsIff(s: StoreState, batch: seq<Message>)
    requires Inv(s) && Append(s, batch).1.Ok?
    ensures Inv(Append(s, batch).0) <==> Storable(batch)
  {
    hide Inv, AppendAll;
    if Storable(batch) {
      AppendAllKeeps(s, batch);
    }
    if Inv(AppendAll(s, batch)) {
      SoundMeansDifferentIds(s, batch);
      forall i | 0 <= i < |batch|
        ensures Waiting(batch[i])
      {
        SoundMeansWaiting(s, batch, i);
      }
    }
  }

  // ----- Compaction -----

  /** The head that is trimmed holds no live identifier, and the next one (if any) is live. */
  lemma {:induction false} SettledHeadIsMaximal(ms: map<string, Record>, ids: seq<string>)
    ensures var n := SettledHead(ms, ids);
            && (forall i :: 0 <= i < n ==> !LiveIn(ms)(ids[i]))
            && (n < |ids| ==> LiveIn(ms)(ids[n]))
            && Live(ms, ids[n..]) == Live(ms, ids)
    decreases |ids|
  {
    var n := SettledHead(ms, ids);
    if n == 0 {
      assert ids[0..] == ids;
    } else {
      SettledHeadIsMaximal(ms, ids[1..]);
      assert ids[1..][n - 1..] == ids[n..];
      assert ids == [ids[0]] + ids[1..];
      FilterAppend(LiveIn(ms), [ids[0]], ids[1..]);
      FilterNone(LiveIn(ms), [ids[0]]);
    }
  }

  /** Trimming keeps the live listing. The counter is never below the trimmed head, so the clamp
      at zero never fires, nor above the index length, so the retained capacity is never negative. */
  lemma IndexAfterTrim(s: StoreState, queue: string)
    requires QueueOk(s, queue)
    ensures QueueOk(Trim(s, queue), queue)
    ensures Live(s.messages, Index(Trim(s, queue), queue)) == Live(s.messages, Index(s, queue))
    ensures SettledHead(s.messages, Index(s, queue)) <= SettledCount(s, queue)
    ensures 0 <= SettledCount(Trim(s, queue), queue) <= |Index(Trim(s, queue), queue)|
  {
    var index := Index(s, queue);
    SettledHeadIsMaximal(s.messages, index);
    assert |Live(s.messages, index)| <= |index[SettledHead(s.messages, index)..]|;
  }

  lemma IndexAfterSweep(s: StoreState, queue: string)
    requires QueueOk(s, queue)
    ensures var t := Sweep(s, queue);
            var live := Live(s.messages, Index(s, queue));
            && QueueOk(t, queue)
            && Live(s.messages, Index(t, queue)) == live
            && (|Index(t, queue)| <= |live| + 63 || |Index(t, queue)| <= 2 * |live| - 1)
  {
    var live := Live(s.messages, Index(s, queue));
    assert Live(s.messages, live) == live by { FilterAll(LiveIn(s.messages), live); }
    IndexFiltered(s.messages, queue, Index(s, queue), SettledCount(s, queue), LiveIn(s.messages));
  }

  lemma CompactedQueue(s: StoreState, queue: string, q: string)
    requires QueueOk(s, q)
    ensures var t := Compact(s, queue);
            && QueueOk(t, q) && (q != queue ==> Index(t, q) == Index(s, q))
            && Live(s.messages, Index(t, q)) == Live(s.messages, Index(s, q))
            && t == s.(order := t.order, settled := t.settled)
  {
    hide Filter;
    if q == queue {
      IndexAfterTrim(s, queue);
      IndexAfterSweep(Trim(s, queue), queue);
    }
  }

  lemma CompactedListing(s: StoreState, t: StoreState, id: string)
    requires Listed(s, id) && t.messages == s.messages
    requires forall q :: Live(s.messages, Index(t, q)) == Live(s.messages, Index(s, q))
    ensures Listed(t, id)
  {
    hide Index;
    if id in s.messages && !Terminal(s.messages[id].msg.state) {
      assert id in Live(s.messages, Index(s, s.messages[id].msg.queue));
    }
  }

  lemma CompactKeeps(s: StoreState, queue: string)
    requires Inv(s)
    ensures var t := Compact(s, queue);
            && Inv(t)
            && t == s.(order := t.order, settled := t.settled)
            && (forall q :: q != queue ==> Index(t, q) == Index(s, q))
            && (forall q :: Live(s.messages, Index(t, q)) == Live(s.messages, Index(s, q)))
  {
    hide Compact, QueueOk, Listed, Live, Index, RecordsOk;
    var t := Compact(s, queue);
    forall q
      ensures q != queue ==> Index(t, q) == Index(s, q)
      ensures Live(s.messages, Index(t, q)) == Live(s.messages, Index(s, q)) && QueueOk(t, q)
    {
      CompactedQueue(s, queue, q);
    }
    CompactedQueue(s, queue, queue);
    forall id
      ensures Listed(t, id)
    {
      CompactedListing(s, t, id);
    }
  }

  // ----- Claim -----

  lemma ClaimIdsAreClaimable(s: StoreState, req: ClaimRequest)
    requires QueueOk(s, req.queue)
    ensures Distinct(ClaimIds(s, req))
    ensures forall id :: id in ClaimIds(s, req) ==>
              && id in s.messages && s.messages[id].msg.queue == req.queue && s.messages[id].msg.availableAt <= req.now
              && (s.messages[id].msg.state == Queued || s.messages[id].msg.state == Retrying)
  {
    FilterDistinct(ClaimableIn(s.messages, req.now), Index(s, req.queue));
  }

  lemma ClaimAllKeepsLiveness(ms: map<string, Record>, ids: seq<string>, req: ClaimRequest)
    requires forall id :: id in ids ==> id in ms && Claimable(ms[id].msg, req.now)
    ensures forall id :: LiveIn(ClaimAll(ms, ids, req))(id) == LiveIn(ms)(id)
    ensures forall id :: id in ms ==> ClaimAll(ms, ids, req)[id].msg.queue == ms[id].msg.queue
  {}

  /** A claim changes which messages are leased, not which are live. */
  lemma ClaimListedLive(s: StoreState, req: ClaimRequest, q: string)
    requires Inv(s)
    ensures var t := ClaimListed(s, req).0;
            Live(t.messages, Index(t, q)) == Live(s.messages, Index(s, q)) && QueueOk(t, q)
  {
    hide Inv, Filter, ClaimIds;
    var t := ClaimListed(s, req).0;
    QueueAt(s, req.queue);
    QueueAt(s, q);
    ClaimIdsAreClaimable(s, req);
    ClaimAllKeepsLiveness(s.messages, ClaimIds(s, req), req);
    IndexUnaffected(s.messages, t.messages, q, Index(s, q), SettledCount(s, q));
  }

  lemma ClaimListedKeeps(s: StoreState, req: ClaimRequest)
    requires Inv(s) && req.now + req.lease != ZERO_TIME
    ensures Inv(ClaimListed(s, req).0)
    ensures forall q :: Live(ClaimListed(s, req).0.messages, Index(s, q)) == Live(s.messages, Index(s, q))
  {
    hide ClaimIds, QueueOk, Filter;
    var t := ClaimListed(s, req).0;
    assert QueueOk(s, req.queue);
    ClaimIdsAreClaimable(s, req);
    forall q
      ensures Live(t.messages, Index(s, q)) == Live(s.messages, Index(s, q)) && QueueOk(t, q)
    {
      ClaimListedLive(s, req, q);
    }
    forall id
      ensures Listed(t, id)
    {
      assert Listed(s, id);
    }
  }

  lemma ClaimKeeps(s: StoreState, req: ClaimRequest)
    requires Inv(s) && req.now + req.lease != ZERO_TIME
    ensures Inv(Claim(s, req).0)
  {
    CompactKeeps(s, req.queue);
    ClaimListedKeeps(Compact(s, req.queue), req);
  }

  /** After a claim the index holds at most 63 settled identifiers, or fewer than the live ones. */
  lemma IndexLengthAfterClaim(s: StoreState, req: ClaimRequest)
    requires Inv(s) && !s.closed
    ensures var t := Claim(s, req).0;
            var live := |Live(t.messages, Index(t, req.queue))|;
            |Index(t, req.queue)| <= live + 63 || |Index(t, req.queue)| <= 2 * live - 1
  {
    CompactKeeps(s, req.queue);
    assert QueueOk(s, req.queue);
    IndexAfterTrim(s, req.queue);
    IndexAfterSweep(Trim(s, req.queue), req.queue);
    ClaimListedLive(Compact(s, req.queue), req, req.queue);
  }

  /** A claim leaves the store sound if and only if its leases have an expiry, or it leases nothing. */
  lemma ClaimKeepsIff(s: StoreState, req: ClaimRequest)
    requires Inv(s) && !s.closed
    ensures Inv(Claim(s, req).0) <==> req.now + req.lease != ZERO_TIME || Claim(s, req).1 == Ok([])
  {
    hide Inv, Compact, ClaimIds;
    var c := Compact(s, req.queue);
    CompactKeeps(s, req.queue);
    QueueAt(c, req.queue);
    ClaimIdsAreClaimable(c, req);
    var ids := ClaimIds(c, req);
    if req.now + req.lease != ZERO_TIME {
      ClaimListedKeeps(c, req);
    } else if ids == [] {
      assert ClaimAll(c.messages, ids, req) == c.messages;
    } else {
      assert ids[0] in ids;
      var r := ClaimListed(c, req).0.messages[ids[0]];
      assert !RecordOk(ids[0], r);
      if Inv(ClaimListed(c, req).0) { RecordAt(ClaimListed(c, req).0, ids[0]); }
    }
  }

  // ----- Purge and queue deletion -----

  lemma IndexAfterPurge(s: StoreState, queue: string)
    requires QueueOk(s, queue) && queue in s.queues
    ensures QueueOk(Purge(s, queue).0, queue)
    ensures Live(Purge(s, queue).0.messages, Index(Purge(s, queue).0, queue)) == []
  {
    var t := Purge(s, queue).0;
    var kept := Filter(SettledIn(s.messages), Index(s, queue));
    assert Live(s.messages, kept) == [] by { FilterNone(LiveIn(s.messages), kept); }
    IndexFiltered(s.messages, queue, Index(s, queue), SettledCount(s, queue), SettledIn(s.messages));
    IndexUnaffected(s.messages, t.messages, queue, kept, |kept|);
  }

  lemma PurgeKeeps(s: StoreState, queue: string)
    requires Inv(s)
    ensures Inv(Purge(s, queue).0)
  {
    var t := Purge(s, queue).0;
    if queue in s.queues {
      assert QueueOk(s, queue);
      forall q
        ensures QueueOk(t, q)
      {
        assert QueueOk(s, q);
        if q == queue {
          IndexAfterPurge(s, queue);
        } else {
          IndexUnaffected(s.messages, t.messages, q, Index(s, q), SettledCount(s, q));
        }
      }
      forall id
        ensures Listed(t, id)
      {
        assert Listed(s, id);
      }
    }
  }

  lemma DeleteQueueKeeps(s: StoreState, queue: string)
    requires Inv(s)
    ensures Inv(DeleteQueue(s, queue).0)
  {
    var t := DeleteQueue(s, queue).0;
    if queue in s.queues {
      forall q
        ensures QueueOk(t, q)
      {
        assert QueueOk(s, q) && QueueOk(s, queue);
        if q != queue {
          IndexUnaffected(s.messages, t.messages, q, Index(s, q), SettledCount(s, q));
        }
      }
      forall id
        ensures Listed(t, id)
      {
        assert Listed(s, id);
      }
    }
  }

  /** The queue table and the closed flag are not part of the invariant. */
  lemma TopologyKept(s: StoreState, t: StoreState)
    requires Inv(s) && t.messages == s.messages && t.order == s.order && t.settled == s.settled
    ensures Inv(t)
  {
    forall queue
      ensures QueueOk(t, queue)
    {
      assert QueueOk(s, queue);
    }
    forall id
      ensures Listed(t, id)
    {
      assert Listed(s, id);
    }
  }

  /** Only the record of `id`, not settled before, differs, and it is no longer being processed; what was published
      and its attempts stay. */
  ghost predicate MovesOne(s: StoreState, s': StoreState, id: string) {
    && id in s.messages && !Terminal(s.messages[id].msg.state)
    && s'.messages.Keys == s.messages.Keys
    && (forall x :: x in s.messages && x != id ==> s'.messages[x] == s.messages[x])
    && ContentOf(s'.messages[id].msg) == ContentOf(s.messages[id].msg)
    && s'.messages[id].msg.attempts == s.messages[id].msg.attempts && s'.messages[id].msg.state != Processing
  }

  /** A leased operation replaces the record of a message that is being processed, or refuses and changes nothing. */
  ghost predicate Replaced(s: StoreState, next: (StoreState, Outcome<()>), id: string, change: Record -> Record) {
    && Inv(next.0)
    && (next.1.Ok? <==> id in s.messages && s.messages[id].msg.state == Processing)
    && (next.1.Ok? ==>
          next.0 == s.(messages := s.messages[id := change(s.messages[id])], settled := next.0.settled))
    && (next.1.Err? ==> next.0 == s)
  }

  lemma AcknowledgeReplaces(s: StoreState, id: string, at: int)
    requires Inv(s)
    ensures Replaced(s, Acknowledge(s, id, at), id, r => Acked(r, at))
  {
    hide Inv;
    AcknowledgeKeeps(s, id, at);
    if id in s.messages { RecordAt(s, id); }
  }

  lemma RetryReplaces(s: StoreState, req: RetryRequest)
    requires Inv(s)
    ensures Replaced(s, ScheduleRetry(s, req), req.id, r => Retried(r, req))
  {
    hide Inv;
    RetryKeeps(s, req);
    if req.id in s.messages { RecordAt(s, req.id); }
  }

  lemma ReleaseReplaces(s: StoreState, id: string, at: int)
    requires Inv(s)
    ensures Replaced(s, Release(s, id, at), id, r => Released(r, at))
  {
    hide Inv;
    ReleaseKeeps(s, id, at);
    if id in s.messages { RecordAt(s, id); }
  }

  lemma MarkReplaces(s: StoreState, id: string, reason: string, at: int)
    requires Inv(s)
    ensures Replaced(s, MarkDeadLettered(s, id, reason, at), id, r => Buried(r, reason, at))
  {
    hide Inv;
    MarkKeeps(s, id, reason, at);
    if id in s.messages { RecordAt(s, id); }
  }

  // ----- Reading the invariant -----

  lemma RecordAt(s: StoreState, id: string)
    requires Inv(s) && id in s.messages
    ensures RecordOk(id, s.messages[id])
  {}

  lemma QueueAt(s: StoreState, queue: string)
    requires Inv(s)
    ensures QueueOk(s, queue) && Distinct(Index(s, queue))
    ensures forall id :: id in Index(s, queue) ==> id in s.messages
    ensures RecordsOk(s.messages)
  {
    assert QueueOk(s, queue);
  }
}
