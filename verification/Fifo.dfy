/** First in, first out: over every run of the delivery protocol the index of a queue keeps the order in which its
    messages were published, so none is claimed past an earlier one that could have been claimed. */
module Fifo {
  import opened Sequences
  import opened Messages
  import opened StoreSpec
  import opened StoreInvariant
  import opened Leasing
  import opened DeadLetterSpec
  import opened Retry
  import opened Delivery
  import opened Finality
  import StoreLeftovers

  ghost predicate Before(index: seq<string>, a: string, b: string) {
    exists i, j :: 0 <= i < j < |index| && index[i] == a && index[j] == b
  }

  lemma BeforeAt(index: seq<string>, a: string, b: string, i: nat, j: nat)
    requires i < j < |index| && index[i] == a && index[j] == b
    ensures Before(index, a, b)
  {}

  /** Known identifiers leave the index but do not enter it, and keep their order. */
  ghost predicate KeepsOrder(known: set<string>, was: seq<string>, now: seq<string>) {
    && (forall id :: id in now && id in known ==> id in was)
    && (forall a, b :: Before(was, a, b) && a in now && b in now ==> Before(now, a, b))
  }

  // ----- Sequences -----

  lemma SuffixKeepsOrder(known: set<string>, index: seq<string>, n: nat)
    requires Distinct(index) && n <= |index|
    ensures KeepsOrder(known, index, index[n..])
  {
    var rest := index[n..];
    forall a, b | Before(index, a, b) && a in rest && b in rest
      ensures Before(rest, a, b)
    {
      var i, j :| 0 <= i < j < |index| && index[i] == a && index[j] == b;
      var k :| 0 <= k < |rest| && rest[k] == a;
      assert index[n + k] == a;
      BeforeAt(rest, a, b, i - n, j - n);
    }
  }

  lemma {:induction false} FilterKeepsBefore(p: string -> bool, index: seq<string>, a: string, b: string)
    requires Before(index, a, b) && p(a) && p(b)
    ensures Before(Filter(p, index), a, b)
    decreases |index|
  {
    var i, j :| 0 <= i < j < |index| && index[i] == a && index[j] == b;
    var front, last := index[..|index| - 1], index[|index| - 1];
    assert index == front + [last];
    FilterPush(p, front, last);
    var kept := Filter(p, front);
    if j < |front| {
      BeforeAt(front, a, b, i, j);
      FilterKeepsBefore(p, front, a, b);
      var x, y :| 0 <= x < y < |kept| && kept[x] == a && kept[y] == b;
      BeforeAt(Filter(p, index), a, b, x, y);
    } else {
      assert front[i] in front && a in kept;
      var x :| 0 <= x < |kept| && kept[x] == a;
      BeforeAt(Filter(p, index), a, b, x, |kept|);
    }
  }

  lemma FilterKeepsOrder(known: set<string>, p: string -> bool, index: seq<string>)
    ensures KeepsOrder(known, index, Filter(p, index))
  {
    hide Before;
    forall a, b | Before(index, a, b) && a in Filter(p, index) && b in Filter(p, index)
      ensures Before(Filter(p, index), a, b)
    {
      FilterKeepsBefore(p, index, a, b);
    }
  }

  lemma ExtensionKeepsOrder(known: set<string>, was: seq<string>, now: seq<string>)
    requires was <= now && forall id :: id in now && id in known ==> id in was
    ensures KeepsOrder(known, was, now)
  {
    forall a, b | Before(was, a, b) && a in now && b in now
      ensures Before(now, a, b)
    {
      var i, j :| 0 <= i < j < |was| && was[i] == a && was[j] == b;
      BeforeAt(now, a, b, i, j);
    }
  }

  lemma SameOrder(known: set<string>, index: seq<string>)
    ensures KeepsOrder(known, index, index)
  {}

  lemma OrderTwice(known: set<string>, more: set<string>, x: seq<string>, y: seq<string>, z: seq<string>)
    requires KeepsOrder(known, x, y) && KeepsOrder(more, y, z) && known <= more && forall id :: id in x ==> id in known
    ensures KeepsOrder(known, x, z)
  {
    hide Before;
    forall a, b | Before(x, a, b) && a in z && b in z
      ensures Before(z, a, b)
    {
      BeforeIn(x, a, b);
      assert Before(y, a, b);
    }
  }

  lemma BeforeIn(x: seq<string>, a: string, b: string)
    requires Before(x, a, b)
    ensures a in x && b in x
  {}

  // ----- Store operations -----

  lemma CompactKeepsOrder(s: StoreState, queue: string, q: string, known: set<string>)
    requires Inv(s)
    ensures KeepsOrder(known, Index(s, q), Index(Compact(s, queue), q))
  {
    hide Inv, KeepsOrder, Filter;
    QueueAt(s, q);
    if q == queue {
      var all := known + (set id | id in Index(s, q));
      var t := Trim(s, queue);
      TrimKeepsOrder(s, queue, all);
      SweepKeepsOrder(t, queue, all);
      OrderTwice(all, all, Index(s, q), Index(t, q), Index(Compact(s, queue), q));
      FewerKnown(known, all, Index(s, q), Index(Compact(s, queue), q));
    } else {
      SameOrder(known, Index(s, q));
    }
  }

  lemma FewerKnown(known: set<string>, more: set<string>, was: seq<string>, now: seq<string>)
    requires KeepsOrder(more, was, now) && known <= more
    ensures KeepsOrder(known, was, now)
  {}

  lemma TrimKeepsOrder(s: StoreState, queue: string, known: set<string>)
    requires Distinct(Index(s, queue))
    ensures KeepsOrder(known, Index(s, queue), Index(Trim(s, queue), queue))
  {
    hide KeepsOrder;
    SuffixKeepsOrder(known, Index(s, queue), SettledHead(s.messages, Index(s, queue)));
    SameOrder(known, Index(s, queue));
  }

  lemma SweepKeepsOrder(s: StoreState, queue: string, known: set<string>)
    ensures KeepsOrder(known, Index(s, queue), Index(Sweep(s, queue), queue))
  {
    hide KeepsOrder, Filter;
    FilterKeepsOrder(known, LiveIn(s.messages), Index(s, queue));
    SameOrder(known, Index(s, queue));
  }

  lemma AppendKeepsOrder(s: StoreState, batch: seq<Message>, q: string, known: set<string>)
    requires Append(s, batch).1.Ok? && BatchIds(batch) !! known
    ensures KeepsOrder(known, Index(s, q), Index(AppendAll(s, batch), q))
  {
    hide KeepsOrder, AppendAll, Index;
    assert batch[..0] == [] && batch[..|batch|] == batch;
    assert AppendAll(s, []) == s by { NothingAppended(s); }
    IndexGrows(s, batch, 0, |batch|, q);
    forall id | id in Index(AppendAll(s, batch), q) && id in known
      ensures id in Index(s, q)
    {
      StoreLeftovers.AppendedIndex(s, batch, q, id);
      assert forall i :: 0 <= i < |batch| ==> batch[i].id in BatchIds(batch);
    }
    ExtensionKeepsOrder(known, Index(s, q), Index(AppendAll(s, batch), q));
  }

  // ----- Steps and runs -----

  ghost predicate StepKeepsOrder(w: World, w': World, q: string) {
    KeepsOrder(w.published.Keys, Index(w.store, q), Index(w'.store, q))
  }

  lemma EnterKeepsOrder(w: World, batch: seq<Message>, q: string)
    requires Fresh(w, batch)
    ensures StepKeepsOrder(w, Enter(w, batch), q)
  {
    hide KeepsOrder, AppendAll, Enrol;
    if Append(w.store, batch).1.Ok? {
      FreshIds(w, batch);
      AppendKeepsOrder(w.store, batch, q, w.published.Keys);
    } else {
      SameOrder(w.published.Keys, Index(w.store, q));
    }
  }

  lemma ClaimKeepsOrder(w: World, req: ClaimRequest, p: Policy, q: string)
    requires Inv(w.store)
    ensures StepKeepsOrder(w, Apply(w, Claim(req), p), q)
  {
    hide Inv, KeepsOrder, Compact, ClaimIds;
    SameOrder(w.published.Keys, Index(w.store, q));
    CompactKeepsOrder(w.store, req.queue, q, w.published.Keys);
  }

  lemma RemovalKeepsOrder(w: World, queue: string, q: string)
    ensures StepKeepsOrder(w, Without(w, StoreSpec.Purge(w.store, queue).0), q)
    ensures StepKeepsOrder(w, Without(w, StoreSpec.DeleteQueue(w.store, queue).0), q)
  {
    hide KeepsOrder, Filter;
    SameOrder(w.published.Keys, Index(w.store, q));
    FilterKeepsOrder(w.published.Keys, SettledIn(w.store.messages), Index(w.store, q));
    NothingLeft(w.published.Keys, Index(w.store, q));
  }

  lemma NothingLeft(known: set<string>, index: seq<string>)
    ensures KeepsOrder(known, index, [])
  {}

  lemma OtherKeepsOrder(w: World, step: Step, p: Policy, q: string)
    requires !step.Publish? && !step.Replay? && !step.Claim? && !step.Purge? && !step.DeleteQueue?
    ensures Index(Apply(w, step, p).store, q) == Index(w.store, q)
  {
    hide ExpiredLeases;
  }

  lemma StepOrder(w: World, step: Step, p: Policy, q: string)
    requires WorldOk(w, p) && Enabled(w, step, p)
    ensures StepKeepsOrder(w, Apply(w, step, p), q)
  {
    hide WorldOk, KeepsOrder, Enter, Without, Index, HasRecord, StepKeepsOrder;
    StoreIsOk(w, p);
    match step
    case Publish(batch) => EnterKeepsOrder(w, batch, q);
    case Replay(record, id, maxAttempts, now) => EnterKeepsOrder(w, [ReplayOf(record, id, maxAttempts, now)], q);
    case Claim(req) => ClaimKeepsOrder(w, req, p, q);
    case Purge(queue) => RemovalKeepsOrder(w, queue, q);
    case DeleteQueue(queue) => RemovalKeepsOrder(w, queue, q);
    case _ => UnchangedOrder(w, step, p, q);
  }

  lemma UnchangedOrder(w: World, step: Step, p: Policy, q: string)
    requires !step.Publish? && !step.Replay? && !step.Claim? && !step.Purge? && !step.DeleteQueue?
    ensures StepKeepsOrder(w, Apply(w, step, p), q)
  {
    hide Apply, Index, KeepsOrder;
    OtherKeepsOrder(w, step, p, q);
    SameOrder(w.published.Keys, Index(w.store, q));
  }

  lemma ListedIsPublished(w: World, p: Policy, q: string)
    requires WorldOk(w, p)
    ensures forall id :: id in Index(w.store, q) ==> id in w.published
  {
    hide Inv;
    QueueAt(w.store, q);
  }

  /** In every run what is listed keeps its order. */
  lemma {:induction false} RunKeepsOrder(w: World, steps: seq<Step>, p: Policy, q: string)
    requires WorldOk(w, p) && p.Valid() && Legal(w, steps, p)
    ensures StepKeepsOrder(w, Run(w, steps, p), q)
    decreases |steps|
  {
    hide WorldOk, Enabled, Apply, KeepsOrder, Index;
    if steps == [] {
      SameOrder(w.published.Keys, Index(w.store, q));
    } else {
      var w1 := Apply(w, steps[0], p);
      var w2 := Run(w1, steps[1..], p);
      StepOrder(w, steps[0], p, q);
      StepKeeps(w, steps[0], p);
      StepIsLater(w, steps[0], p);
      RunKeepsOrder(w1, steps[1..], p, q);
      ListedIsPublished(w, p, q);
      OrderTwice(w.published.Keys, w1.published.Keys, Index(w.store, q), Index(w1.store, q), Index(w2.store, q));
    }
  }

  // ----- First in, first out -----

  /** A published message stands behind everything its queue listed before. */
  lemma PublishedLast(w: World, batch: seq<Message>, i: nat, a: string)
    requires Append(w.store, batch).1.Ok? && i < |batch| && a in Index(w.store, batch[i].queue)
    ensures Before(Index(Enter(w, batch).store, batch[i].queue), a, batch[i].id)
  {
    hide AppendAll, Index, Enrol;
    var was, index := Index(w.store, batch[i].queue), Index(AppendAll(w.store, batch), batch[i].queue);
    assert batch[..0] == [] && batch[..|batch|] == batch;
    assert AppendAll(w.store, []) == w.store by { NothingAppended(w.store); }
    IndexGrows(w.store, batch, 0, |batch|, batch[i].queue);
    PlaceIs(w.store, batch, i, |batch|);
    var k :| 0 <= k < |was| && was[k] == a;
    BeforeAt(index, a, batch[i].id, k, Place(w.store, batch, i));
  }

  /** No message is claimed past an earlier one: if `a` stood before `b` at some moment, then whenever later a claim
      takes `b` it takes `a` as well, and first, unless `a` is gone, settled, being processed, or not yet
      available. */
  lemma FirstInFirstOut(w: World, steps: seq<Step>, p: Policy, a: string, b: string, req: ClaimRequest)
    requires WorldOk(w, p) && p.Valid() && Legal(w, steps, p) && Before(Index(w.store, req.queue), a, b)
    requires var s := Run(w, steps, p).store;
             !s.closed && b in IdsOf(StoreSpec.Claim(s, req).1.value)
    ensures var s := Run(w, steps, p).store;
            a in s.messages && s.messages[a].msg.state in {Queued, Retrying} ==>
              s.messages[a].msg.availableAt <= req.now ==> Before(IdsOf(StoreSpec.Claim(s, req).1.value), a, b)
  {
    hide WorldOk, Legal, Run, StoreSpec.Claim, Index, Before, KeepsOrder, Inv;
    var w' := Run(w, steps, p);
    var s, q := w'.store, req.queue;
    RunKeeps(w, steps, p);
    StoreIsOk(w', p);
    if a in s.messages && s.messages[a].msg.state in {Queued, Retrying} && s.messages[a].msg.availableAt <= req.now {
      RunKeepsOrder(w, steps, p, q);
      StillListed(w, w', steps, p, q, a, b);
      TakenListed(s, req, b);
      assert Before(Index(s, q), a, b) by { OrderMeans(w, w', q, a, b); }
      TakenInOrder(s, req, a, b);
    }
  }

  lemma OrderMeans(w: World, w': World, q: string, a: string, b: string)
    requires StepKeepsOrder(w, w', q) && Before(Index(w.store, q), a, b)
    requires a in Index(w'.store, q) && b in Index(w'.store, q)
    ensures Before(Index(w'.store, q), a, b)
  {}

  lemma StillListed(w: World, w': World, steps: seq<Step>, p: Policy, q: string, a: string, b: string)
    requires WorldOk(w, p) && p.Valid() && Legal(w, steps, p) && w' == Run(w, steps, p) && WorldOk(w', p)
    requires Before(Index(w.store, q), a, b)
    requires a in w'.store.messages && w'.store.messages[a].msg.state in {Queued, Retrying}
    ensures a in Index(w'.store, q)
  {
    hide Run, Legal, MessageOk;
    SettledIsFinal(w, steps, p);
    assert QueueOk(w.store, q) && Listed(w'.store, a);
    BeforeIn(Index(w.store, q), a, b);
    StoredAt(w, a, p);
    StoredAt(w', a, p);
    SameQueue(w, a, p);
    SameQueue(w', a, p);
  }

  lemma SameQueue(w: World, id: string, p: Policy)
    requires id in w.published && id in w.store.messages && id in w.tally
    requires MessageOk(w.store.messages[id].msg, w.published[id], w.tally[id], w.recorded, p)
    ensures w.store.messages[id].msg.queue == w.published[id].queue
  {}

  lemma TakenListed(s: StoreState, req: ClaimRequest, b: string)
    requires Inv(s) && !s.closed && b in IdsOf(StoreSpec.Claim(s, req).1.value)
    ensures b in Index(s, req.queue)
  {
    hide Inv, StoreSpec.Claim;
    ClaimTakesOnlyTheAvailable(s, req);
    ReturnedIds(StoreSpec.Claim(s, req).1.value, b);
  }

  lemma TakenInOrder(s: StoreState, req: ClaimRequest, a: string, b: string)
    requires Inv(s) && !s.closed && Before(Index(s, req.queue), a, b) && b in IdsOf(StoreSpec.Claim(s, req).1.value)
    requires a in s.messages && s.messages[a].msg.state in {Queued, Retrying}
    requires s.messages[a].msg.availableAt <= req.now
    ensures Before(IdsOf(StoreSpec.Claim(s, req).1.value), a, b)
  {
    hide Inv, StoreSpec.Claim;
    ClaimTakesTheFirst(s, req);
    QueueAt(s, req.queue);
    var index, ids := Index(s, req.queue), IdsOf(StoreSpec.Claim(s, req).1.value);
    var i, j :| 0 <= i < j < |index| && index[i] == a && index[j] == b;
    assert a in ids;
    var x :| 0 <= x < |ids| && ids[x] == a;
    var y :| 0 <= y < |ids| && ids[y] == b;
    assert x != y && !(y < x);
  }
}
