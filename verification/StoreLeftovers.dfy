/** When the pruned store remembers more than the log: exactly for messages that a claim trimmed from their
    queue's index before that queue was deleted. Said in terms of the pruned store's own run. */
module StoreLeftovers {
  import opened Sequences
  import opened Messages
  import opened StoreSpec
  import opened StoreInvariant
  import opened StoreRefinement

  /** Stored, but no longer listed by its queue. */
  predicate Detached(s: StoreState, id: string) {
    id in s.messages && id !in Index(s, s.messages[id].msg.queue)
  }

  ghost predicate Trims(s: StoreState, op: Op, id: string) {
    && op.Claim? && id in Index(s, op.request.queue)
    && id !in Index(Step(s, op, true).0, op.request.queue)
  }

  ghost predicate Abandons(s: StoreState, op: Op, id: string) {
    op.DeleteQueue? && op.queue in s.queues && Detached(s, id) && s.messages[id].msg.queue == op.queue
  }

  /** The log lists everything it stores. */
  ghost predicate Complete(l: StoreState) {
    forall id :: id in l.messages ==> !Detached(l, id)
  }

  // ----- One operation -----

  /** What one operation does to the places of messages. */
  ghost predicate Placed(s: StoreState, s': StoreState, op: Op, id: string, pruned: bool) {
    && (Detached(s', id) <==> Detached(s, id) || (pruned && Trims(s, op, id)))
    && (Detached(s, id) ==> id in s'.messages && s'.messages[id].msg.queue == s.messages[id].msg.queue)
    && (Trims(s, op, id) ==>
          id in s.messages && Terminal(s.messages[id].msg.state) && s.messages[id].msg.queue == op.request.queue)
    && (pruned && Trims(s, op, id) ==> id in s'.messages && s'.messages[id] == s.messages[id])
  }

  lemma {:induction false} AppendedIndex(s: StoreState, batch: seq<Message>, queue: string, id: string)
    ensures var t := AppendAll(s, batch);
            id in Index(t, queue) <==> id in Index(s, queue) || exists i ::
              0 <= i < |batch| && batch[i].id == id && batch[i].queue == queue
    decreases |batch|
  {
    if batch != [] {
      var front, last := batch[..|batch| - 1], batch[|batch| - 1];
      AppendedIndex(s, front, queue, id);
      var t := AppendAll(s, batch);
      assert Index(t, queue) == Index(AppendAll(s, front), queue) + if last.queue == queue then [last.id] else [];
      if i :| 0 <= i < |front| && front[i].id == id && front[i].queue == queue {
        assert batch[i].id == id && batch[i].queue == queue;
      }
      if i :| 0 <= i < |batch| && batch[i].id == id && batch[i].queue == queue {
        assert i == |front| || front[i] == batch[i];
      }
    }
  }

  lemma AppendPlaces(s: StoreState, batch: seq<Message>, id: string, pruned: bool)
    requires Inv(s) && Appendable(batch) && BatchIds(batch) !! s.messages.Keys
    ensures Placed(s, Step(s, Append(batch), pruned).0, Append(batch), id, pruned)
  {
    hide AppendAll, Inv;
    var t := AppendAll(s, batch);
    AppendAllMessages(s, batch);
    assert forall i :: 0 <= i < |batch| ==> batch[i].id in BatchIds(batch);
    if id in t.messages {
      var queue := t.messages[id].msg.queue;
      AppendedIndex(s, batch, queue, id);
      QueueAt(s, queue);
    }
  }

  /** Claiming from an index changes no index, no queue and no settled record. */
  ghost predicate LeasesOnly(s: StoreState, t: StoreState, id: string) {
    && t.order == s.order && t.messages.Keys == s.messages.Keys
    && (id in s.messages ==>
          && t.messages[id].msg.queue == s.messages[id].msg.queue
          && (Terminal(s.messages[id].msg.state) ==> t.messages[id] == s.messages[id]))
  }

  lemma ClaimedMessages(s: StoreState, req: ClaimRequest, id: string)
    requires Inv(s)
    ensures LeasesOnly(s, ClaimListed(s, req).0, id)
  {
    hide Inv, ClaimIds;
    QueueAt(s, req.queue);
    ClaimIdsAreClaimable(s, req);
  }

  lemma ClaimPlaces(s: StoreState, req: ClaimRequest, id: string, pruned: bool)
    requires Inv(s)
    ensures Placed(s, Step(s, Op.Claim(req), pruned).0, Op.Claim(req), id, pruned)
  {
    hide Inv, Compact, ClaimListed;
    if !s.closed {
      var c := Compact(s, req.queue);
      CompactKeeps(s, req.queue);
      ClaimedMessages(s, req, id);
      ClaimedMessages(c, req, id);
      QueueOkAt(s, req.queue);
      if id in s.messages { CompactDropsSettled(s, c, req.queue, id); }
      CompactShrinks(s, req.queue);
      CompactedPlaces(s, c, ClaimListed(c, req).0, ClaimListed(s, req).0, req, id, pruned);
    }
  }

  lemma CompactShrinks(s: StoreState, queue: string)
    ensures forall id :: id in Index(Compact(s, queue), queue) ==> id in Index(s, queue)
  {}

  lemma CompactedPlaces(s: StoreState, c: StoreState, t: StoreState, u: StoreState, req: ClaimRequest, id: string,
                        pruned: bool)
    requires LeasesOnly(c, t, id) && LeasesOnly(s, u, id) && c.messages == s.messages
    requires forall q :: q != req.queue ==> Index(c, q) == Index(s, q)
    requires forall x :: x in Index(s, req.queue) ==> x in s.messages && s.messages[x].msg.queue == req.queue
    requires forall x :: x in Index(c, req.queue) ==> x in Index(s, req.queue)
    requires id in Index(s, req.queue) && id !in Index(c, req.queue) ==> Terminal(s.messages[id].msg.state)
    requires Step(s, Op.Claim(req), true).0 == t && Step(s, Op.Claim(req), false).0 == u
    ensures Placed(s, Step(s, Op.Claim(req), pruned).0, Op.Claim(req), id, pruned)
  {
    hide Step;
    assert Index(t, req.queue) == Index(c, req.queue);
    if id in s.messages { assert Index(t, s.messages[id].msg.queue) == Index(c, s.messages[id].msg.queue); }
  }

  /** What leaves the index while the live listing stays was settled. */
  lemma CompactDropsSettled(s: StoreState, c: StoreState, queue: string, id: string)
    requires Inv(s) && id in s.messages && Live(s.messages, Index(c, queue)) == Live(s.messages, Index(s, queue))
    ensures id in Index(s, queue) && id !in Index(c, queue) ==>
              Terminal(s.messages[id].msg.state) && s.messages[id].msg.queue == queue
  {
    hide Inv, Index;
    QueueOkAt(s, queue);
    assert id in Live(s.messages, Index(s, queue)) <==> id in Index(s, queue) && !Terminal(s.messages[id].msg.state);
    assert id in Live(s.messages, Index(c, queue)) ==> id in Index(c, queue);
  }

  lemma QueueOkAt(s: StoreState, queue: string)
    requires Inv(s)
    ensures forall id :: id in Index(s, queue) ==> id in s.messages && s.messages[id].msg.queue == queue
  {
    assert QueueOk(s, queue);
  }

  lemma PurgePlaces(s: StoreState, queue: string, id: string, pruned: bool)
    requires Inv(s)
    ensures Placed(s, Step(s, Op.Purge(queue), pruned).0, Op.Purge(queue), id, pruned)
  {
    hide Inv, Filter;
    QueueOkAt(s, queue);
  }

  lemma DeletePlaces(s: StoreState, queue: string, id: string, pruned: bool)
    requires Inv(s)
    ensures Placed(s, Step(s, Op.DeleteQueue(queue), pruned).0, Op.DeleteQueue(queue), id, pruned)
  {
    hide Inv;
    QueueOkAt(s, queue);
  }

  /** Replacing one record moves no message between the listings. */
  lemma ReplacedPlaces(s: StoreState, next: (StoreState, Outcome<()>), x: string, change: Record -> Record, op: Op,
                       id: string, pruned: bool)
    requires Replaced(s, next, x, change) && !op.Claim?
    requires next.1.Ok? ==> change(s.messages[x]).msg.queue == s.messages[x].msg.queue
    ensures Placed(s, next.0, op, id, pruned)
  {
    hide Inv;
  }

  lemma LeasedPlaces(s: StoreState, op: Op, id: string, pruned: bool)
    requires Inv(s) && (op.Acknowledge? || op.ScheduleRetry? || op.Release? || op.MarkDeadLettered?)
    ensures Placed(s, Step(s, op, pruned).0, op, id, pruned)
  {
    hide Inv, Placed;
    hide StoreSpec.Acknowledge, StoreSpec.ScheduleRetry, StoreSpec.Release, StoreSpec.MarkDeadLettered;
    match op
    case Acknowledge(x, at) =>
      AcknowledgeReplaces(s, x, at);
      ReplacedPlaces(s, StoreSpec.Acknowledge(s, x, at), x, r => Acked(r, at), op, id, pruned);
    case ScheduleRetry(req) =>
      RetryReplaces(s, req);
      ReplacedPlaces(s, StoreSpec.ScheduleRetry(s, req), req.id, r => Retried(r, req), op, id, pruned);
    case Release(x, at) =>
      ReleaseReplaces(s, x, at);
      ReplacedPlaces(s, StoreSpec.Release(s, x, at), x, r => Released(r, at), op, id, pruned);
    case MarkDeadLettered(x, reason, at) =>
      MarkReplaces(s, x, reason, at);
      ReplacedPlaces(s, StoreSpec.MarkDeadLettered(s, x, reason, at), x, r => Buried(r, reason, at), op, id, pruned);
  }

  lemma StepPlaces(s: StoreState, op: Op, id: string, pruned: bool)
    requires Inv(s) && Proper(op, s.messages.Keys)
    ensures Placed(s, Step(s, op, pruned).0, op, id, pruned)
  {
    hide Inv;
    match op
    case Append(batch) => AppendPlaces(s, batch, id, pruned);
    case Claim(req) => ClaimPlaces(s, req, id, pruned);
    case Purge(queue) => PurgePlaces(s, queue, id, pruned);
    case DeleteQueue(queue) => DeletePlaces(s, queue, id, pruned);
    case Read(_) =>
    case ExpiredLeases(_, _) =>
    case Depth(_) =>
    case SaveQueue(_) =>
    case Close =>
    case _ => LeasedPlaces(s, op, id, pruned);
  }

  lemma StepStaysComplete(l: StoreState, op: Op)
    requires Inv(l) && Complete(l) && Proper(op, l.messages.Keys)
    ensures Complete(Step(l, op, false).0)
  {
    hide Inv, Step, Detached, Trims;
    var l' := Step(l, op, false).0;
    forall id | id in l'.messages
      ensures !Detached(l', id)
    {
      StepPlaces(l, op, id, false);
      if id !in l.messages { DetachedIsStored(l, id); }
    }
  }

  lemma DetachedIsStored(s: StoreState, id: string)
    requires id !in s.messages
    ensures !Detached(s, id)
  {}

  lemma DeleteLeaves(s: StoreState, l: StoreState, queue: string, id: string)
    requires Sim(s, l) && Complete(l)
    ensures var s', l' := Step(s, Op.DeleteQueue(queue), true).0, Step(l, Op.DeleteQueue(queue), false).0;
            Leftover(s', l', id) <==> Leftover(s, l, id) || Abandons(s, Op.DeleteQueue(queue), id)
  {
    hide Inv;
    QueueOkAt(s, queue);
    QueueOkAt(l, queue);
    assert SameQueue(s, l, queue);
  }

  lemma PurgeLeaves(s: StoreState, l: StoreState, queue: string, id: string)
    requires Sim(s, l)
    ensures var s', l' := Step(s, Op.Purge(queue), true).0, Step(l, Op.Purge(queue), false).0;
            Leftover(s', l', id) <==> Leftover(s, l, id)
  {
    hide Inv, Filter;
    assert SameQueue(s, l, queue);
  }

  lemma AppendLeaves(s: StoreState, l: StoreState, batch: seq<Message>, id: string)
    requires Sim(s, l) && Proper(Append(batch), s.messages.Keys)
    ensures var s', l' := Step(s, Append(batch), true).0, Step(l, Append(batch), false).0;
            Leftover(s', l', id) <==> Leftover(s, l, id)
  {
    hide Inv, AppendAll;
    AppendAllMessages(s, batch);
    AppendAllMessages(l, batch);
    assert forall i :: 0 <= i < |batch| ==> batch[i].id in BatchIds(batch);
  }

  /** No other operation adds or removes a message in one store only. */
  lemma SameKeys(s: StoreState, op: Op, pruned: bool)
    requires Inv(s) && !op.Append? && !op.Purge? && !op.DeleteQueue?
    ensures Step(s, op, pruned).0.messages.Keys == s.messages.Keys
  {
    hide Inv, Compact;
    if op.Claim? {
      CompactKeeps(s, op.request.queue);
    } else if op.ScheduleRetry? {
      if op.retry.id in s.messages { RecordAt(s, op.retry.id); }
    } else if op.Acknowledge? || op.Release? || op.MarkDeadLettered? {
      if op.id in s.messages { RecordAt(s, op.id); }
    }
  }

  lemma StepLeaves(s: StoreState, l: StoreState, op: Op, id: string)
    requires Sim(s, l) && Complete(l) && Proper(op, s.messages.Keys)
    ensures Leftover(Step(s, op, true).0, Step(l, op, false).0, id) <==> Leftover(s, l, id) || Abandons(s, op, id)
  {
    hide Step, Complete, Detached, Inv;
    match op
    case Append(batch) => AppendLeaves(s, l, batch, id);
    case Purge(queue) => PurgeLeaves(s, l, queue, id);
    case DeleteQueue(queue) => DeleteLeaves(s, l, queue, id);
    case _ =>
      SameKeys(s, op, true);
      SameKeys(l, op, false);
  }

  // ----- Every run -----

  ghost function Before(ops: seq<Op>, i: nat, pruned: bool): StoreState
    requires i <= |ops|
  {
    Final(EmptyStore(), ops[..i], pruned)
  }

  lemma {:induction false} ProperPrefix(ops: seq<Op>, used: set<string>, n: nat)
    requires ProperRun(ops, used) && n <= |ops|
    ensures ProperRun(ops[..n], used) && (n < |ops| ==> Proper(ops[n], used + AllIds(ops[..n])))
    decreases n
  {
    hide Proper, IdsOf;
    if n > 0 {
      ProperPrefix(ops[1..], used + IdsOf(ops[0]), n - 1);
      assert ops[..n][1..] == ops[1..][..n - 1] && ops[..n][0] == ops[0];
      assert used + IdsOf(ops[0]) + AllIds(ops[..n][1..]) == used + AllIds(ops[..n]);
    } else if n < |ops| {
      assert used + AllIds(ops[..0]) == used;
    }
  }

  lemma AlikeAt(ops: seq<Op>, n: nat)
    requires ProperRun(ops, {}) && n <= |ops|
    ensures Sim(Before(ops, n, true), Before(ops, n, false))
    ensures n < |ops| ==> Proper(ops[n], Before(ops, n, true).messages.Keys)
  {
    hide Step, Final, Proper, AllIds, Sim, OutputOk, ProperRun;
    ProperPrefix(ops, {}, n);
    StartSim();
    PruningIsInvisible(EmptyStore(), EmptyStore(), ops[..n], {});
    if n < |ops| { ProperFewer(ops[n], AllIds(ops[..n]), Before(ops, n, true).messages.Keys); }
  }

  lemma BeforeNext(ops: seq<Op>, n: nat, pruned: bool)
    requires n < |ops|
    ensures Before(ops, n + 1, pruned) == Step(Before(ops, n, pruned), ops[n], pruned).0
  {
    hide Step, Final;
    assert ops[..n + 1] == ops[..n] + [ops[n]];
    FinalAppend(EmptyStore(), ops[..n], [ops[n]], pruned);
    FinalOne(Before(ops, n, pruned), ops[n], pruned);
  }

  lemma StepAt(ops: seq<Op>, n: nat)
    requires ProperRun(ops, {}) && n < |ops|
    ensures var s, l := Before(ops, n, true), Before(ops, n, false);
            && Sim(s, l) && Proper(ops[n], s.messages.Keys)
            && Before(ops, n + 1, true) == Step(s, ops[n], true).0
            && Before(ops, n + 1, false) == Step(l, ops[n], false).0
  {
    hide Step, Before, Proper, Sim, ProperRun;
    AlikeAt(ops, n);
    BeforeNext(ops, n, true);
    BeforeNext(ops, n, false);
  }

  lemma StartSim()
    ensures Sim(EmptyStore(), EmptyStore())
  {}

  lemma ProperFewer(op: Op, used: set<string>, fewer: set<string>)
    requires Proper(op, {} + used) && fewer <= {} + used
    ensures Proper(op, fewer)
  {}

  lemma FinalOne(s: StoreState, op: Op, pruned: bool)
    ensures Final(s, [op], pruned) == Step(s, op, pruned).0
  {
    hide Step;
    assert [op][1..] == [];
  }

  /** The claim at `j` drops the message from the index of its queue. */
  ghost predicate TrimmedAt(ops: seq<Op>, j: nat, id: string) {
    j < |ops| && ops[j].Claim? && Trims(Before(ops, j, true), ops[j], id)
  }

  /** The queue is deleted at `k`. */
  ghost predicate DeletedAt(ops: seq<Op>, k: nat, queue: string) {
    k < |ops| && ops[k] == Op.DeleteQueue(queue) && queue in Before(ops, k, true).queues
  }

  /** Within the first `n` operations a claim trimmed the message and its queue was deleted afterwards. */
  ghost predicate Orphaned(ops: seq<Op>, n: nat, id: string) {
    exists j, k :: 0 <= j < k < n && TrimmedAt(ops, j, id) && DeletedAt(ops, k, ops[j].request.queue)
  }

  lemma {:induction false} DetachedIff(ops: seq<Op>, n: nat, id: string)
    requires ProperRun(ops, {}) && n <= |ops|
    ensures var s := Before(ops, n, true);
            && (Detached(s, id) <==> exists j :: 0 <= j < n && TrimmedAt(ops, j, id))
            && (forall j :: 0 <= j < n && TrimmedAt(ops, j, id) ==>
                  id in s.messages && s.messages[id].msg.queue == ops[j].request.queue)
    decreases n
  {
    hide Before, Detached, Trims, Step, Sim, ProperRun;
    if n == 0 {
      assert !Detached(Before(ops, 0, true), id) by { StartsEmpty(ops, id); }
    } else {
      DetachedIff(ops, n - 1, id);
      StepAt(ops, n - 1);
      assert Inv(Before(ops, n - 1, true)) by { SimInv(Before(ops, n - 1, true), Before(ops, n - 1, false)); }
      StepPlaces(Before(ops, n - 1, true), ops[n - 1], id, true);
      assert TrimmedAt(ops, n - 1, id) <==> Trims(Before(ops, n - 1, true), ops[n - 1], id) by {
        if Trims(Before(ops, n - 1, true), ops[n - 1], id) { TrimsIsClaim(Before(ops, n - 1, true), ops[n - 1], id); }
      }
      forall j | 0 <= j < n && TrimmedAt(ops, j, id)
        ensures id in Before(ops, n, true).messages
                && Before(ops, n, true).messages[id].msg.queue == ops[j].request.queue
      {}
    }
  }

  lemma TrimsIsClaim(s: StoreState, op: Op, id: string)
    requires Trims(s, op, id)
    ensures op.Claim?
  {}

  lemma SimInv(s: StoreState, l: StoreState)
    requires Sim(s, l)
    ensures Inv(s) && Inv(l) && l.messages.Keys <= s.messages.Keys
  {}

  lemma StartsEmpty(ops: seq<Op>, id: string)
    ensures !Detached(Before(ops, 0, true), id) && Complete(Before(ops, 0, false))
    ensures !Leftover(Before(ops, 0, true), Before(ops, 0, false), id)
  {
    assert ops[..0] == [];
  }

  /** At the end of a run a message is a leftover if and only if a claim trimmed it from its queue's index,
      which happens to settled messages only, and that queue was deleted afterwards. */
  lemma {:induction false} LeftoverIff(ops: seq<Op>, n: nat, id: string)
    requires ProperRun(ops, {}) && n <= |ops|
    ensures Complete(Before(ops, n, false))
    ensures Leftover(Before(ops, n, true), Before(ops, n, false), id) <==> Orphaned(ops, n, id)
    decreases n
  {
    hide Before, Detached, Trims, Step, Sim, ProperRun, Leftover, Complete;
    if n == 0 {
      StartsEmpty(ops, id);
    } else {
      var s, l := Before(ops, n - 1, true), Before(ops, n - 1, false);
      LeftoverIff(ops, n - 1, id);
      StepAt(ops, n - 1);
      SimInv(s, l);
      ProperFewer(ops[n - 1], s.messages.Keys, l.messages.Keys);
      StepStaysComplete(l, ops[n - 1]);
      StepLeaves(s, l, ops[n - 1], id);
      DetachedIff(ops, n - 1, id);
      AbandonedAt(ops, n - 1, id);
    }
  }

  lemma AbandonedAt(ops: seq<Op>, k: nat, id: string)
    requires k < |ops|
    requires Detached(Before(ops, k, true), id) <==> exists j :: 0 <= j < k && TrimmedAt(ops, j, id)
    requires forall j :: 0 <= j < k && TrimmedAt(ops, j, id) ==>
               id in Before(ops, k, true).messages && Before(ops, k, true).messages[id].msg.queue
                 == ops[j].request.queue
    ensures Abandons(Before(ops, k, true), ops[k], id) <==>
            exists j :: 0 <= j < k && TrimmedAt(ops, j, id) && DeletedAt(ops, k, ops[j].request.queue)
  {
    hide Before, Trims, Detached;
  }

  /** A trimmed message was settled, and stays stored as it was. */
  lemma TrimmedIsSettled(ops: seq<Op>, j: nat, id: string)
    requires ProperRun(ops, {}) && TrimmedAt(ops, j, id)
    ensures var s := Before(ops, j, true);
            && id in s.messages && Terminal(s.messages[id].msg.state)
               && s.messages[id].msg.queue == ops[j].request.queue
            && id in Before(ops, j + 1, true).messages && Before(ops, j + 1, true).messages[id] == s.messages[id]
  {
    hide Before, Detached, Trims, Step, Sim, ProperRun;
    StepAt(ops, j);
    SimInv(Before(ops, j, true), Before(ops, j, false));
    StepPlaces(Before(ops, j, true), ops[j], id, true);
  }

  /** The identifier an operation names, if it names one. */
  ghost predicate Names(op: Op, id: string) {
    match op
    case Acknowledge(x, _) => x == id
    case ScheduleRetry(req) => req.id == id
    case Release(x, _) => x == id
    case MarkDeadLettered(x, _, _) => x == id
    case Read(x) => x == id
    case _ => false
  }

  lemma NamesLeftoverIff(s: StoreState, l: StoreState, op: Op)
    ensures NamesLeftover(s, l, op) <==> exists id :: Names(op, id) && Leftover(s, l, id)
  {
    hide Leftover;
    match op
    case Acknowledge(id, _) => assert Names(op, id);
    case ScheduleRetry(req) => assert Names(op, req.id);
    case Release(id, _) => assert Names(op, id);
    case MarkDeadLettered(id, _, _) => assert Names(op, id);
    case Read(id) => assert Names(op, id);
    case _ =>
  }

  /** So in every run from the empty store, an output differs from the log's if and only if its operation names
      a message that a claim trimmed and whose queue was deleted afterwards; and then the difference is the
      trace of a leftover. */
  lemma OutputDiffersIff(ops: seq<Op>, i: nat)
    requires ProperRun(ops, {}) && i < |ops|
    ensures var out, ref := Outputs(EmptyStore(), ops, true)[i], Outputs(EmptyStore(), ops, false)[i];
            && (out != ref <==> exists id :: Names(ops[i], id) && Orphaned(ops, i, id))
            && (out != ref ==> Trace(out, ref))
  {
    hide Outputs, Orphaned, ProperRun, Final, NamesLeftover, Leftover, Names;
    EveryRunRefinesTheLog(ops);
    assert OutputOk(EmptyStore(), EmptyStore(), ops, i);
    NamesLeftoverIff(Before(ops, i, true), Before(ops, i, false), ops[i]);
    forall id
      ensures Leftover(Before(ops, i, true), Before(ops, i, false), id) <==> Orphaned(ops, i, id)
    {
      LeftoverIff(ops, i, id);
    }
  }
}
