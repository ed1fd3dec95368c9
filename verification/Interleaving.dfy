/** Any number of engine calls at once. A call is a program whose next transaction depends on what it has read;
    calls begin at any time and their transactions interleave in any order. Every such run is a legal run of the
    delivery protocol, so what holds of those holds of every concurrent use of the engine. */
module Interleaving {
  import opened Sequences
  import opened Messages
  import opened StoreSpec
  import opened StoreInvariant
  import opened Leasing
  import opened DeadLetterSpec
  import opened Retry
  import opened Delivery
  import opened Finality
  import S = Settling
  import R = Reclaiming
  import E = EngineRuns

  /** What a call still has to do. Some kinds are whole calls or begin one; the others are their
      continuations, after a snapshot was read or a record was saved. */
  datatype Task =
    | Single(step: Step)
    | Nacking(id: string, cause: S.Cause, deadId: string, firstFailedAt: int, roll: real, now: int)
    | Sweeping(deadIds: nat -> string, failures: map<string, int>, now: int)
    | Failing(m: Message, cause: S.Cause, deadId: string, firstFailedAt: int, roll: real, now: int)
    | Expiring(m: Message, deadId: string, firstFailedAt: int, now: int)
    | Saving(m: Message, deadId: string, reason: string, kind: string, firstFailedAt: int, now: int)
    | Marking(m: Message, reason: string, permanent: bool, now: int)
    | LookingUp(deadId: string, id: string, maxAttempts: int, now: int)
    | Replaying(record: DeadLetter, id: string, maxAttempts: int, now: int)

  /** The transaction a task issues now, if it issues one. */
  ghost function Next(task: Task, p: Policy): (r: seq<Step>)
    ensures |r| <= 1
  {
    match task
    case Single(step) => [step]
    case Nacking(id, _, _, _, _, _) => [Read(id)]
    case Sweeping(_, _, now) => [Scan(now, R.RECLAIM_BATCH_SIZE)]
    case Failing(m, cause, _, _, roll, now) =>
      if !cause.permanent && p.ShouldRetry(m.attempts) then [Retry(m, cause.reason, now, roll)] else []
    case Expiring(m, _, _, now) => if p.ShouldRetry(m.attempts) then [Reclaim(m, now)] else []
    case Saving(m, deadId, reason, kind, at, now) => [SaveDead(m, deadId, reason, kind, at, now)]
    case Marking(m, reason, permanent, now) => [MarkDead(m, reason, permanent, now)]
    case LookingUp(_, _, _, _) => []
    case Replaying(record, id, maxAttempts, now) => [Replay(record, id, maxAttempts, now)]
  }

  ghost function Expirings(ms: seq<Message>, deadIds: nat -> string, failures: map<string, int>, now: int)
    : (r: seq<Task>)
    ensures |r| == |ms|
    ensures forall i :: 0 <= i < |ms| ==>
              r[i] == Expiring(ms[i], deadIds(i), S.FirstFailure(failures, ms[i].id, now), now)
  {
    seq(|ms|, i requires 0 <= i < |ms| => Expiring(ms[i], deadIds(i), S.FirstFailure(failures, ms[i].id, now), now))
  }

  /** What is left to do after that, given the world the transaction met. */
  ghost function Rest(w: World, task: Task, p: Policy): seq<Task> {
    match task
    case Nacking(id, cause, deadId, at, roll, now) =>
      if id in w.store.messages then [Failing(w.store.messages[id].msg, cause, deadId, at, roll, now)] else []
    case Sweeping(deadIds, failures, now) =>
      Expirings(ExpiredLeases(w.store, now, R.RECLAIM_BATCH_SIZE), deadIds, failures, now)
    case Failing(m, cause, deadId, at, _, now) =>
      var kind := if cause.permanent then S.KIND_PERMANENT else S.KIND_HANDLER;
      if !cause.permanent && p.ShouldRetry(m.attempts) then [] else [Saving(m, deadId, cause.reason, kind, at, now)]
    case Expiring(m, deadId, at, now) =>
      if p.ShouldRetry(m.attempts) then [] else [Saving(m, deadId, R.LEASE_EXPIRED, R.KIND_EXPIRED, at, now)]
    case Saving(m, deadId, reason, kind, _, now) =>
      if w.store.closed || deadId in w.book then [] else [Marking(m, reason, kind == S.KIND_PERMANENT, now)]
    case LookingUp(deadId, id, maxAttempts, now) =>
      if deadId in w.book then [Replaying(w.book[deadId], id, maxAttempts, now)] else []
    case Replaying(record, id, maxAttempts, now) =>
      if Append(w.store, [ReplayOf(record, id, maxAttempts, now)]).1.Err? then []
      else [Single(Replayed(record.id, id, now))]
    case _ => []
  }

  /** The identifiers a task has drawn for messages it may yet publish or reject. */
  function Drawn(task: Task): set<string> {
    match task
    case Single(Publish(batch)) => BatchIds(batch)
    case Single(Park(rejected, _, _, _)) => {rejected.id}
    case LookingUp(_, id, _, _) => {id}
    case Replaying(_, id, _, _) => {id}
    case _ => {}
  }

  /** Transactions that rest on nothing the call has read. */
  ghost predicate Plain(step: Step) {
    match step
    case Publish(batch) => Appendable(batch)
    case Claim(req) => req.now + req.lease != ZERO_TIME
    case Park(_, deadId, _, _) => deadId != ""
    case Retry(_, _, _, _) => false
    case Reclaim(_, _) => false
    case SaveDead(_, _, _, _, _, _) => false
    case MarkDead(_, _, _, _) => false
    case Replay(_, _, _, _) => false
    case _ => true
  }

  /** The lease of this delivery, if it is still the current one, has ended by then. */
  ghost predicate HasEnded(w: World, m: Message, now: int) {
    m.id in w.store.messages ==>
      var r := w.store.messages[m.id];
      r.msg.state == Processing && r.msg.attempts == m.attempts ==> r.lease <= now
  }

  /** What a task rests on. None of it can be taken back by others. */
  ghost predicate TaskOk(w: World, task: Task, p: Policy) {
    match task
    case Single(step) => Plain(step)
    case Nacking(_, _, deadId, _, roll, _) => deadId != "" && 0.0 <= roll < 1.0
    case Sweeping(deadIds, _, _) => forall i :: 0 <= i ==> deadIds(i) != ""
    case Failing(m, _, deadId, _, roll, _) => m in w.seen && deadId != "" && 0.0 <= roll < 1.0
    case Expiring(m, deadId, _, now) => m in w.seen && deadId != "" && HasEnded(w, m, now)
    case Saving(m, deadId, _, kind, _, _) =>
      m in w.seen && deadId != "" && (kind == S.KIND_PERMANENT || p.maxAttempts <= m.attempts)
    case Marking(m, _, permanent, _) =>
      m in w.seen && HasRecord(w.recorded, ContentOf(m)) && (permanent || p.maxAttempts <= m.attempts)
    case LookingUp(_, _, _, _) => true
    case Replaying(record, _, _, _) => HasRecord(w.recorded, record.content)
  }

  // ----- One task -----

  lemma StillEnded(w: World, w': World, m: Message, now: int, p: Policy)
    requires WorldOk(w, p) && WorldOk(w', p) && Later(w, w') && m in w.seen && HasEnded(w, m, now)
    ensures HasEnded(w', m, now)
  {
    hide Inv, BookOk, MessageOk, StoredOk;
    assert SeenOk(w, m) && NotUndone(w, w', m.id);
  }

  lemma Stable(w: World, w': World, task: Task, p: Policy)
    requires TaskOk(w, task, p) && w.seen <= w'.seen && w.recorded <= w'.recorded
    requires WorldOk(w, p) && WorldOk(w', p) && Later(w, w')
    ensures TaskOk(w', task, p)
  {
    hide WorldOk, Later, HasEnded;
    if task.Expiring? { StillEnded(w, w', task.m, task.now, p); }
  }

  lemma NextEnabled(w: World, task: Task, p: Policy)
    requires TaskOk(w, task, p) && Drawn(task) !! w.published.Keys && Next(task, p) != []
    ensures Enabled(w, Next(task, p)[0], p)
  {
    match task
    case Single(Publish(batch)) =>
      assert forall i :: 0 <= i < |batch| ==> batch[i].id in BatchIds(batch);
    case _ =>
  }

  /** The world after the task's transaction. */
  ghost function After(w: World, task: Task, p: Policy): World {
    if Next(task, p) == [] then w else Apply(w, Next(task, p)[0], p)
  }

  lemma AfterIsLater(w: World, task: Task, p: Policy)
    requires WorldOk(w, p) && p.Valid() && TaskOk(w, task, p) && Drawn(task) !! w.published.Keys
    ensures var w' := After(w, task, p);
            && WorldOk(w', p) && w.seen <= w'.seen && w.recorded <= w'.recorded && Later(w, w')
            && Legal(w, Next(task, p), p) && Run(w, Next(task, p), p) == w'
  {
    hide WorldOk, Enabled, Apply, TaskOk, Drawn;
    LaterRefl(w);
    if Next(task, p) != [] {
      var step := Next(task, p)[0];
      NextEnabled(w, task, p);
      StepKeeps(w, step, p);
      StepIsLater(w, step, p);
      E.SeenGrows(w, step, p);
      E.OneStep(w, step, p);
      assert Next(task, p) == [step];
    }
  }

  /** Only drawn identifiers are published. */
  lemma PublishesDrawn(w: World, task: Task, p: Policy)
    requires TaskOk(w, task, p) && (forall id :: id in w.published ==> w.published[id].id == id)
    ensures After(w, task, p).published.Keys <= w.published.Keys + Drawn(task)
  {
    hide Apply, Enter;
    match task
    case Single(Publish(batch)) => EntersOnly(w, batch, p);
    case Replaying(record, id, maxAttempts, now) =>
      var m := ReplayOf(record, id, maxAttempts, now);
      EntersOnly(w, [m], p);
      assert BatchIds([m]) == {id} by { assert [m][0].id in BatchIds([m]); }
      ReplayEnters(w, record, id, maxAttempts, now, p);
    case Single(step) => PublishesNothing(w, step, p);
    case LookingUp(_, _, _, _) =>
    case _ =>
      if Next(task, p) != [] { PublishesNothing(w, Next(task, p)[0], p); }
  }

  lemma EntersOnly(w: World, batch: seq<Message>, p: Policy)
    requires forall id :: id in w.published ==> w.published[id].id == id
    ensures Enter(w, batch).published.Keys <= w.published.Keys + BatchIds(batch)
    ensures Apply(w, Publish(batch), p) == Enter(w, batch)
  {
    hide AppendAll, Enrol;
    EnrolledIds(w.published, batch);
  }

  lemma ReplayEnters(w: World, record: DeadLetter, id: string, maxAttempts: int, now: int, p: Policy)
    ensures Apply(w, Replay(record, id, maxAttempts, now), p) == Enter(w, [ReplayOf(record, id, maxAttempts, now)])
  {
    hide Enter;
  }

  lemma PublishesNothing(w: World, step: Step, p: Policy)
    requires !step.Publish? && !step.Replay?
    ensures Apply(w, step, p).published == w.published
  {
    hide StoreSpec.Claim, ExpiredLeases, CountClaims;
  }

  lemma NackingRest(w: World, task: Task, p: Policy)
    requires TaskOk(w, task, p) && task.Nacking?
    ensures forall t :: t in Rest(w, task, p) ==> TaskOk(After(w, task, p), t, p)
  {}

  lemma SweepingRest(w: World, task: Task, p: Policy)
    requires WorldOk(w, p) && TaskOk(w, task, p) && task.Sweeping?
    ensures forall t :: t in Rest(w, task, p) ==> TaskOk(After(w, task, p), t, p)
  {
    hide ExpiredLeases, WorldOk, Inv;
    StoreIsOk(w, p);
    ScanFindsTheEnded(w.store, task.now, R.RECLAIM_BATCH_SIZE);
    var found := ExpiredLeases(w.store, task.now, R.RECLAIM_BATCH_SIZE);
    assert forall i :: 0 <= i < |found| ==> found[i] in found;
  }

  lemma SavingRest(w: World, task: Task, p: Policy)
    requires TaskOk(w, task, p) && task.Saving?
    ensures forall t :: t in Rest(w, task, p) ==> TaskOk(After(w, task, p), t, p)
  {
    if !w.store.closed && task.deadId !in w.book {
      var record := NewRecord(task.deadId, task.m, task.reason, task.kind, task.firstFailedAt, task.now);
      assert record in After(w, task, p).recorded;
    }
  }

  lemma RestOk(w: World, task: Task, p: Policy)
    requires WorldOk(w, p) && TaskOk(w, task, p)
    ensures forall t :: t in Rest(w, task, p) ==> TaskOk(After(w, task, p), t, p)
  {
    hide Apply, ExpiredLeases, Append, Inv, BookOk, StoredOk, SeenOk;
    match task
    case Nacking(_, _, _, _, _, _) => NackingRest(w, task, p);
    case Sweeping(_, _, _) => SweepingRest(w, task, p);
    case Saving(_, _, _, _, _, _) => SavingRest(w, task, p);
    case _ =>
  }

  /** A continuation holds no identifiers, unless nothing was published yet. */
  lemma RestDraws(w: World, task: Task, p: Policy)
    ensures forall t :: t in Rest(w, task, p) ==> Drawn(t) == {} || (Next(task, p) == [] && Drawn(t) <= Drawn(task))
    ensures forall i :: 1 <= i < |Rest(w, task, p)| ==> Drawn(Rest(w, task, p)[i]) == {}
  {
    hide ExpiredLeases, Append;
  }

  /** Left alone, a failing delivery does what the engine's call does. */
  lemma FailingAlone(w: World, m: Message, cause: S.Cause, p: Policy, deadId: string, failures: map<string, int>,
                     roll: real, now: int)
    ensures var first := Failing(m, cause, deadId, S.FirstFailure(failures, m.id, now), roll, now);
            var w1 := After(w, first, p);
            var second := Rest(w, first, p);
            var w2 := if second == [] then w1 else After(w1, second[0], p);
            var third := if second == [] then [] else Rest(w1, second[0], p);
            var w3 := if third == [] then w2 else After(w2, third[0], p);
            E.Held(w3) == S.Fail(E.Held(w), m, cause, p, deadId, failures, roll, now)
  {
    var second := Rest(w, Failing(m, cause, deadId, S.FirstFailure(failures, m.id, now), roll, now), p);
    if second == [] {
      E.RetryHeld(w, m, cause.reason, now, roll, p);
    } else {
      SavingAlone(w, second[0], p);
    }
  }

  lemma SavingAlone(w: World, task: Task, p: Policy)
    requires task.Saving?
    ensures var w1 := After(w, task, p);
            var rest := Rest(w, task, p);
            var w2 := if rest == [] then w1 else After(w1, rest[0], p);
            var record := NewRecord(task.deadId, task.m, task.reason, task.kind, task.firstFailedAt, task.now);
            E.Held(w2) == if w.store.closed || task.deadId in w.book then E.Held(w)
                          else E.Held(Keep(w, record))
                               .(store := MarkDeadLettered(w.store, task.m.id, task.reason, task.now).0)
  {}

  /** And an expired lease is handled as in an uninterrupted pass. */
  lemma ExpiringAlone(w: World, m: Message, p: Policy, deadId: string, failures: map<string, int>, now: int)
    ensures var first := Expiring(m, deadId, S.FirstFailure(failures, m.id, now), now);
            var w1 := After(w, first, p);
            var second := Rest(w, first, p);
            var w2 := if second == [] then w1 else After(w1, second[0], p);
            var third := if second == [] then [] else Rest(w1, second[0], p);
            var w3 := if third == [] then w2 else After(w2, third[0], p);
            E.Held(w3) == R.ReclaimOne(E.Held(w), m, p, deadId, failures, now)
  {
    var second := Rest(w, Expiring(m, deadId, S.FirstFailure(failures, m.id, now), now), p);
    if second == [] {
      assert E.Held(Apply(w, Delivery.Reclaim(m, now), p)) == E.Held(w).(store := Release(w.store, m.id, now).0);
    } else {
      SavingAlone(w, second[0], p);
    }
  }

  // ----- All calls together -----

  /** The calls under way, each with the tasks it still has to do. */
  datatype System = System(world: World, calls: map<nat, seq<Task>>)

  datatype Event = Begin(k: nat, task: Task) | Proceed(k: nat)

  function Held(calls: map<nat, seq<Task>>, k: nat): set<string> {
    if k in calls && calls[k] != [] then Drawn(calls[k][0]) else {}
  }

  /** The tasks a call can begin with; the others are continuations. */
  predicate Begins(task: Task) {
    task.Single? || task.Nacking? || task.Sweeping? || task.Failing? || task.LookingUp?
  }

  /** A call begins with what it was handed: a message that was delivered, new identifiers. */
  ghost predicate May(s: System, e: Event, p: Policy) {
    match e
    case Begin(k, task) =>
      && k !in s.calls && Begins(task) && TaskOk(s.world, task, p) && Drawn(task) !! s.world.published.Keys
      && forall j :: j in s.calls ==> Drawn(task) !! Held(s.calls, j)
    case Proceed(k) => k in s.calls && s.calls[k] != []
  }

  ghost function Trace(s: System, e: Event, p: Policy): seq<Step>
    requires May(s, e, p)
  {
    match e
    case Begin(_, _) => []
    case Proceed(k) => Next(s.calls[k][0], p)
  }

  ghost function Happen(s: System, e: Event, p: Policy): System
    requires May(s, e, p)
  {
    match e
    case Begin(k, task) => s.(calls := s.calls[k := [task]])
    case Proceed(k) =>
      var task, later := s.calls[k][0], s.calls[k][1..];
      System(After(s.world, task, p), s.calls[k := Rest(s.world, task, p) + later])
  }

  ghost predicate CallOk(s: System, k: nat, p: Policy) {
    k in s.calls ==>
      && (forall i :: 0 <= i < |s.calls[k]| ==> TaskOk(s.world, s.calls[k][i], p))
      && (forall i :: 1 <= i < |s.calls[k]| ==> Drawn(s.calls[k][i]) == {})
      && Held(s.calls, k) !! s.world.published.Keys
  }

  ghost predicate SystemOk(s: System, p: Policy) {
    && WorldOk(s.world, p)
    && (forall k :: CallOk(s, k, p))
    && (forall j, k :: j != k ==> Held(s.calls, j) !! Held(s.calls, k))
  }

  lemma CallProceeds(s: System, k: nat, p: Policy)
    requires SystemOk(s, p) && p.Valid() && May(s, Proceed(k), p)
    ensures CallOk(Happen(s, Proceed(k), p), k, p)
    ensures Held(Happen(s, Proceed(k), p).calls, k) <= Held(s.calls, k)
  {
    hide WorldOk, TaskOk, Drawn, Next, Rest, Apply, Later;
    var task, later := s.calls[k][0], s.calls[k][1..];
    var s' := Happen(s, Proceed(k), p);
    assert CallOk(s, k, p);
    AfterIsLater(s.world, task, p);
    NamesAreOwn(s.world, p);
    PublishesDrawn(s.world, task, p);
    RestOk(s.world, task, p);
    RestDraws(s.world, task, p);
    var rest := Rest(s.world, task, p);
    assert s'.calls[k] == rest + later;
    forall i | 0 <= i < |rest + later|
      ensures TaskOk(s'.world, (rest + later)[i], p) && (i >= 1 ==> Drawn((rest + later)[i]) == {})
    {
      if i >= |rest| { Stable(s.world, s'.world, later[i - |rest|], p); } else { assert rest[i] in rest; }
    }
    if rest != [] { assert rest[0] in rest; }
  }

  lemma NamesAreOwn(w: World, p: Policy)
    requires WorldOk(w, p)
    ensures forall id :: id in w.published ==> w.published[id].id == id
  {}

  lemma OthersWait(s: System, k: nat, j: nat, p: Policy)
    requires SystemOk(s, p) && p.Valid() && May(s, Proceed(k), p) && j != k
    ensures CallOk(Happen(s, Proceed(k), p), j, p)
  {
    hide WorldOk, TaskOk, Drawn, Next, Rest, Apply, Later;
    var task := s.calls[k][0];
    var s' := Happen(s, Proceed(k), p);
    assert CallOk(s, j, p) && CallOk(s, k, p);
    AfterIsLater(s.world, task, p);
    NamesAreOwn(s.world, p);
    PublishesDrawn(s.world, task, p);
    assert Held(s'.calls, j) == Held(s.calls, j) && Held(s.calls, k) == Drawn(task);
    if j in s.calls {
      forall i | 0 <= i < |s.calls[j]|
        ensures TaskOk(s'.world, s.calls[j][i], p)
      {
        Stable(s.world, s'.world, s.calls[j][i], p);
      }
    }
  }

  /** Whatever happens, each call's next transaction is one the protocol allows. */
  lemma EventKeeps(s: System, e: Event, p: Policy)
    requires SystemOk(s, p) && p.Valid() && May(s, e, p)
    ensures var s' := Happen(s, e, p);
            && SystemOk(s', p)
            && Legal(s.world, Trace(s, e, p), p) && Run(s.world, Trace(s, e, p), p) == s'.world
  {
    hide WorldOk, TaskOk, Drawn, Next, Rest, After, Later;
    var s' := Happen(s, e, p);
    match e
    case Begin(k, task) =>
      forall j
        ensures CallOk(s', j, p)
      {
        assert CallOk(s, j, p);
      }
      forall i, j | i != j
        ensures Held(s'.calls, i) !! Held(s'.calls, j)
      {
        assert Held(s.calls, i) !! Held(s.calls, j);
      }
    case Proceed(k) =>
      assert CallOk(s, k, p);
      AfterIsLater(s.world, s.calls[k][0], p);
      CallProceeds(s, k, p);
      forall j
        ensures CallOk(s', j, p) && (j != k ==> Held(s'.calls, j) == Held(s.calls, j))
      {
        if j != k { OthersWait(s, k, j, p); }
      }
  }

  // ----- Every concurrent use -----

  ghost predicate Possible(s: System, events: seq<Event>, p: Policy)
    decreases |events|
  {
    events == [] || (May(s, events[0], p) && Possible(Happen(s, events[0], p), events[1..], p))
  }

  ghost function End(s: System, events: seq<Event>, p: Policy): System
    requires Possible(s, events, p)
    decreases |events|
  {
    if events == [] then s else End(Happen(s, events[0], p), events[1..], p)
  }

  ghost function Traces(s: System, events: seq<Event>, p: Policy): seq<Step>
    requires Possible(s, events, p)
    decreases |events|
  {
    if events == [] then [] else Trace(s, events[0], p) + Traces(Happen(s, events[0], p), events[1..], p)
  }

  lemma {:induction false} EveryUseIsARun(s: System, events: seq<Event>, p: Policy)
    requires SystemOk(s, p) && p.Valid() && Possible(s, events, p)
    ensures SystemOk(End(s, events, p), p)
    ensures Legal(s.world, Traces(s, events, p), p) && Run(s.world, Traces(s, events, p), p) == End(s, events, p).world
    decreases |events|
  {
    hide SystemOk, May, Happen, Trace, Legal, Run;
    if events == [] {
      E.NoSteps(s.world, p);
      NoRun(s.world, p);
    } else {
      EventKeeps(s, events[0], p);
      EveryUseIsARun(Happen(s, events[0], p), events[1..], p);
      E.RunAppend(s.world, Trace(s, events[0], p), Traces(Happen(s, events[0], p), events[1..], p), p);
    }
  }

  lemma NoRun(w: World, p: Policy)
    ensures Legal(w, [], p) && Run(w, [], p) == w
  {}

  /** So under any number of concurrent calls no published message is lost. */
  lemma NothingIsLost(events: seq<Event>, p: Policy, id: string)
    requires p.Valid() && Possible(System(Start(), map[]), events, p)
    requires id in End(System(Start(), map[]), events, p).world.published
    ensures var w := End(System(Start(), map[]), events, p).world;
            && One(InPlay(w, id)) + One(IsIn(w, id, Acknowledged)) + One(IsIn(w, id, DeadLettered))
               + One(id in w.removed) == 1
            && (IsIn(w, id, DeadLettered) ==> HasRecord(w.recorded, ContentOf(w.published[id])))
            && (id in w.store.messages ==> ContentOf(w.store.messages[id].msg) == ContentOf(w.published[id]))
  {
    hide WorldOk, Run, Legal, InPlay, IsIn, HasRecord;
    var s := System(Start(), map[]);
    StartOk(p);
    EveryUseIsARun(s, events, p);
    NoMessageIsLost(Traces(s, events, p), p, id);
  }
}
