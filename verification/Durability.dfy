/** Restarting the engine: what its calls leave in the store, and the registry that is restored from it. Only
    durable exchanges and queues are saved; bindings always are. */
module Durability {
  import opened Ordering
  import opened TopologySpec
  import opened TopologyRuns

  /** The saved topology; bindings are kept by key. */
  datatype Disk = Disk(exchanges: map<string, Exchange>, queues: map<string, Queue>, bindings: map<string, Binding>)

  const BLANK := Disk(map[], map[], map[])

  /** What one engine call saves or deletes after the registry has answered. */
  function Save(d: Disk, op: Op, reply: Reply): Disk {
    match (op, reply)
    case (DoDeclareExchange(_, _), OfExchange(Fine(e))) =>
      if e.spec.durable then d.(exchanges := d.exchanges[e.spec.name := e]) else d
    case (DoDeclareQueue(_, _), OfQueue(Fine(q))) =>
      if q.spec.durable then d.(queues := d.queues[q.spec.name := q]) else d
    case (DoBind(_, _), OfBinding(Fine(b))) => d.(bindings := d.bindings[Key(b.spec) := b])
    case (DoUnbind(spec), OfUnit(Fine(_))) => d.(bindings := d.bindings - {Key(spec)})
    case (DoDeleteQueue(name), OfUnit(Fine(_))) => d.(queues := d.queues - {name})
    case _ => d
  }

  ghost function Saved(t: Topology, d: Disk, ops: seq<Op>): Disk
    decreases |ops|
  {
    if ops == [] then d
    else
      var (t', reply) := Step(t, ops[0]);
      Saved(t', Save(d, ops[0], reply), ops[1..])
  }

  /** A new registry filled from the store's listings. */
  ghost function Restart(d: Disk): Topology {
    Restore(EmptyTopology(), ListingBy(ExchangeName(), d.exchanges.Values), ListingBy(QueueName(), d.queues.Values),
            ListingBy(BindingKey(), d.bindings.Values))
  }

  // ----- The store mirrors the registry -----

  ghost predicate KeepsBindings(t: Topology, d: Disk) {
    && (forall k :: k in d.bindings ==> Key(d.bindings[k].spec) == k && d.bindings[k] in AllBound(t))
    && (forall b :: b in AllBound(t) ==> Key(b.spec) in d.bindings && d.bindings[Key(b.spec)] == b)
  }

  ghost predicate KeepsExchanges(all: map<string, Exchange>, kept: map<string, Exchange>) {
    && (forall n :: n in kept <==> n in all && all[n].spec.durable)
    && (forall n :: n in kept ==> kept[n] == all[n])
  }

  ghost predicate KeepsQueues(all: map<string, Queue>, kept: map<string, Queue>) {
    && (forall n :: n in kept <==> n in all && all[n].spec.durable)
    && (forall n :: n in kept ==> kept[n] == all[n])
  }

  ghost predicate Mirrors(t: Topology, d: Disk) {
    KeepsExchanges(t.exchanges, d.exchanges) && KeepsQueues(t.queues, d.queues) && KeepsBindings(t, d)
  }

  lemma BoundAfterBind(t: Topology, spec: BindingSpec, now: int)
    requires TopologyOk(t) && Bind(t, spec, now).1.Fine?
    ensures var (t', r) := Bind(t, spec, now);
            forall b :: b in AllBound(t') <==> b in AllBound(t) || b == r.value
  {
    hide TopologyOk, CheckBinding, Key;
    var (t', r) := Bind(t, spec, now);
    forall b
      ensures b in AllBound(t') <==> b in AllBound(t) || b == r.value
    {
      BoundIn(t, b);
      BoundIn(t', b);
      forall e
        ensures b in BindingsOf(t', e) <==> b in BindingsOf(t, e) || (e == spec.exchange && b == r.value)
      {}
    }
  }

  lemma BoundIn(t: Topology, b: Binding)
    ensures b in AllBound(t) <==> exists e :: b in BindingsOf(t, e)
  {
    if b in AllBound(t) {
      var e :| e in t.bindings && b in t.bindings[e];
      assert b in BindingsOf(t, e);
    }
  }

  lemma BindMirrors(t: Topology, d: Disk, spec: BindingSpec, now: int)
    requires TopologyOk(t) && KeepsBindings(t, d) && Bind(t, spec, now).1.Fine?
    ensures var (t', r) := Bind(t, spec, now);
            KeepsBindings(t', d.(bindings := d.bindings[Key(r.value.spec) := r.value]))
  {
    hide TopologyOk, AllBound, Bind, Key;
    var (t', r) := Bind(t, spec, now);
    BoundAfterBind(t, spec, now);
    BindKeeps(t, spec, now);
    forall b | b in AllBound(t') && Key(b.spec) == Key(r.value.spec)
      ensures b == r.value
    {
      KeysAreGlobal(t', b, r.value);
    }
  }

  lemma BoundAfterUnbind(t: Topology, spec: BindingSpec)
    requires TopologyOk(t) && Unbind(t, spec).1.Fine?
    ensures var t' := Unbind(t, spec).0;
            forall b :: b in AllBound(t') <==> b in AllBound(t) && Key(b.spec) != Key(spec)
  {
    var bs := BindingsOf(t, spec.exchange);
    var i := Find(bs, Key(spec));
    var t' := Unbind(t, spec).0;
    assert TableOk(t, spec.exchange);
    CutKeepsKeys(bs, i);
    assert bs[i] in AllBound(t) by { BoundIn(t, bs[i]); }
    forall b
      ensures b in AllBound(t') <==> b in AllBound(t) && Key(b.spec) != Key(spec)
    {
      BoundIn(t, b);
      BoundIn(t', b);
      forall e
        ensures b in BindingsOf(t', e) <==> b in BindingsOf(t, e) && !(e == spec.exchange && b == bs[i])
        ensures b in BindingsOf(t, e) ==> b.spec.exchange == e
      {
        if b in BindingsOf(t, e) { assert TableOk(t, e) && BindingOk(t, e, b); }
      }
      assert bs[i] in bs && bs[i].spec.exchange == spec.exchange by { assert BindingOk(t, spec.exchange, bs[i]); }
      if b in AllBound(t) && Key(b.spec) == Key(spec) { KeysAreGlobal(t, b, bs[i]); }
    }
  }

  lemma UnbindMirrors(t: Topology, d: Disk, spec: BindingSpec)
    requires TopologyOk(t) && KeepsBindings(t, d) && Unbind(t, spec).1.Fine?
    ensures KeepsBindings(Unbind(t, spec).0, d.(bindings := d.bindings - {Key(spec)}))
  {
    hide TopologyOk, AllBound, Unbind, Key;
    BoundAfterUnbind(t, spec);
  }

  lemma SameBindings(t: Topology, t': Topology, d: Disk, d': Disk)
    requires KeepsBindings(t, d) && t'.bindings == t.bindings && d'.bindings == d.bindings
    ensures KeepsBindings(t', d')
  {
    assert AllBound(t') == AllBound(t);
  }

  lemma DeclareExchangeMirrors(t: Topology, d: Disk, spec: ExchangeSpec, now: int)
    requires TopologyOk(t) && Mirrors(t, d)
    ensures var (t', r) := DeclareExchange(t, spec, now);
            Mirrors(t', Save(d, DoDeclareExchange(spec, now), OfExchange(r)))
  {
    hide TopologyOk, KeepsBindings, KeepsQueues, CheckExchange;
    var (t', r) := DeclareExchange(t, spec, now);
    ExchangeNamed(t, spec.name);
    SameBindings(t, t', d, Save(d, DoDeclareExchange(spec, now), OfExchange(r)));
  }

  lemma DeclareQueueMirrors(t: Topology, d: Disk, raw: QueueSpec, now: int)
    requires TopologyOk(t) && Mirrors(t, d)
    ensures var (t', r) := DeclareQueue(t, raw, now);
            Mirrors(t', Save(d, DoDeclareQueue(raw, now), OfQueue(r)))
  {
    hide TopologyOk, KeepsBindings, KeepsExchanges, CheckQueue;
    var (t', r) := DeclareQueue(t, raw, now);
    QueueNamed(t, raw.name);
    SameBindings(t, t', d, Save(d, DoDeclareQueue(raw, now), OfQueue(r)));
  }

  lemma DeleteQueueMirrors(t: Topology, d: Disk, name: string)
    requires Mirrors(t, d)
    ensures var (t', r) := DeleteQueue(t, name);
            Mirrors(t', Save(d, DoDeleteQueue(name), OfUnit(r)))
  {
    hide KeepsBindings, KeepsExchanges, Referenced;
    var (t', r) := DeleteQueue(t, name);
    SameBindings(t, t', d, Save(d, DoDeleteQueue(name), OfUnit(r)));
  }

  lemma TableMirrors(t: Topology, d: Disk, op: Op)
    requires TopologyOk(t) && Mirrors(t, d) && (op.DoBind? || op.DoUnbind?)
    ensures var (t', reply) := Step(t, op);
            Mirrors(t', Save(d, op, reply))
  {
    hide TopologyOk, KeepsBindings, KeepsExchanges, KeepsQueues, CheckBinding, Key;
    match op
    case DoBind(spec, now) =>
      if Bind(t, spec, now).1.Fine? { BindMirrors(t, d, spec, now); }
    case DoUnbind(spec) =>
      if Unbind(t, spec).1.Fine? { UnbindMirrors(t, d, spec); }
  }

  lemma StepMirrors(t: Topology, d: Disk, op: Op)
    requires TopologyOk(t) && Mirrors(t, d)
    ensures var (t', reply) := Step(t, op);
            Mirrors(t', Save(d, op, reply))
  {
    hide TopologyOk, Mirrors;
    match op
    case DoDeclareExchange(spec, now) => DeclareExchangeMirrors(t, d, spec, now);
    case DoDeclareQueue(raw, now) => DeclareQueueMirrors(t, d, raw, now);
    case DoDeleteQueue(name) => DeleteQueueMirrors(t, d, name);
    case DoBind(_, _) => TableMirrors(t, d, op);
    case DoUnbind(_) => TableMirrors(t, d, op);
    case _ =>
  }

  lemma ExchangeNamed(t: Topology, n: string)
    requires TopologyOk(t)
    ensures n in t.exchanges ==> t.exchanges[n].spec.name == n
  {}

  lemma QueueNamed(t: Topology, n: string)
    requires TopologyOk(t)
    ensures n in t.queues ==> t.queues[n].spec.name == n
  {}

  /** After every sequence of calls the store holds exactly the durable declarations and all bindings. */
  lemma {:induction false} RunMirrors(t: Topology, d: Disk, ops: seq<Op>)
    requires TopologyOk(t) && Mirrors(t, d)
    ensures Mirrors(Run(t, ops), Saved(t, d, ops)) && TopologyOk(Run(t, ops))
    decreases |ops|
  {
    hide TopologyOk, Mirrors, Step, Save;
    if ops != [] {
      StepKeeps(t, ops[0]);
      StepMirrors(t, d, ops[0]);
      RunMirrors(Step(t, ops[0]).0, Save(d, ops[0], Step(t, ops[0]).1), ops[1..]);
    }
  }

  // ----- What a restart keeps -----

  ghost predicate AllDurable(t: Topology) {
    && (forall n :: n in t.exchanges ==> t.exchanges[n].spec.durable)
    && (forall n :: n in t.queues ==> t.queues[n].spec.durable)
  }

  /** Everything that was saved, seen as a topology without bindings. */
  function Declarations(d: Disk): Topology {
    Topology(d.exchanges, d.queues, map[])
  }

  lemma RestartIs(t: Topology, d: Disk)
    requires TopologyOk(t) && Mirrors(t, d)
    ensures Restart(d) == RestoreBindings(Declarations(d), AllBindings(t))
  {
    hide TopologyOk, RestoreBindings, RestoreExchanges, RestoreQueues, AllBound, KeepsBindings, ListingBy;
    var kept := Declarations(d);
    assert NamesOk(kept) by { NamesKept(t, d); }
    RestoredExchangeTable(kept);
    RestoredQueueTable(kept, Topology(d.exchanges, map[], map[]));
    assert d.bindings.Values == AllBound(t) by { ValuesAre(t, d); }
  }

  lemma NamesKept(t: Topology, d: Disk)
    requires TopologyOk(t) && Mirrors(t, d)
    ensures NamesOk(Declarations(d))
  {
    hide KeepsBindings;
  }

  lemma ValuesAre(t: Topology, d: Disk)
    requires KeepsBindings(t, d)
    ensures d.bindings.Values == AllBound(t)
  {
    hide AllBound;
    forall b
      ensures b in d.bindings.Values <==> b in AllBound(t)
    {
      if b in AllBound(t) { assert d.bindings[Key(b.spec)] == b; }
    }
  }

  lemma RestartTables(t: Topology, d: Disk)
    requires TopologyOk(t) && Mirrors(t, d)
    ensures Restart(d).exchanges == d.exchanges && Restart(d).queues == d.queues
    ensures forall e, b :: b in BindingsOf(Restart(d), e) <==> b in BindingsOf(t, e)
  {
    hide TopologyOk, Mirrors, RestoreBindings, Restart, AllBindings;
    RestartIs(t, d);
    RestoredBindings(Declarations(d), AllBindings(t), "");
    forall e, b
      ensures b in BindingsOf(Restart(d), e) <==> b in BindingsOf(t, e)
    {
      RestoredBindings(Declarations(d), AllBindings(t), e);
      ListedBindings(t, e);
    }
  }

  /** After a restart a durable exchange routes each key to the durable ones among the queues it led to; to
      none of them, the publication is unroutable. */
  lemma RestartRoutes(t: Topology, d: Disk, exchange: string, key: string)
    requires TopologyOk(t) && Mirrors(t, d) && exchange in d.exchanges
    ensures var kind := t.exchanges[exchange].spec.kind;
            var targets := Targets(BindingsOf(t, exchange), kind, key, t.queues.Keys);
            var kept := set n | n in targets && t.queues[n].spec.durable;
            Route(Restart(d), exchange, key)
            == if kept == {} then Fault(Unroutable) else Fine(QueuesNamed(t, Listing(kept)))
  {
    hide TopologyOk, Restart, KeepsBindings, BindingMatches, Listing;
    RestartTables(t, d);
    var r, kind := Restart(d), t.exchanges[exchange].spec.kind;
    var targets := Targets(BindingsOf(t, exchange), kind, key, t.queues.Keys);
    var kept := set n | n in targets && t.queues[n].spec.durable;
    assert Targets(BindingsOf(r, exchange), kind, key, r.queues.Keys) == kept;
    if kept != {} {
      assert QueuesNamed(r, Listing(kept)) == QueuesNamed(t, Listing(kept)) by {
        forall i | 0 <= i < |Listing(kept)|
          ensures Listing(kept)[i] in kept && r.queues[Listing(kept)[i]] == t.queues[Listing(kept)[i]]
        {
          assert Listing(kept)[i] in kept;
        }
      }
    }
  }

  lemma ForgottenShows(t: Topology, d: Disk)
    requires TopologyOk(t) && Mirrors(t, d) && !AllDurable(t)
    ensures Replies(Restart(d), [ListExchanges]) != Replies(t, [ListExchanges])
            || Replies(Restart(d), [ListQueues]) != Replies(t, [ListQueues])
  {
    hide TopologyOk, Restart, KeepsBindings, ListingBy;
    RestartTables(t, d);
    var r := Restart(d);
    assert Replies(r, [ListExchanges])[0] == Listed(Exchanges(r), [], []);
    assert Replies(t, [ListExchanges])[0] == Listed(Exchanges(t), [], []);
    assert Replies(r, [ListQueues])[0] == Listed([], Queues(r), []);
    assert Replies(t, [ListQueues])[0] == Listed([], Queues(t), []);
    if n :| n in t.exchanges && !t.exchanges[n].spec.durable {
      assert t.exchanges[n] in Exchanges(t) && t.exchanges[n] !in Exchanges(r);
    } else {
      var n :| n in t.queues && !t.queues[n].spec.durable;
      assert t.queues[n] in Queues(t) && t.queues[n] !in Queues(r);
    }
  }

  /** A restart after any calls changes no reply to any later call, if and only if everything declared at that
      moment is durable. */
  lemma RestartIsInvisibleIff(before: seq<Op>)
    ensures var t := Run(EmptyTopology(), before);
            var r := Restart(Saved(EmptyTopology(), BLANK, before));
            (forall after :: Replies(r, after) == Replies(t, after)) <==> AllDurable(t)
  {
    hide Restart, Mirrors, TopologyOk, AllDurable, Saved;
    var t, d := Run(EmptyTopology(), before), Saved(EmptyTopology(), BLANK, before);
    EmptyIsOk();
    BlankMirrors();
    RunMirrors(EmptyTopology(), BLANK, before);
    if AllDurable(t) {
      NothingForgotten(t, d);
      forall after
        ensures Replies(Restart(d), after) == Replies(t, after)
      {
        RestoreIsInvisible(before, after);
      }
    } else {
      ForgottenShows(t, d);
    }
  }

  lemma BlankMirrors()
    ensures Mirrors(EmptyTopology(), BLANK)
  {}

  lemma NothingForgotten(t: Topology, d: Disk)
    requires TopologyOk(t) && Mirrors(t, d) && AllDurable(t)
    ensures Restart(d) == Restore(EmptyTopology(), Exchanges(t), Queues(t), AllBindings(t))
  {
    hide TopologyOk, KeepsBindings, Restore, ListingBy;
    assert d.exchanges == t.exchanges && d.queues == t.queues;
    ValuesAre(t, d);
  }
}
