/** The topology registry: exchange, queue and binding tables updated in place. */
module Registry {
  import opened Sequences
  import opened Ordering
  import opened Topic
  import opened TopologySpec
  import opened TopologyRuns

  // ----- Facts about the loops -----

  lemma TargetsPush(bs: seq<Binding>, i: nat, kind: Kind, key: string, declared: set<string>)
    requires i < |bs|
    ensures Targets(bs[..i + 1], kind, key, declared) ==
            Targets(bs[..i], kind, key, declared)
            + (if bs[i].spec.queue in declared && BindingMatches(kind, bs[i].spec.routingKey, key)
               then {bs[i].spec.queue} else {})
  {
    assert bs[..i + 1] == bs[..i] + [bs[i]];
  }

  lemma KeysDistinct(xs: seq<string>)
    requires Distinct(xs)
    ensures DistinctKeys(Itself(), xs)
  {}

  function Prefix(bs: seq<Binding>, n: nat): set<Binding>
    requires n <= |bs|
  {
    set i | 0 <= i < n :: bs[i]
  }

  /** The bindings that deliver to the queue. */
  function Leading(bs: set<Binding>, queue: string): set<Binding> {
    set b | b in bs && b.spec.queue == queue
  }

  lemma LeadingEmpty(bs: seq<Binding>, queue: string)
    ensures |Leading(Prefix(bs, 0), queue)| == 0
  {
    assert Leading(Prefix(bs, 0), queue) == {};
  }

  lemma PrefixPush(bs: seq<Binding>, n: nat)
    requires n < |bs| && DistinctKeys(BindingKey(), bs)
    ensures Prefix(bs, n + 1) == Prefix(bs, n) + {bs[n]} && bs[n] !in Prefix(bs, n)
  {
    forall i | 0 <= i < n
      ensures bs[i] != bs[n]
    {
      assert BindingKey()(bs[i]) != BindingKey()(bs[n]);
    }
  }

  lemma LeadingOneMore(bs: set<Binding>, b: Binding, queue: string)
    requires b !in bs
    ensures |Leading(bs + {b}, queue)| == |Leading(bs, queue)| + (if b.spec.queue == queue then 1 else 0)
  {
    var was := Leading(bs, queue);
    assert Leading(bs + {b}, queue) == if b.spec.queue == queue then was + {b} else was;
  }

  lemma LeadingPush(bs: seq<Binding>, n: nat, queue: string)
    requires n < |bs| && DistinctKeys(BindingKey(), bs)
    ensures |Leading(Prefix(bs, n + 1), queue)| ==
            |Leading(Prefix(bs, n), queue)| + (if bs[n].spec.queue == queue then 1 else 0)
  {
    hide Prefix, Leading, DistinctKeys;
    PrefixPush(bs, n);
    LeadingOneMore(Prefix(bs, n), bs[n], queue);
  }

  lemma ReferencedIffLeading(t: Topology, queue: string)
    ensures Referenced(t, queue) <==> |Leading(AllBound(t), queue)| > 0
  {
    hide AllBound;
    if Referenced(t, queue) {
      var b :| b in AllBound(t) && b.spec.queue == queue;
      assert b in Leading(AllBound(t), queue);
    }
    if Leading(AllBound(t), queue) != {} {
      var b :| b in Leading(AllBound(t), queue);
      assert b in AllBound(t) && b.spec.queue == queue;
    }
  }

  class Registry {
    var exchanges: map<string, Exchange>
    var queues: map<string, Queue>
    var bindings: map<string, seq<Binding>>

    ghost function State(): Topology
      reads this
    {
      Topology(exchanges, queues, bindings)
    }

    ghost predicate Valid()
      reads this
    {
      TopologyOk(State())
    }

    constructor ()
      ensures Valid() && State() == EmptyTopology()
    {
      exchanges, queues, bindings := map[], map[], map[];
    }

    method DeclareExchange(spec: ExchangeSpec, now: int) returns (r: Answer<Exchange>)
      requires Valid()
      modifies `exchanges
      ensures Valid() && (State(), r) == TopologySpec.DeclareExchange(old(State()), spec, now)
    {
      hide TopologyOk;
      DeclareKeeps(State(), spec, QueueSpec("", false, 0, 0, ""), now);
      var check := CheckExchange(spec);
      if check.Fail? {
        return Fault(check.fault);
      }
      if spec.name in exchanges {
        if exchanges[spec.name].spec != spec {
          return Fault(ExchangeExists);
        }
        return Fine(exchanges[spec.name]);
      }
      exchanges := exchanges[spec.name := Exchange(spec, now)];
      r := Fine(Exchange(spec, now));
    }

    method DeclareQueue(raw: QueueSpec, now: int) returns (r: Answer<Queue>)
      requires Valid()
      modifies `queues
      ensures Valid() && (State(), r) == TopologySpec.DeclareQueue(old(State()), raw, now)
    {
      hide TopologyOk;
      DeclareKeeps(State(), ExchangeSpec("", Direct, false), raw, now);
      var spec := WithDefaults(raw);
      var check := CheckQueue(spec);
      if check.Fail? {
        return Fault(check.fault);
      }
      if spec.name in queues {
        if queues[spec.name].spec != spec {
          return Fault(QueueExists);
        }
        return Fine(queues[spec.name]);
      }
      queues := queues[spec.name := Queue(spec, now)];
      r := Fine(Queue(spec, now));
    }

    method Exchanges() returns (all: seq<Exchange>)
      requires Valid()
      ensures all == TopologySpec.Exchanges(State())
    {
      hide CheckExchange, CheckQueue, TableOk;
      var found: seq<Exchange> := [];
      var todo := exchanges.Keys;
      while todo != {}
        invariant todo <= exchanges.Keys
        invariant forall e :: e in found <==> exists n :: n in exchanges && n !in todo && e == exchanges[n]
        invariant DistinctKeys(ExchangeName(), found)
        decreases |todo|
      {
        var n :| n in todo;
        assert forall e :: e in found ==> e.spec.name != n;
        DistinctKeysPush(ExchangeName(), found, exchanges[n]);
        found := found + [exchanges[n]];
        todo := todo - {n};
      }
      SortIsListing(ExchangeName(), found, exchanges.Values);
      all := SortBy(ExchangeName(), found);
    }

    method Queues() returns (all: seq<Queue>)
      requires Valid()
      ensures all == TopologySpec.Queues(State())
    {
      hide CheckExchange, CheckQueue, TableOk;
      var found: seq<Queue> := [];
      var todo := queues.Keys;
      while todo != {}
        invariant todo <= queues.Keys
        invariant forall q :: q in found <==> exists n :: n in queues && n !in todo && q == queues[n]
        invariant DistinctKeys(QueueName(), found)
        decreases |todo|
      {
        var n :| n in todo;
        assert forall q :: q in found ==> q.spec.name != n;
        DistinctKeysPush(QueueName(), found, queues[n]);
        found := found + [queues[n]];
        todo := todo - {n};
      }
      SortIsListing(QueueName(), found, queues.Values);
      all := SortBy(QueueName(), found);
    }

    /** The loop that looks for a binding with the same key. */
    method Position(bs: seq<Binding>, key: string) returns (i: nat)
      ensures i == Find(bs, key)
    {
      i := 0;
      while i < |bs| && Key(bs[i].spec) != key
        invariant 0 <= i <= |bs|
        invariant forall j :: 0 <= j < i ==> Key(bs[j].spec) != key
      {
        i := i + 1;
      }
    }

    method Bind(spec: BindingSpec, now: int) returns (r: Answer<Binding>)
      requires Valid()
      modifies `bindings
      ensures Valid() && (State(), r) == TopologySpec.Bind(old(State()), spec, now)
    {
      hide TopologyOk;
      BindKeeps(State(), spec, now);
      if spec.queue !in queues {
        return Fault(QueueNotFound);
      }
      if spec.exchange !in exchanges {
        return Fault(ExchangeNotFound);
      }
      var check := CheckBinding(spec, exchanges[spec.exchange].spec.kind);
      if check.Fail? {
        return Fault(check.fault);
      }
      var bs := if spec.exchange in bindings then bindings[spec.exchange] else [];
      var i := Position(bs, Key(spec));
      if i < |bs| {
        return Fine(bs[i]);
      }
      var binding := Binding(spec, now);
      bindings := bindings[spec.exchange := bs + [binding]];
      r := Fine(binding);
    }

    method Unbind(spec: BindingSpec) returns (r: Answer<()>)
      requires Valid()
      modifies `bindings
      ensures Valid() && (State(), r) == TopologySpec.Unbind(old(State()), spec)
    {
      hide TopologyOk;
      UnbindKeeps(State(), spec);
      var bs := if spec.exchange in bindings then bindings[spec.exchange] else [];
      var i := Position(bs, Key(spec));
      if i < |bs| {
        bindings := bindings[spec.exchange := bs[..i] + bs[i + 1..]];
        return Fine(());
      }
      r := Fault(BindingNotFound);
    }

    /** Collect every binding, the exchanges in no particular order. */
    method Gather() returns (all: seq<Binding>)
      requires Valid()
      ensures DistinctKeys(BindingKey(), all) && forall b :: b in all <==> b in AllBound(State())
    {
      all := [];
      var todo := bindings.Keys;
      while todo != {}
        invariant todo <= bindings.Keys
        invariant forall b :: b in all <==> exists e :: e in bindings && e !in todo && b in bindings[e]
        invariant DistinctKeys(BindingKey(), all)
        decreases |todo|
      {
        var e :| e in todo;
        GatherStep(State(), all, e, todo);
        all := all + bindings[e];
        todo := todo - {e};
      }
    }

    static lemma GatherStep(t: Topology, all: seq<Binding>, e: string, todo: set<string>)
      requires TopologyOk(t) && e in todo && todo <= t.bindings.Keys
      requires forall b :: b in all <==> exists f :: f in t.bindings && f !in todo && b in t.bindings[f]
      requires DistinctKeys(BindingKey(), all)
      ensures DistinctKeys(BindingKey(), all + t.bindings[e])
      ensures forall b :: b in all + t.bindings[e] <==>
                exists f :: f in t.bindings && f !in todo - {e} && b in t.bindings[f]
    {
      assert TableOk(t, e);
      forall i, j | 0 <= i < |all| && 0 <= j < |t.bindings[e]|
        ensures Key(all[i].spec) != Key(t.bindings[e][j].spec)
      {
        assert all[i] in all && t.bindings[e][j] in BindingsOf(t, e);
        var f :| f in t.bindings && f !in todo && all[i] in t.bindings[f];
        assert TableOk(t, f) && BindingOk(t, f, all[i]) && BindingOk(t, e, t.bindings[e][j]);
        if Key(all[i].spec) == Key(t.bindings[e][j].spec) { KeyInjective(all[i].spec, t.bindings[e][j].spec); }
      }
    }

    method AllBindings() returns (all: seq<Binding>)
      requires Valid()
      ensures all == TopologySpec.AllBindings(State())
    {
      var gathered := Gather();
      SortIsListing(BindingKey(), gathered, AllBound(State()));
      all := SortBy(BindingKey(), gathered);
    }

    /** How many bindings lead to the queue. */
    method QueueReferences(queue: string) returns (references: nat)
      requires Valid()
      ensures references == |Leading(AllBound(State()), queue)|
    {
      hide TopologyOk, AllBound, Leading;
      var all := Gather();
      references := 0;
      LeadingEmpty(all, queue);
      for i := 0 to |all|
        invariant references == |Leading(Prefix(all, i), queue)|
      {
        LeadingPush(all, i, queue);
        if all[i].spec.queue == queue {
          references := references + 1;
        }
      }
      assert Prefix(all, |all|) == AllBound(State());
    }

    method DeleteQueue(name: string) returns (r: Answer<()>)
      requires Valid()
      modifies `queues
      ensures Valid() && (State(), r) == TopologySpec.DeleteQueue(old(State()), name)
    {
      DeleteQueueKeeps(State(), name);
      if name !in queues {
        return Fault(QueueNotFound);
      }
      var references := QueueReferences(name);
      ReferencedIffLeading(State(), name);
      if references > 0 {
        return Fault(QueueInUse);
      }
      queues := queues - {name};
      r := Fine(());
    }

    /** Collect the matching queues in table order, skipping those already seen, then sort. */
    method RouteNames(bs: seq<Binding>, kind: Kind, key: string) returns (names: seq<string>)
      ensures names == Listing(Targets(bs, kind, key, queues.Keys))
    {
      var seen: set<string> := {};
      var matched: seq<string> := [];
      for i := 0 to |bs|
        invariant seen == Targets(bs[..i], kind, key, queues.Keys)
        invariant Distinct(matched) && forall n :: n in matched <==> n in seen
      {
        TargetsPush(bs, i, kind, key, queues.Keys);
        var b := bs[i].spec;
        if b.queue !in seen && b.queue in queues {
          var matches := MatchBinding(kind, b.routingKey, key);
          if matches {
            seen := seen + {b.queue};
            DistinctPush(matched, b.queue);
            matched := matched + [b.queue];
          }
        }
      }
      assert bs[..|bs|] == bs;
      KeysDistinct(matched);
      SortIsListing(Itself(), matched, seen);
      names := SortBy(Itself(), matched);
    }

    static method MatchBinding(kind: Kind, pattern: string, key: string) returns (r: bool)
      ensures r == BindingMatches(kind, pattern, key)
      ensures r <==> match kind
                     case Fanout => true
                     case Direct => pattern == key
                     case Topical => Matches(Split(pattern), Split(key))
                     case Unknown(_) => false
    {
      match kind
      case Fanout => r := true;
      case Direct => r := pattern == key;
      case Topical => r := MatchTopic(pattern, key);
      case Unknown(_) => r := false;
    }

    method Route(exchange: string, key: string) returns (r: Answer<seq<Queue>>)
      ensures r == TopologySpec.Route(State(), exchange, key)
    {
      if exchange !in exchanges {
        return Fault(ExchangeNotFound);
      }
      var bs := if exchange in bindings then bindings[exchange] else [];
      var names := RouteNames(bs, exchanges[exchange].spec.kind, key);
      ghost var targets := Targets(bs, exchanges[exchange].spec.kind, key, queues.Keys);
      if |names| == 0 {
        assert targets == {};
        return Fault(Unroutable);
      }
      var found: seq<Queue> := [];
      for i := 0 to |names|
        invariant |found| == i && forall j :: 0 <= j < i ==> names[j] in queues && found[j] == queues[names[j]]
      {
        assert names[i] in targets;
        found := found + [queues[names[i]]];
      }
      assert found == QueuesNamed(State(), names);
      r := Fine(found);
    }

    /** Restoring checks nothing: it overwrites declarations and appends bindings. */
    method Restore(es: seq<Exchange>, qs: seq<Queue>, bs: seq<Binding>)
      modifies this
      ensures State() == TopologySpec.Restore(old(State()), es, qs, bs)
    {
      for i := 0 to |es|
        invariant State() == RestoreExchanges(old(State()), es[..i])
      {
        assert es[..i + 1][..i] == es[..i];
        exchanges := exchanges[es[i].spec.name := es[i]];
      }
      assert es[..|es|] == es;
      ghost var withExchanges := State();
      for i := 0 to |qs|
        invariant State() == RestoreQueues(withExchanges, qs[..i])
      {
        assert qs[..i + 1][..i] == qs[..i];
        queues := queues[qs[i].spec.name := qs[i]];
      }
      assert qs[..|qs|] == qs;
      ghost var withQueues := State();
      for i := 0 to |bs|
        invariant State() == RestoreBindings(withQueues, bs[..i])
      {
        assert bs[..i + 1][..i] == bs[..i];
        var e := bs[i].spec.exchange;
        bindings := bindings[e := (if e in bindings then bindings[e] else []) + [bs[i]]];
      }
      assert bs[..|bs|] == bs;
    }
  }
}
