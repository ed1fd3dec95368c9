/** Properties of the registry over every sequence of operations: references stay closed, routing is
    exact, and a registry restored from another's listings behaves like it for ever after. */
module TopologyRuns {
  import opened Sequences
  import opened Ordering
  import opened Topic
  import opened TopologySpec

  // ----- Binding keys -----

  predicate NoNul(s: string) {
    '\0' !in s
  }

  lemma NamesHaveNoNul(field: string, s: string)
    requires CheckName(field, s).Pass?
    ensures NoNul(s)
  {}

  /** The part before the first NUL is determined by the joined string. */
  lemma {:induction false} CutAtNul(a: string, b: string, x: string, y: string)
    requires NoNul(a) && NoNul(b) && a + "\0" + x == b + "\0" + y
    ensures a == b && x == y
    decreases |a|
  {
    var l, r := a + "\0" + x, b + "\0" + y;
    if a == "" || b == "" {
      assert l[0] == r[0];
      assert a == "" ==> l[0] == '\0';
      assert b == "" ==> r[0] == '\0';
      assert a == b == "";
      assert l[1..] == x && r[1..] == y;
    } else {
      assert l[0] == a[0] && r[0] == b[0];
      assert l[1..] == a[1..] + "\0" + x && r[1..] == b[1..] + "\0" + y;
      CutAtNul(a[1..], b[1..], x, y);
      assert a == [a[0]] + a[1..] && b == [b[0]] + b[1..];
    }
  }

  /** Binding keys identify bindings whose names hold no NUL. */
  lemma KeyInjective(a: BindingSpec, b: BindingSpec)
    requires NoNul(a.exchange) && NoNul(b.exchange) && NoNul(a.queue) && NoNul(b.queue) && Key(a) == Key(b)
    ensures a == b
  {
    assert Key(a) == a.exchange + "\0" + (a.queue + "\0" + a.routingKey);
    assert Key(b) == b.exchange + "\0" + (b.queue + "\0" + b.routingKey);
    CutAtNul(a.exchange, b.exchange, a.queue + "\0" + a.routingKey, b.queue + "\0" + b.routingKey);
    CutAtNul(a.queue, b.queue, a.routingKey, b.routingKey);
  }

  /** In a sound registry a key names at most one binding, over all exchanges. */
  lemma KeysAreGlobal(t: Topology, a: Binding, b: Binding)
    requires TopologyOk(t) && a in AllBound(t) && b in AllBound(t) && Key(a.spec) == Key(b.spec)
    ensures a == b
  {
    var e, f :| e in t.bindings && f in t.bindings && a in t.bindings[e] && b in t.bindings[f];
    assert TableOk(t, e) && TableOk(t, f);
    assert BindingOk(t, e, a) && BindingOk(t, f, b);
    KeyInjective(a.spec, b.spec);
    var i, j :| 0 <= i < |t.bindings[e]| && 0 <= j < |t.bindings[e]| && t.bindings[e][i] == a && t.bindings[e][j] == b;
  }

  // ----- Unbinding removes what it names, with one exception -----

  /** The bindings left are the old ones except the one that was named. */
  ghost predicate RemovesExactly(t: Topology, spec: BindingSpec) {
    forall b :: b in BindingsOf(Unbind(t, spec).0, spec.exchange) <==>
        b in BindingsOf(t, spec.exchange) && b.spec != spec
  }

  /** A queue name with a NUL in it can spell the key of another binding. */
  predicate Ambiguous(spec: BindingSpec) {
    CheckName("exchange name", spec.exchange).Pass? &&
    exists i :: 0 <= i < |spec.queue| && spec.queue[i] == '\0' && CheckName("queue name", spec.queue[..i]).Pass?
  }

  lemma UnambiguousUnbind(t: Topology, spec: BindingSpec)
    requires TopologyOk(t) && !Ambiguous(spec)
    ensures RemovesExactly(t, spec)
  {
    assert TableOk(t, spec.exchange);
    var bs := BindingsOf(t, spec.exchange);
    var i := Find(bs, Key(spec));
    forall b | b in bs && Key(b.spec) == Key(spec)
      ensures b.spec == spec
    {
      assert BindingOk(t, spec.exchange, b);
      NamesHaveNoNul("queue name", b.spec.queue);
      SameKeySameTail(b.spec, spec);
      if NoNul(spec.queue) {
        CutAtNul(b.spec.queue, spec.queue, b.spec.routingKey, spec.routingKey);
      } else {
        NulSpellsAmbiguity(b.spec, spec);
      }
    }
    if i < |bs| {
      CutKeepsKeys(bs, i);
      forall b | b in bs && b.spec == spec
        ensures b == bs[i]
      {
        var j :| 0 <= j < |bs| && bs[j] == b;
      }
    }
  }

  lemma SameKeySameTail(b: BindingSpec, spec: BindingSpec)
    requires b.exchange == spec.exchange && Key(b) == Key(spec)
    ensures b.queue + "\0" + b.routingKey == spec.queue + "\0" + spec.routingKey
  {
    var n := |b.exchange| + 1;
    assert Key(b)[n..] == b.queue + "\0" + b.routingKey;
    assert Key(spec)[n..] == spec.queue + "\0" + spec.routingKey;
  }

  lemma NulSpellsAmbiguity(b: BindingSpec, spec: BindingSpec)
    requires CheckName("exchange name", b.exchange).Pass? && CheckName("queue name", b.queue).Pass?
    requires b.exchange == spec.exchange && Key(b) == Key(spec) && !NoNul(spec.queue)
    ensures Ambiguous(spec)
  {
    NamesHaveNoNul("queue name", b.queue);
    SameKeySameTail(b, spec);
    var x, y, i := b.queue + "\0" + b.routingKey, spec.queue + "\0" + spec.routingKey, |b.queue|;
    var j :| 0 <= j < |spec.queue| && spec.queue[j] == '\0';
    assert y[j] == '\0' && x[j] == '\0';
    assert i <= j;
    assert x[i] == '\0' && y[i] == spec.queue[i];
    assert spec.queue[..i] == y[..i] && x[..i] == b.queue;
  }

  /** The registry in which an ambiguous unbinding removes a binding it does not name. */
  function Trap(spec: BindingSpec, i: nat): Topology
    requires i < |spec.queue|
  {
    var queue := spec.queue[..i];
    var hit := BindingSpec(spec.exchange, queue, spec.queue[i + 1..] + "\0" + spec.routingKey);
    Topology(map[spec.exchange := Exchange(ExchangeSpec(spec.exchange, Fanout, false), 0)],
             map[queue := Queue(QueueSpec(queue, false, 1, 1, ""), 0)],
             map[spec.exchange := [Binding(hit, 0)]])
  }

  lemma TrapSprings(spec: BindingSpec, i: nat)
    requires CheckName("exchange name", spec.exchange).Pass?
    requires i < |spec.queue| && spec.queue[i] == '\0' && CheckName("queue name", spec.queue[..i]).Pass?
    ensures TopologyOk(Trap(spec, i)) && !RemovesExactly(Trap(spec, i), spec)
  {
    var t := Trap(spec, i);
    var bs := BindingsOf(t, spec.exchange);
    var hit := bs[0];
    forall exchange
      ensures TableOk(t, exchange)
    {
      if exchange == spec.exchange { assert BindingOk(t, exchange, hit); }
    }
    assert spec.queue == spec.queue[..i] + "\0" + spec.queue[i + 1..];
    assert Key(hit.spec) == Key(spec);
    assert hit.spec != spec by { assert |hit.spec.queue| < |spec.queue|; }
    assert hit in bs;
    assert bs[..0] + bs[1..] == [];
    assert hit !in BindingsOf(Unbind(t, spec).0, spec.exchange);
  }

  /** Three calls on an empty registry set the trap. */
  lemma TrapIsReached(spec: BindingSpec, i: nat)
    requires CheckName("exchange name", spec.exchange).Pass?
    requires i < |spec.queue| && CheckName("queue name", spec.queue[..i]).Pass?
    ensures var queue := spec.queue[..i];
            var ops := [DoDeclareExchange(ExchangeSpec(spec.exchange, Fanout, false), 0),
                        DoDeclareQueue(QueueSpec(queue, false, 1, 1, ""), 0),
                        DoBind(BindingSpec(spec.exchange, queue, spec.queue[i + 1..] + "\0" + spec.routingKey), 0)];
            Run(EmptyTopology(), ops) == Trap(spec, i)
  {
    hide CheckName;
    var queue := spec.queue[..i];
    var hit := BindingSpec(spec.exchange, queue, spec.queue[i + 1..] + "\0" + spec.routingKey);
    var a := DoDeclareExchange(ExchangeSpec(spec.exchange, Fanout, false), 0);
    var b := DoDeclareQueue(QueueSpec(queue, false, 1, 1, ""), 0);
    var t1 := Step(EmptyTopology(), a).0;
    var t2 := Step(t1, b).0;
    assert t2 == Topology(Trap(spec, i).exchanges, Trap(spec, i).queues, map[]);
    assert [] + [Binding(hit, 0)] == [Binding(hit, 0)];
    assert Step(t2, DoBind(hit, 0)).0 == Trap(spec, i);
    ThreeSteps(EmptyTopology(), a, b, DoBind(hit, 0));
  }

  lemma ThreeSteps(t: Topology, a: Op, b: Op, c: Op)
    ensures Run(t, [a, b, c]) == Step(Step(Step(t, a).0, b).0, c).0
  {
    hide Step;
    assert [a, b, c][1..] == [b, c] && [b, c][1..] == [c] && [c][1..] == [];
    var u := Step(Step(t, a).0, b).0;
    assert Run(u, [c]) == Run(Step(u, c).0, []);
  }

  /** After every sequence of calls on a new registry, unbinding removes exactly what it names, if and only if
      the names it is given are not ambiguous. */
  lemma UnbindIsExactIff(spec: BindingSpec)
    ensures (forall ops :: RemovesExactly(Run(EmptyTopology(), ops), spec)) <==> !Ambiguous(spec)
  {
    hide RemovesExactly, TopologyOk;
    if Ambiguous(spec) {
      var i :| 0 <= i < |spec.queue| && spec.queue[i] == '\0' && CheckName("queue name", spec.queue[..i]).Pass?;
      TrapSprings(spec, i);
      TrapIsReached(spec, i);
    } else {
      forall ops
        ensures RemovesExactly(Run(EmptyTopology(), ops), spec)
      {
        EmptyIsOk();
        RunKeeps(EmptyTopology(), ops);
        UnambiguousUnbind(Run(EmptyTopology(), ops), spec);
      }
    }
  }

  // ----- Routing -----

  /** Some binding of the exchange leads messages with this key to the queue: any binding of a fanout exchange, one
      with exactly this key of a direct exchange, one whose pattern matches the key word by word of a topic
      exchange. */
  ghost predicate LeadsTo(t: Topology, exchange: string, key: string, queue: string) {
    exists b :: b in BindingsOf(t, exchange) && b.spec.queue == queue && exchange in t.exchanges &&
      match t.exchanges[exchange].spec.kind
      case Fanout => true
      case Direct => b.spec.routingKey == key
      case Topical => Matches(Split(b.spec.routingKey), Split(key))
      case Unknown(_) => false
  }

  lemma MatchesByKind(kind: Kind, pattern: string, key: string)
    ensures BindingMatches(kind, pattern, key) <==>
              match kind
              case Fanout => true
              case Direct => pattern == key
              case Topical => Matches(Split(pattern), Split(key))
              case Unknown(_) => false
  {
    if kind == Topical { AcceptsIffMatches(Split(pattern), Split(key)); }
  }

  lemma TargetIffLeads(t: Topology, exchange: string, key: string, name: string)
    requires TopologyOk(t) && exchange in t.exchanges
    ensures name in Targets(BindingsOf(t, exchange), t.exchanges[exchange].spec.kind, key, t.queues.Keys) <==>
              LeadsTo(t, exchange, key, name)
  {
    hide BindingMatches, Matches, Split;
    assert TableOk(t, exchange);
    var kind := t.exchanges[exchange].spec.kind;
    forall b | b in BindingsOf(t, exchange)
      ensures b.spec.queue in t.queues
      ensures BindingMatches(kind, b.spec.routingKey, key) <==>
                match kind
                case Fanout => true
                case Direct => b.spec.routingKey == key
                case Topical => Matches(Split(b.spec.routingKey), Split(key))
                case Unknown(_) => false
    {
      assert BindingOk(t, exchange, b);
      MatchesByKind(kind, b.spec.routingKey, key);
    }
  }

  /** Routing finds exactly the queues the exchange's bindings lead to, each once and by increasing name; the filter
      on declared queues drops nothing. */
  lemma RouteIsExact(t: Topology, exchange: string, key: string)
    requires TopologyOk(t)
    ensures match Route(t, exchange, key)
            case Fault(f) =>
              && f == (if exchange in t.exchanges then Unroutable else ExchangeNotFound)
              && forall name :: !LeadsTo(t, exchange, key, name)
            case Fine(queues) =>
              && queues != [] && SortedBy(QueueName(), queues)
              && (forall name :: LeadsTo(t, exchange, key, name) <==> exists q :: q in queues && q.spec.name == name)
              && (forall q :: q in queues ==> q.spec.name in t.queues && t.queues[q.spec.name] == q)
  {
    hide LeadsTo, BindingMatches;
    if exchange in t.exchanges {
      var targets := Targets(BindingsOf(t, exchange), t.exchanges[exchange].spec.kind, key, t.queues.Keys);
      forall name
        ensures name in targets <==> LeadsTo(t, exchange, key, name)
      {
        TargetIffLeads(t, exchange, key, name);
      }
      if targets != {} { NamedQueues(t, targets); }
    } else {
      NowhereToLead(t, exchange, key);
    }
  }

  lemma NowhereToLead(t: Topology, exchange: string, key: string)
    requires exchange !in t.exchanges
    ensures forall name :: !LeadsTo(t, exchange, key, name)
  {}

  /** A fanout exchange does not look at the key. */
  lemma FanoutIgnoresTheKey(t: Topology, exchange: string, key: string, other: string)
    requires exchange in t.exchanges && t.exchanges[exchange].spec.kind == Fanout
    ensures Route(t, exchange, key) == Route(t, exchange, other)
  {
    assert Targets(BindingsOf(t, exchange), Fanout, key, t.queues.Keys)
        == Targets(BindingsOf(t, exchange), Fanout, other, t.queues.Keys);
  }

  lemma NamedQueues(t: Topology, targets: set<string>)
    requires NamesOk(t) && targets <= t.queues.Keys
    ensures var queues := QueuesNamed(t, Listing(targets));
            && SortedBy(QueueName(), queues)
            && (forall name :: name in targets <==> exists q :: q in queues && q.spec.name == name)
            && (forall q :: q in queues ==> q.spec.name in t.queues && t.queues[q.spec.name] == q)
  {
    hide Listing, CheckExchange, CheckQueue;
    var names := Listing(targets);
    var queues := QueuesNamed(t, names);
    ListingSorted(targets);
    forall i | 0 <= i < |names|
      ensures queues[i].spec.name == names[i] && queues[i] == t.queues[names[i]]
    {
      assert names[i] in targets;
    }
    forall name | name in targets
      ensures exists q :: q in queues && q.spec.name == name
    {
      assert name in names;
      var i :| 0 <= i < |names| && names[i] == name;
      assert queues[i] in queues;
    }
  }

  // ----- What the checks let through -----

  predicate SoundSegment(segment: string) {
    segment == SINGLE || segment == MULTI || (segment != "" && !HasWildcard(segment))
  }

  lemma SegmentIs(segment: string)
    ensures SoundSegment(segment) <==> segment != "" && (HasWildcard(segment) ==> |segment| == 1)
  {
    assert HasWildcard(MULTI) by { assert MULTI[0] == '#'; }
    assert HasWildcard(SINGLE) by { assert SINGLE[0] == '*'; }
    if |segment| == 1 { assert segment == [segment[0]]; }
  }

  predicate SoundSegments(segments: seq<string>) {
    forall i :: 0 <= i < |segments| ==> SoundSegment(segments[i])
  }

  lemma {:induction false} SegmentsPassIff(segments: seq<string>)
    ensures CheckSegments(segments).Pass? <==> SoundSegments(segments)
    decreases |segments|
  {
    if segments != [] {
      SegmentIs(segments[0]);
      SegmentsPassIff(segments[1..]);
      assert SoundSegments(segments) <==> SoundSegment(segments[0]) && SoundSegments(segments[1..]) by {
        assert segments == [segments[0]] + segments[1..];
      }
    }
  }

  /** A topic pattern is accepted exactly when it is short enough and every word is a wildcard or a literal. */
  lemma PatternPassesIff(pattern: string)
    ensures CheckPattern(pattern).Pass? <==>
              pattern != "" && |pattern| <= MAX_ROUTING_KEY_LENGTH && SoundSegments(Split(pattern))
  {
    SegmentsPassIff(Split(pattern));
  }

  lemma TopicTargets(bs: seq<Binding>, key: string, declared: set<string>)
    requires forall b :: b in bs ==> CheckRoutingKey(b.spec.routingKey).Pass?
    ensures Targets(bs, Direct, key, declared) == Targets(bs, Topical, key, declared)
  {
    forall b | b in bs
      ensures BindingMatches(Direct, b.spec.routingKey, key) <==> BindingMatches(Topical, b.spec.routingKey, key)
    {
      WithoutWildcardsTopicIsDirect(b.spec.routingKey, key);
    }
  }

  /** A direct exchange routes every key as a topic exchange with the same bindings would. */
  lemma DirectRoutesAsTopic(t: Topology, exchange: string, key: string)
    requires TopologyOk(t) && exchange in t.exchanges && t.exchanges[exchange].spec.kind == Direct
    ensures var was := t.exchanges[exchange];
            var topical := t.(exchanges := t.exchanges[exchange := was.(spec := was.spec.(kind := Topical))]);
            Route(topical, exchange, key) == Route(t, exchange, key)
  {
    hide Listing, Targets, BindingMatches, CheckRoutingKey;
    assert TableOk(t, exchange);
    forall b | b in BindingsOf(t, exchange)
      ensures CheckRoutingKey(b.spec.routingKey).Pass?
    {
      assert BindingOk(t, exchange, b);
    }
    TopicTargets(BindingsOf(t, exchange), key, t.queues.Keys);
    var was := t.exchanges[exchange];
    var topical := t.(exchanges := t.exchanges[exchange := was.(spec := was.spec.(kind := Topical))]);
    assert BindingsOf(topical, exchange) == BindingsOf(t, exchange);
  }

  // ----- Restoring -----

  /** The same declarations and, per exchange, the same bindings in whatever order. */
  ghost predicate Same(a: Topology, b: Topology) {
    && TopologyOk(a) && TopologyOk(b)
    && a.exchanges == b.exchanges && a.queues == b.queues
    && (forall exchange :: SameTable(a, b, exchange))
  }

  ghost predicate SameTable(a: Topology, b: Topology, exchange: string) {
    forall x :: x in BindingsOf(a, exchange) <==> x in BindingsOf(b, exchange)
  }

  lemma {:induction false} RestoredExchanges(t: Topology, es: seq<Exchange>)
    requires forall i, j :: 0 <= i < j < |es| ==> es[i].spec.name != es[j].spec.name
    ensures var r := RestoreExchanges(t, es);
            && r == t.(exchanges := r.exchanges)
            && (forall i :: 0 <= i < |es| ==> es[i].spec.name in r.exchanges && r.exchanges[es[i].spec.name] == es[i])
            && (forall n :: n in r.exchanges ==> n in t.exchanges || exists i :: 0 <= i < |es| && es[i].spec.name == n)
    decreases |es|
  {
    if es != [] {
      var front := es[..|es| - 1];
      RestoredExchanges(t, front);
      forall i | 0 <= i < |es|
        ensures es[i].spec.name in RestoreExchanges(t, es).exchanges
                && RestoreExchanges(t, es).exchanges[es[i].spec.name] == es[i]
      {
        if i < |front| { assert front[i].spec.name in RestoreExchanges(t, front).exchanges; }
      }
    }
  }

  lemma {:induction false} RestoredQueues(t: Topology, qs: seq<Queue>)
    requires forall i, j :: 0 <= i < j < |qs| ==> qs[i].spec.name != qs[j].spec.name
    ensures var r := RestoreQueues(t, qs);
            && r == t.(queues := r.queues)
            && (forall i :: 0 <= i < |qs| ==> qs[i].spec.name in r.queues && r.queues[qs[i].spec.name] == qs[i])
            && (forall n :: n in r.queues ==> n in t.queues || exists i :: 0 <= i < |qs| && qs[i].spec.name == n)
    decreases |qs|
  {
    if qs != [] {
      var front := qs[..|qs| - 1];
      RestoredQueues(t, front);
      forall i | 0 <= i < |qs|
        ensures qs[i].spec.name in RestoreQueues(t, qs).queues && RestoreQueues(t, qs).queues[qs[i].spec.name] == qs[i]
      {
        if i < |front| { assert front[i].spec.name in RestoreQueues(t, front).queues; }
      }
    }
  }

  function Of(exchange: string): Binding -> bool {
    (b: Binding) => b.spec.exchange == exchange
  }

  /** Restoring bindings appends to each exchange its own bindings, in listing order. */
  lemma {:induction false} RestoredBindings(t: Topology, bs: seq<Binding>, exchange: string)
    ensures var r := RestoreBindings(t, bs);
            && r == t.(bindings := r.bindings)
            && BindingsOf(r, exchange) == BindingsOf(t, exchange) + Filter(Of(exchange), bs)
    decreases |bs|
  {
    if bs != [] {
      RestoredBindings(t, bs[..|bs| - 1], exchange);
      RestoredBindings(t, bs[..|bs| - 1], bs[|bs| - 1].spec.exchange);
    }
  }

  lemma SortedNames(t: Topology)
    requires NamesOk(t)
    ensures SortedBy(ExchangeName(), Exchanges(t)) && SortedBy(QueueName(), Queues(t))
  {
    forall x, y | x in t.exchanges.Values && y in t.exchanges.Values && x.spec.name == y.spec.name
      ensures x == y
    {
      var n, m :| n in t.exchanges && m in t.exchanges && t.exchanges[n] == x && t.exchanges[m] == y;
    }
    forall x, y | x in t.queues.Values && y in t.queues.Values && x.spec.name == y.spec.name
      ensures x == y
    {
      var n, m :| n in t.queues && m in t.queues && t.queues[n] == x && t.queues[m] == y;
    }
    ListingBySorted(ExchangeName(), t.exchanges.Values);
    ListingBySorted(QueueName(), t.queues.Values);
  }

  lemma RestoredExchangeAt(t: Topology, n: string)
    requires NamesOk(t) && SortedBy(ExchangeName(), Exchanges(t))
    ensures var r := RestoreExchanges(EmptyTopology(), Exchanges(t));
            && r == EmptyTopology().(exchanges := r.exchanges)
            && (n in r.exchanges <==> n in t.exchanges) && (n in t.exchanges ==> r.exchanges[n] == t.exchanges[n])
  {
    hide RestoreExchanges, ListingBy, SortedBy, CheckExchange, CheckQueue;
    var es := Exchanges(t);
    var r := RestoreExchanges(EmptyTopology(), es);
    DifferentNames(ExchangeName(), es);
    RestoredExchanges(EmptyTopology(), es);
    if n in t.exchanges {
      assert t.exchanges[n] in es;
      var i :| 0 <= i < |es| && es[i] == t.exchanges[n];
    }
    if n in r.exchanges {
      var i :| 0 <= i < |es| && es[i].spec.name == n;
      assert es[i] in t.exchanges.Values;
    }
  }

  lemma RestoredExchangeTable(t: Topology)
    requires NamesOk(t)
    ensures RestoreExchanges(EmptyTopology(), Exchanges(t)) == Topology(t.exchanges, map[], map[])
  {
    hide RestoreExchanges, Exchanges, NamesOk, SortedBy;
    SortedNames(t);
    var r := RestoreExchanges(EmptyTopology(), Exchanges(t));
    forall n
      ensures n in r.exchanges <==> n in t.exchanges
      ensures n in t.exchanges ==> r.exchanges[n] == t.exchanges[n]
    {
      RestoredExchangeAt(t, n);
    }
    RestoredExchangeAt(t, "");
  }

  lemma RestoredQueueAt(t: Topology, base: Topology, n: string)
    requires NamesOk(t) && base.queues == map[] && SortedBy(QueueName(), Queues(t))
    ensures var r := RestoreQueues(base, Queues(t));
            && r == base.(queues := r.queues)
            && (n in r.queues <==> n in t.queues) && (n in t.queues ==> r.queues[n] == t.queues[n])
  {
    hide RestoreQueues, ListingBy, SortedBy, CheckExchange, CheckQueue;
    var qs := Queues(t);
    var r := RestoreQueues(base, qs);
    DifferentNames(QueueName(), qs);
    RestoredQueues(base, qs);
    if n in t.queues {
      assert t.queues[n] in qs;
      var i :| 0 <= i < |qs| && qs[i] == t.queues[n];
    }
    if n in r.queues {
      var i :| 0 <= i < |qs| && qs[i].spec.name == n;
      assert qs[i] in t.queues.Values;
    }
  }

  lemma RestoredQueueTable(t: Topology, base: Topology)
    requires NamesOk(t) && base.queues == map[]
    ensures RestoreQueues(base, Queues(t)) == base.(queues := t.queues)
  {
    hide RestoreQueues, Queues, NamesOk, SortedBy;
    SortedNames(t);
    var r := RestoreQueues(base, Queues(t));
    forall n
      ensures n in r.queues <==> n in t.queues
      ensures n in t.queues ==> r.queues[n] == t.queues[n]
    {
      RestoredQueueAt(t, base, n);
    }
    RestoredQueueAt(t, base, "");
  }

  lemma DifferentNames<T(!new)>(key: T -> string, xs: seq<T>)
    requires SortedBy(key, xs)
    ensures forall i, j :: 0 <= i < j < |xs| ==> key(xs[i]) != key(xs[j])
  {
    forall i, j | 0 <= i < j < |xs|
      ensures key(xs[i]) != key(xs[j])
    {
      LessIrreflexive(key(xs[i]));
    }
  }

  /** The binding listing, seen from one exchange, holds exactly that exchange's bindings. */
  lemma ListedBindings(t: Topology, exchange: string)
    requires TopologyOk(t)
    ensures SortedBy(BindingKey(), AllBindings(t))
    ensures forall x :: x in Filter(Of(exchange), AllBindings(t)) <==> x in BindingsOf(t, exchange)
  {
    forall x, y | x in AllBound(t) && y in AllBound(t) && Key(x.spec) == Key(y.spec)
      ensures x == y
    {
      KeysAreGlobal(t, x, y);
    }
    ListingBySorted(BindingKey(), AllBound(t));
    forall x
      ensures x in Filter(Of(exchange), AllBindings(t)) <==> x in BindingsOf(t, exchange)
    {
      assert TableOk(t, exchange);
      if x in BindingsOf(t, exchange) {
        assert BindingOk(t, exchange, x);
        assert x in AllBound(t);
      }
      if x in AllBound(t) && x.spec.exchange == exchange {
        var e :| e in t.bindings && x in t.bindings[e];
        assert TableOk(t, e) && BindingOk(t, e, x);
      }
    }
  }

  function Declared(t: Topology): Topology {
    Topology(t.exchanges, t.queues, map[])
  }

  lemma RestoredTable(t: Topology, exchange: string)
    requires TopologyOk(t)
    ensures var r := RestoreBindings(Declared(t), AllBindings(t));
            && r == t.(bindings := r.bindings)
            && SameTable(t, r, exchange) && TableOk(r, exchange)
  {
    hide RestoreBindings, CheckBinding, Filter;
    var r := RestoreBindings(Declared(t), AllBindings(t));
    RestoredBindings(Declared(t), AllBindings(t), exchange);
    ListedBindings(t, exchange);
    var table := Filter(Of(exchange), AllBindings(t));
    assert BindingsOf(r, exchange) == [] + table == table;
    SortedKeysDistinct(AllBindings(t), Of(exchange));
    assert TableOk(t, exchange);
    forall b | b in table
      ensures BindingOk(r, exchange, b)
    {
      assert BindingOk(t, exchange, b);
    }
  }

  lemma {:induction false} SortedKeysDistinct(bs: seq<Binding>, p: Binding -> bool)
    requires SortedBy(BindingKey(), bs)
    ensures DistinctKeys(BindingKey(), Filter(p, bs))
    decreases |bs|
  {
    if bs != [] {
      var front, last := bs[..|bs| - 1], bs[|bs| - 1];
      SortedKeysDistinct(front, p);
      forall b | b in Filter(p, front)
        ensures Key(b.spec) != Key(last.spec)
      {
        var i :| 0 <= i < |front| && front[i] == b;
        LessIrreflexive(Key(b.spec));
      }
      DistinctKeysPush(BindingKey(), Filter(p, front), last);
    }
  }

  /** A fresh registry restored from the listings of a sound one is the same registry, up to the order of
      the bindings within an exchange. */
  lemma RestoreRoundTrip(t: Topology)
    requires TopologyOk(t)
    ensures Same(t, Restore(EmptyTopology(), Exchanges(t), Queues(t), AllBindings(t)))
  {
    hide RestoreExchanges, RestoreQueues, RestoreBindings, TableOk, SameTable;
    hide CheckExchange, CheckQueue, Exchanges, Queues, AllBindings;
    RestoredExchangeTable(t);
    RestoredQueueTable(t, Topology(t.exchanges, map[], map[]));
    var r := RestoreBindings(Declared(t), AllBindings(t));
    forall exchange
      ensures SameTable(t, r, exchange) && TableOk(r, exchange)
    {
      RestoredTable(t, exchange);
    }
    RestoredTable(t, "");
  }

  // ----- Every sequence of operations -----

  datatype Op =
    | DoDeclareExchange(exchange: ExchangeSpec, now: int)
    | DoDeclareQueue(queue: QueueSpec, now: int)
    | DoBind(binding: BindingSpec, now: int)
    | DoUnbind(binding: BindingSpec)
    | DoDeleteQueue(name: string)
    | DoRoute(name: string, key: string)
    | ListExchanges
    | ListQueues
    | ListBindings

  datatype Reply =
    | OfExchange(e: Answer<Exchange>)
    | OfQueue(q: Answer<Queue>)
    | OfBinding(b: Answer<Binding>)
    | OfUnit(u: Answer<()>)
    | OfRoute(r: Answer<seq<Queue>>)
    | Listed(es: seq<Exchange>, qs: seq<Queue>, bs: seq<Binding>)

  ghost function Step(t: Topology, op: Op): (Topology, Reply) {
    match op
    case DoDeclareExchange(spec, now) => var r := DeclareExchange(t, spec, now); (r.0, OfExchange(r.1))
    case DoDeclareQueue(spec, now) => var r := DeclareQueue(t, spec, now); (r.0, OfQueue(r.1))
    case DoBind(spec, now) => var r := Bind(t, spec, now); (r.0, OfBinding(r.1))
    case DoUnbind(spec) => var r := Unbind(t, spec); (r.0, OfUnit(r.1))
    case DoDeleteQueue(name) => var r := DeleteQueue(t, name); (r.0, OfUnit(r.1))
    case DoRoute(exchange, key) => (t, OfRoute(Route(t, exchange, key)))
    case ListExchanges => (t, Listed(Exchanges(t), [], []))
    case ListQueues => (t, Listed([], Queues(t), []))
    case ListBindings => (t, Listed([], [], AllBindings(t)))
  }

  ghost function Run(t: Topology, ops: seq<Op>): Topology
    decreases |ops|
  {
    if ops == [] then t else Run(Step(t, ops[0]).0, ops[1..])
  }

  ghost function Replies(t: Topology, ops: seq<Op>): seq<Reply>
    decreases |ops|
  {
    if ops == [] then [] else [Step(t, ops[0]).1] + Replies(Step(t, ops[0]).0, ops[1..])
  }

  lemma StepKeeps(t: Topology, op: Op)
    requires TopologyOk(t)
    ensures TopologyOk(Step(t, op).0)
  {
    match op
    case DoDeclareExchange(spec, now) => DeclareKeeps(t, spec, QueueSpec("", false, 0, 0, ""), now);
    case DoDeclareQueue(spec, now) => DeclareKeeps(t, ExchangeSpec("", Direct, false), spec, now);
    case DoBind(spec, now) => BindKeeps(t, spec, now);
    case DoUnbind(spec) => UnbindKeeps(t, spec);
    case DoDeleteQueue(name) => DeleteQueueKeeps(t, name);
    case _ =>
  }

  /** From an empty registry, every sequence of operations keeps the references closed. */
  lemma {:induction false} RunKeeps(t: Topology, ops: seq<Op>)
    requires TopologyOk(t)
    ensures TopologyOk(Run(t, ops))
    decreases |ops|
  {
    hide TopologyOk;
    if ops != [] {
      StepKeeps(t, ops[0]);
      RunKeeps(Step(t, ops[0]).0, ops[1..]);
    }
  }

  /** Two tables with the same bindings find the same one. */
  lemma SameFind(xs: seq<Binding>, ys: seq<Binding>, key: string)
    requires DistinctKeys(BindingKey(), xs) && DistinctKeys(BindingKey(), ys)
    requires forall b :: b in xs <==> b in ys
    ensures Find(xs, key) < |xs| <==> Find(ys, key) < |ys|
    ensures Find(xs, key) < |xs| ==> xs[Find(xs, key)] == ys[Find(ys, key)]
  {
    var i, j := Find(xs, key), Find(ys, key);
    if i < |xs| {
      assert xs[i] in ys;
      var k :| 0 <= k < |ys| && ys[k] == xs[i];
    }
    if j < |ys| {
      assert ys[j] in xs;
      var k :| 0 <= k < |xs| && xs[k] == ys[j];
    }
  }

  lemma SameFindIn(a: Topology, b: Topology, exchange: string, key: string)
    requires Same(a, b)
    ensures var xs, ys := BindingsOf(a, exchange), BindingsOf(b, exchange);
            && (Find(xs, key) < |xs| <==> Find(ys, key) < |ys|)
            && (Find(xs, key) < |xs| ==> xs[Find(xs, key)] == ys[Find(ys, key)])
  {
    assert SameTable(a, b, exchange) && TableOk(a, exchange) && TableOk(b, exchange);
    SameFind(BindingsOf(a, exchange), BindingsOf(b, exchange), key);
  }

  lemma BindSame(a: Topology, b: Topology, spec: BindingSpec, now: int)
    requires Same(a, b)
    ensures Same(Bind(a, spec, now).0, Bind(b, spec, now).0)
    ensures Bind(a, spec, now).1 == Bind(b, spec, now).1
  {
    hide TopologyOk, CheckBinding, Find;
    SameFindIn(a, b, spec.exchange, Key(spec));
    BindKeeps(a, spec, now);
    BindKeeps(b, spec, now);
    var a', b' := Bind(a, spec, now).0, Bind(b, spec, now).0;
    forall exchange, x
      ensures x in BindingsOf(a', exchange) <==> x in BindingsOf(b', exchange)
    {
      assert SameTable(a, b, exchange);
      assert x in BindingsOf(a, exchange) <==> x in BindingsOf(b, exchange);
    }
  }

  lemma UnbindSame(a: Topology, b: Topology, spec: BindingSpec)
    requires Same(a, b)
    ensures Same(Unbind(a, spec).0, Unbind(b, spec).0)
    ensures Unbind(a, spec).1 == Unbind(b, spec).1
  {
    assert SameTable(a, b, spec.exchange) && TableOk(a, spec.exchange) && TableOk(b, spec.exchange);
    var xs, ys := BindingsOf(a, spec.exchange), BindingsOf(b, spec.exchange);
    SameFind(xs, ys, Key(spec));
    UnbindKeeps(a, spec);
    UnbindKeeps(b, spec);
    if Find(xs, Key(spec)) < |xs| {
      CutKeepsKeys(xs, Find(xs, Key(spec)));
      CutKeepsKeys(ys, Find(ys, Key(spec)));
    }
    var a', b' := Unbind(a, spec).0, Unbind(b, spec).0;
    forall exchange, x
      ensures x in BindingsOf(a', exchange) <==> x in BindingsOf(b', exchange)
    {
      assert SameTable(a, b, exchange);
      assert x in BindingsOf(a, exchange) <==> x in BindingsOf(b, exchange);
    }
  }

  lemma BoundSame(a: Topology, b: Topology)
    requires Same(a, b)
    ensures AllBound(a) == AllBound(b)
  {
    forall x
      ensures x in AllBound(a) <==> x in AllBound(b)
    {
      if x in AllBound(a) {
        var e :| e in a.bindings && x in a.bindings[e];
        assert SameTable(a, b, e);
        assert x in BindingsOf(b, e);
      }
      if x in AllBound(b) {
        var e :| e in b.bindings && x in b.bindings[e];
        assert SameTable(a, b, e);
        assert x in BindingsOf(a, e);
      }
    }
  }

  lemma RouteSame(a: Topology, b: Topology, exchange: string, key: string)
    requires Same(a, b)
    ensures Route(a, exchange, key) == Route(b, exchange, key)
  {
    assert SameTable(a, b, exchange);
    if exchange in a.exchanges {
      var kind := a.exchanges[exchange].spec.kind;
      assert Targets(BindingsOf(a, exchange), kind, key, a.queues.Keys)
             == Targets(BindingsOf(b, exchange), kind, key, b.queues.Keys);
    }
  }

  lemma DeclareSame(a: Topology, b: Topology, op: Op)
    requires Same(a, b) && (op.DoDeclareExchange? || op.DoDeclareQueue? || op.DoDeleteQueue?)
    ensures Same(Step(a, op).0, Step(b, op).0) && Step(a, op).1 == Step(b, op).1
  {
    hide TopologyOk, CheckExchange, CheckQueue, AllBound;
    BoundSame(a, b);
    StepKeeps(a, op);
    StepKeeps(b, op);
    var a', b' := Step(a, op).0, Step(b, op).0;
    forall exchange, x
      ensures x in BindingsOf(a', exchange) <==> x in BindingsOf(b', exchange)
    {
      assert SameTable(a, b, exchange);
      assert x in BindingsOf(a, exchange) <==> x in BindingsOf(b, exchange);
    }
  }

  /** The same registry answers the same and stays the same, whatever the operation. */
  lemma StepSame(a: Topology, b: Topology, op: Op)
    requires Same(a, b)
    ensures Same(Step(a, op).0, Step(b, op).0) && Step(a, op).1 == Step(b, op).1
  {
    match op
    case DoBind(spec, now) => BindSame(a, b, spec, now);
    case DoUnbind(spec) => UnbindSame(a, b, spec);
    case DoRoute(exchange, key) => RouteSame(a, b, exchange, key);
    case ListBindings => BoundSame(a, b);
    case ListExchanges =>
    case ListQueues =>
    case _ => DeclareSame(a, b, op);
  }

  lemma {:induction false} RunsStaySame(a: Topology, b: Topology, ops: seq<Op>)
    requires Same(a, b)
    ensures Same(Run(a, ops), Run(b, ops)) && Replies(a, ops) == Replies(b, ops)
    decreases |ops|
  {
    hide Same;
    if ops != [] {
      StepSame(a, b, ops[0]);
      RunsStaySame(Step(a, ops[0]).0, Step(b, ops[0]).0, ops[1..]);
    }
  }

  /** Whatever was done before and whatever is done afterwards, a registry restored from its own
      listings answers every operation as the original would have. */
  lemma RestoreIsInvisible(before: seq<Op>, after: seq<Op>)
    ensures var t := Run(EmptyTopology(), before);
            var r := Restore(EmptyTopology(), Exchanges(t), Queues(t), AllBindings(t));
            Replies(t, after) == Replies(r, after)
  {
    hide TopologyOk, Same, Restore;
    var t := Run(EmptyTopology(), before);
    EmptyIsOk();
    RunKeeps(EmptyTopology(), before);
    RestoreRoundTrip(t);
    RunsStaySame(t, Restore(EmptyTopology(), Exchanges(t), Queues(t), AllBindings(t)), after);
  }

  lemma EmptyIsOk()
    ensures TopologyOk(EmptyTopology())
  {}
}
