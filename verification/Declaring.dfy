/** What the registry accepts: the exact conditions of declaring, binding and deleting, and their whole effect. */
module Declaring {
  import opened Topic
  import opened TopologySpec
  import opened TopologyRuns

  /** 1 to 128 letters, digits, dots, underscores and hyphens, beginning with a letter or digit. */
  predicate GoodName(s: string) {
    && 1 <= |s| <= 128 && s[0] !in {'.', '_', '-'}
    && forall i :: 0 <= i < |s| ==>
         'a' <= s[i] <= 'z' || 'A' <= s[i] <= 'Z' || '0' <= s[i] <= '9' || s[i] in {'.', '_', '-'}
  }

  lemma NamePassesIff(field: string, s: string)
    ensures CheckName(field, s).Pass? <==> GoodName(s)
    ensures CheckName(field, s).Fail? ==> CheckName(field, s).fault.Invalid?
  {}

  /** A queue can be declared if its name and schema are good, it allows an attempt and its leases last; again only
      with the same settings, and then nothing changes. Left-out settings are three attempts and thirty seconds. */
  lemma DeclareQueueIsExact(t: Topology, raw: QueueSpec, now: int)
    ensures var (t', r) := DeclareQueue(t, raw, now);
            var attempts := if raw.maxAttempts == 0 then 3 else raw.maxAttempts;
            var span := if raw.visibilityTimeout == 0 then 30_000_000_000 else raw.visibilityTimeout;
            var spec := QueueSpec(raw.name, raw.durable, attempts, span, raw.schema);
            if !GoodName(raw.name) || attempts < 1 || span <= 0 || (raw.schema != "" && !GoodName(raw.schema)) then
              t' == t && r.Fault? && r.fault.Invalid?
            else if raw.name !in t.queues then
              r == Fine(Queue(spec, now)) && t' == t.(queues := t.queues[raw.name := Queue(spec, now)])
            else
              t' == t && r == if t.queues[raw.name].spec == spec then Fine(t.queues[raw.name]) else Fault(QueueExists)
  {
    hide CheckName, GoodName;
    NamePassesIff("queue name", raw.name);
    NamePassesIff("schema", raw.schema);
  }

  /** An exchange can be declared if its name is good and its kind is known; again only with the same settings. */
  lemma DeclareExchangeIsExact(t: Topology, spec: ExchangeSpec, now: int)
    ensures var (t', r) := DeclareExchange(t, spec, now);
            if !GoodName(spec.name) || spec.kind !in {Direct, Fanout, Topical} then
              t' == t && r.Fault? && r.fault.Invalid?
            else if spec.name !in t.exchanges then
              r == Fine(Exchange(spec, now)) && t' == t.(exchanges := t.exchanges[spec.name := Exchange(spec, now)])
            else
              t' == t && r == if t.exchanges[spec.name].spec == spec then Fine(t.exchanges[spec.name])
                              else Fault(ExchangeExists)
  {
    hide CheckName, GoodName;
    NamePassesIff("exchange name", spec.name);
  }

  /** The key suits the kind: any for fanout, a literal for direct, a pattern of whole words for topic. */
  ghost predicate Suits(key: string, kind: Kind) {
    match kind
    case Fanout => true
    case Direct => 1 <= |key| <= 255 && '*' !in key && '#' !in key
    case Topical => 1 <= |key| <= 255 && SoundSegments(Split(key))
    case Unknown(_) => false
  }

  lemma KeyPassesIff(key: string)
    ensures CheckRoutingKey(key).Pass? <==> 1 <= |key| <= 255 && '*' !in key && '#' !in key
    ensures CheckRoutingKey(key).Fail? ==> CheckRoutingKey(key).fault.Invalid?
  {}

  lemma {:induction false} SegmentsFault(segments: seq<string>)
    ensures CheckSegments(segments).Fail? ==> CheckSegments(segments).fault.Invalid?
    decreases |segments|
  {
    if segments != [] { SegmentsFault(segments[1..]); }
  }

  lemma BindingPassesIff(spec: BindingSpec, kind: Kind)
    ensures CheckBinding(spec, kind).Pass? <==>
              GoodName(spec.exchange) && GoodName(spec.queue) && Suits(spec.routingKey, kind)
    ensures CheckBinding(spec, kind).Fail? ==> CheckBinding(spec, kind).fault.Invalid?
  {
    hide CheckName, GoodName, CheckRoutingKey, CheckSegments, SoundSegments, Split;
    NamePassesIff("exchange name", spec.exchange);
    NamePassesIff("queue name", spec.queue);
    KeyPassesIff(spec.routingKey);
    PatternPassesIff(spec.routingKey);
    SegmentsFault(Split(spec.routingKey));
  }

  /** A binding between declared ends with a suitable key is added once, behind the others of its exchange. Binding
      the same again changes nothing and gives the binding there is. */
  lemma BindIsExact(t: Topology, spec: BindingSpec, now: int)
    requires TopologyOk(t)
    ensures var (t', r) := Bind(t, spec, now);
            var bs := BindingsOf(t, spec.exchange);
            if spec.queue !in t.queues then t' == t && r == Fault(QueueNotFound)
            else if spec.exchange !in t.exchanges then t' == t && r == Fault(ExchangeNotFound)
            else if !Suits(spec.routingKey, t.exchanges[spec.exchange].spec.kind) then
              t' == t && r.Fault? && r.fault.Invalid?
            else if exists b :: b in bs && b.spec == spec then
              t' == t && r.Fine? && r.value in bs && r.value.spec == spec
            else
              && r == Fine(Binding(spec, now))
              && t' == t.(bindings := t.bindings[spec.exchange := bs + [Binding(spec, now)]])
  {
    hide CheckName, CheckBinding, CheckExchange, CheckQueue, GoodName, Suits, Key;
    if spec.queue in t.queues && spec.exchange in t.exchanges {
      var kind := t.exchanges[spec.exchange].spec.kind;
      BindingPassesIff(spec, kind);
      DeclaredNames(t, spec.exchange, spec.queue);
      SameKeySameBinding(t, spec);
    }
  }

  lemma DeclaredNames(t: Topology, exchange: string, queue: string)
    requires TopologyOk(t) && exchange in t.exchanges && queue in t.queues
    ensures GoodName(exchange) && GoodName(queue)
  {
    hide CheckName, GoodName;
    NamePassesIff("exchange name", exchange);
    NamePassesIff("queue name", queue);
  }

  /** Between declared ends a key stands for one specification. */
  lemma SameKeySameBinding(t: Topology, spec: BindingSpec)
    requires TopologyOk(t) && spec.exchange in t.exchanges && spec.queue in t.queues
    ensures forall b :: b in BindingsOf(t, spec.exchange) ==> (Key(b.spec) == Key(spec) <==> b.spec == spec)
  {
    hide CheckBinding, Key, GoodName;
    DeclaredNames(t, spec.exchange, spec.queue);
    assert TableOk(t, spec.exchange);
    forall b | b in BindingsOf(t, spec.exchange) && Key(b.spec) == Key(spec)
      ensures b.spec == spec
    {
      assert BindingOk(t, spec.exchange, b);
      DeclaredNames(t, b.spec.exchange, b.spec.queue);
      GoodNamesHaveNoNul(b.spec.queue);
      GoodNamesHaveNoNul(b.spec.exchange);
      GoodNamesHaveNoNul(spec.queue);
      KeyInjective(b.spec, spec);
    }
  }

  lemma GoodNamesHaveNoNul(s: string)
    requires GoodName(s)
    ensures '\0' !in s
  {}

  /** A queue can be deleted if it is declared and no binding of any exchange leads to it; nothing else changes. */
  lemma DeleteQueueIsExact(t: Topology, name: string)
    ensures var (t', r) := DeleteQueue(t, name);
            if name !in t.queues then t' == t && r == Fault(QueueNotFound)
            else if exists e, b :: e in t.bindings && b in t.bindings[e] && b.spec.queue == name then
              t' == t && r == Fault(QueueInUse)
            else r == Fine(()) && t' == t.(queues := t.queues - {name})
  {
    if e, b :| e in t.bindings && b in t.bindings[e] && b.spec.queue == name {
      assert b in AllBound(t);
    }
  }
}
