/** Exchanges, queues and bindings as a value: the registry's operations and its invariant. */
module TopologySpec {
  import opened Ordering
  import opened Topic

  const MAX_NAME_LENGTH := 128
  const MAX_ROUTING_KEY_LENGTH := 255
  const DEFAULT_MAX_ATTEMPTS := 3
  const DEFAULT_VISIBILITY := 30000000000

  datatype Kind = Direct | Fanout | Topical | Unknown(raw: string)

  datatype ExchangeSpec = ExchangeSpec(name: string, kind: Kind, durable: bool)
  datatype Exchange = Exchange(spec: ExchangeSpec, createdAt: int)

  datatype QueueSpec = QueueSpec(name: string, durable: bool, maxAttempts: int, visibilityTimeout: int, schema: string)
  datatype Queue = Queue(spec: QueueSpec, createdAt: int)

  datatype BindingSpec = BindingSpec(exchange: string, queue: string, routingKey: string)
  datatype Binding = Binding(spec: BindingSpec, createdAt: int)

  datatype Fault =
    | QueueNotFound | QueueExists | ExchangeNotFound | ExchangeExists | BindingNotFound | QueueInUse | Unroutable
    | Invalid(field: string, reason: string)

  datatype Answer<+T> = Fine(value: T) | Fault(fault: Fault)

  datatype Check = Pass | Fail(fault: Fault)

  datatype Topology = Topology(
    exchanges: map<string, Exchange>,
    queues: map<string, Queue>,
    bindings: map<string, seq<Binding>>)

  function EmptyTopology(): Topology {
    Topology(map[], map[], map[])
  }

  // ----- Validation -----

  predicate Alphanumeric(c: char) {
    'a' <= c <= 'z' || 'A' <= c <= 'Z' || '0' <= c <= '9'
  }

  predicate NamePattern(s: string) {
    s != "" && Alphanumeric(s[0]) && forall i :: 0 <= i < |s| ==>
        Alphanumeric(s[i]) || s[i] == '.' || s[i] == '_' || s[i] == '-'
  }

  function CheckName(field: string, value: string): Check {
    if value == "" then Fail(Invalid(field, "must not be empty"))
    else if |value| > MAX_NAME_LENGTH then Fail(Invalid(field, "exceeds maximum length"))
    else if !NamePattern(value) then Fail(Invalid(field, "must match [a-zA-Z0-9][a-zA-Z0-9._-]*"))
    else Pass
  }

  function CheckExchange(spec: ExchangeSpec): Check {
    var named := CheckName("exchange name", spec.name);
    if named.Fail? then named
    else if spec.kind.Unknown? then Fail(Invalid("kind", "must be one of direct, fanout, topic"))
    else Pass
  }

  function WithDefaults(spec: QueueSpec): QueueSpec {
    spec.(maxAttempts := if spec.maxAttempts == 0 then DEFAULT_MAX_ATTEMPTS else spec.maxAttempts,
          visibilityTimeout := if spec.visibilityTimeout == 0 then DEFAULT_VISIBILITY else spec.visibilityTimeout)
  }

  function CheckQueue(spec: QueueSpec): Check {
    var named := CheckName("queue name", spec.name);
    if named.Fail? then named
    else if spec.maxAttempts < 1 then Fail(Invalid("max_attempts", "must be at least 1"))
    else if spec.visibilityTimeout <= 0 then Fail(Invalid("visibility_timeout", "must be positive"))
    else if spec.schema != "" then CheckName("schema", spec.schema)
    else Pass
  }

  function CheckRoutingKey(key: string): Check {
    if key == "" then Fail(Invalid("routing_key", "must not be empty"))
    else if |key| > MAX_ROUTING_KEY_LENGTH then Fail(Invalid("routing_key", "exceeds maximum length"))
    else if HasWildcard(key) then Fail(Invalid("routing_key", "wildcards are only valid on topic exchanges"))
    else Pass
  }

  function CheckSegments(segments: seq<string>): Check {
    if segments == [] then Pass
    else if segments[0] == "" then Fail(Invalid("routing_key", "must not contain empty segments"))
    else if HasWildcard(segments[0]) && |segments[0]| != 1
              then Fail(Invalid("routing_key", "wildcard segments must stand alone"))
    else CheckSegments(segments[1..])
  }

  function CheckPattern(pattern: string): Check {
    if pattern == "" then Fail(Invalid("routing_key", "must not be empty"))
    else if |pattern| > MAX_ROUTING_KEY_LENGTH then Fail(Invalid("routing_key", "exceeds maximum length"))
    else CheckSegments(Split(pattern))
  }

  function CheckBinding(spec: BindingSpec, kind: Kind): Check {
    var exchange := CheckName("exchange name", spec.exchange);
    var queue := CheckName("queue name", spec.queue);
    if exchange.Fail? then exchange
    else if queue.Fail? then queue
    else match kind
      case Fanout => Pass
      case Direct => CheckRoutingKey(spec.routingKey)
      case Topical => CheckPattern(spec.routingKey)
      case Unknown(_) => Fail(Invalid("kind", "unsupported exchange kind"))
  }

  function Key(spec: BindingSpec): string {
    spec.exchange + "\0" + spec.queue + "\0" + spec.routingKey
  }

  function BindingKey(): Binding -> string {
    (b: Binding) => Key(b.spec)
  }

  // ----- Routing -----

  function BindingsOf(t: Topology, exchange: string): seq<Binding> {
    if exchange in t.bindings then t.bindings[exchange] else []
  }

  predicate BindingMatches(kind: Kind, pattern: string, key: string) {
    match kind
    case Fanout => true
    case Direct => pattern == key
    case Topical => TopicMatches(pattern, key)
    case Unknown(_) => false
  }

  /** The queues some matching binding leads to. */
  function Targets(bs: seq<Binding>, kind: Kind, key: string, declared: set<string>): set<string> {
    set b | b in bs && b.spec.queue in declared && BindingMatches(kind, b.spec.routingKey, key) :: b.spec.queue
  }

  ghost function QueuesNamed(t: Topology, names: seq<string>): seq<Queue>
    requires forall n :: n in names ==> n in t.queues
  {
    seq(|names|, i requires 0 <= i < |names| => t.queues[names[i]])
  }

  ghost function Route(t: Topology, exchange: string, key: string): Answer<seq<Queue>> {
    if exchange !in t.exchanges then Fault(ExchangeNotFound)
    else
      var targets := Targets(BindingsOf(t, exchange), t.exchanges[exchange].spec.kind, key, t.queues.Keys);
      if targets == {} then Fault(Unroutable) else Fine(QueuesNamed(t, Listing(targets)))
  }

  // ----- Operations -----

  function DeclareExchange(t: Topology, spec: ExchangeSpec, now: int): (Topology, Answer<Exchange>) {
    if CheckExchange(spec).Fail? then (t, Fault(CheckExchange(spec).fault))
    else if spec.name in t.exchanges then
      (t, if t.exchanges[spec.name].spec != spec then Fault(ExchangeExists) else Fine(t.exchanges[spec.name]))
    else (t.(exchanges := t.exchanges[spec.name := Exchange(spec, now)]), Fine(Exchange(spec, now)))
  }

  function DeclareQueue(t: Topology, raw: QueueSpec, now: int): (Topology, Answer<Queue>) {
    var spec := WithDefaults(raw);
    if CheckQueue(spec).Fail? then (t, Fault(CheckQueue(spec).fault))
    else if spec.name in t.queues then
      (t, if t.queues[spec.name].spec != spec then Fault(QueueExists) else Fine(t.queues[spec.name]))
    else (t.(queues := t.queues[spec.name := Queue(spec, now)]), Fine(Queue(spec, now)))
  }

  /** The position of the first binding with this key, or the length. */
  function Find(bs: seq<Binding>, key: string): (i: nat)
    ensures i <= |bs|
    ensures i < |bs| ==> Key(bs[i].spec) == key
    ensures forall j :: 0 <= j < i ==> Key(bs[j].spec) != key
  {
    if bs == [] || Key(bs[0].spec) == key then 0 else 1 + Find(bs[1..], key)
  }

  function Bind(t: Topology, spec: BindingSpec, now: int): (Topology, Answer<Binding>) {
    if spec.queue !in t.queues then (t, Fault(QueueNotFound))
    else if spec.exchange !in t.exchanges then (t, Fault(ExchangeNotFound))
    else
      var check := CheckBinding(spec, t.exchanges[spec.exchange].spec.kind);
      var bs := BindingsOf(t, spec.exchange);
      var i := Find(bs, Key(spec));
      if check.Fail? then (t, Fault(check.fault))
      else if i < |bs| then (t, Fine(bs[i]))
      else (t.(bindings := t.bindings[spec.exchange := bs + [Binding(spec, now)]]), Fine(Binding(spec, now)))
  }

  function Unbind(t: Topology, spec: BindingSpec): (Topology, Answer<()>) {
    var bs := BindingsOf(t, spec.exchange);
    var i := Find(bs, Key(spec));
    if i < |bs| then (t.(bindings := t.bindings[spec.exchange := bs[..i] + bs[i + 1..]]), Fine(()))
    else (t, Fault(BindingNotFound))
  }

  /** Every binding of every exchange. */
  function AllBound(t: Topology): set<Binding> {
    set exchange, b | exchange in t.bindings && b in t.bindings[exchange] :: b
  }

  ghost predicate Referenced(t: Topology, queue: string) {
    exists b :: b in AllBound(t) && b.spec.queue == queue
  }

  ghost function DeleteQueue(t: Topology, name: string): (Topology, Answer<()>) {
    if name !in t.queues then (t, Fault(QueueNotFound))
    else if Referenced(t, name) then (t, Fault(QueueInUse))
    else (t.(queues := t.queues - {name}), Fine(()))
  }

  // ----- Listings and restoring -----

  function ExchangeName(): Exchange -> string {
    (e: Exchange) => e.spec.name
  }

  function QueueName(): Queue -> string {
    (q: Queue) => q.spec.name
  }

  ghost function Exchanges(t: Topology): seq<Exchange> {
    ListingBy(ExchangeName(), t.exchanges.Values)
  }

  ghost function Queues(t: Topology): seq<Queue> {
    ListingBy(QueueName(), t.queues.Values)
  }

  ghost function AllBindings(t: Topology): seq<Binding> {
    ListingBy(BindingKey(), AllBound(t))
  }

  function RestoreExchanges(t: Topology, exchanges: seq<Exchange>): Topology {
    if exchanges == [] then t
    else
      var last := exchanges[|exchanges| - 1];
      var front := RestoreExchanges(t, exchanges[..|exchanges| - 1]);
      front.(exchanges := front.exchanges[last.spec.name := last])
  }

  function RestoreQueues(t: Topology, queues: seq<Queue>): Topology {
    if queues == [] then t
    else
      var last := queues[|queues| - 1];
      var front := RestoreQueues(t, queues[..|queues| - 1]);
      front.(queues := front.queues[last.spec.name := last])
  }

  function RestoreBindings(t: Topology, bindings: seq<Binding>): Topology {
    if bindings == [] then t
    else
      var last := bindings[|bindings| - 1];
      var front := RestoreBindings(t, bindings[..|bindings| - 1]);
      front.(bindings := front.bindings[last.spec.exchange := BindingsOf(front, last.spec.exchange) + [last]])
  }

  function Restore(t: Topology, exchanges: seq<Exchange>, queues: seq<Queue>, bindings: seq<Binding>): Topology {
    RestoreBindings(RestoreQueues(RestoreExchanges(t, exchanges), queues), bindings)
  }

  // ----- The invariant -----

  ghost predicate BindingOk(t: Topology, exchange: string, b: Binding) {
    && b.spec.exchange == exchange && exchange in t.exchanges && b.spec.queue in t.queues
    && CheckBinding(b.spec, t.exchanges[exchange].spec.kind).Pass?
  }

  ghost predicate TableOk(t: Topology, exchange: string) {
    && DistinctKeys(BindingKey(), BindingsOf(t, exchange))
    && (forall b :: b in BindingsOf(t, exchange) ==> BindingOk(t, exchange, b))
  }

  ghost predicate NamesOk(t: Topology) {
    && (forall n :: n in t.exchanges ==> t.exchanges[n].spec.name == n && CheckExchange(t.exchanges[n].spec).Pass?)
    && (forall n :: n in t.queues ==> t.queues[n].spec.name == n && CheckQueue(t.queues[n].spec).Pass?)
  }

  /** Bindings are pairwise distinct, valid for their exchange's kind, and refer to what is declared. */
  ghost predicate TopologyOk(t: Topology) {
    NamesOk(t) && forall exchange :: TableOk(t, exchange)
  }

  // ----- Every operation keeps it -----

  lemma DeclareKeeps(t: Topology, espec: ExchangeSpec, qspec: QueueSpec, now: int)
    requires TopologyOk(t)
    ensures TopologyOk(DeclareExchange(t, espec, now).0) && TopologyOk(DeclareQueue(t, qspec, now).0)
  {
    var a, b := DeclareExchange(t, espec, now).0, DeclareQueue(t, qspec, now).0;
    forall exchange
      ensures TableOk(a, exchange) && TableOk(b, exchange)
    {
      assert TableOk(t, exchange);
      assert BindingsOf(a, exchange) == BindingsOf(t, exchange) == BindingsOf(b, exchange);
      forall x | x in BindingsOf(t, exchange)
        ensures BindingOk(a, exchange, x) && BindingOk(b, exchange, x)
      {
        assert BindingOk(t, exchange, x);
      }
    }
  }

  lemma BindKeeps(t: Topology, spec: BindingSpec, now: int)
    requires TopologyOk(t)
    ensures TopologyOk(Bind(t, spec, now).0)
  {
    var t' := Bind(t, spec, now).0;
    forall exchange
      ensures TableOk(t', exchange)
    {
      assert TableOk(t, exchange);
      var bs := BindingsOf(t, exchange);
      if t' != t && exchange == spec.exchange {
        forall b | b in bs
          ensures Key(b.spec) != Key(spec)
        {}
        DistinctKeysPush(BindingKey(), bs, Binding(spec, now));
      }
      forall x | x in BindingsOf(t', exchange)
        ensures BindingOk(t', exchange, x)
      {
        assert x in bs ==> BindingOk(t, exchange, x);
      }
    }
  }

  lemma CutKeepsKeys(bs: seq<Binding>, i: nat)
    requires i < |bs| && DistinctKeys(BindingKey(), bs)
    ensures DistinctKeys(BindingKey(), bs[..i] + bs[i + 1..])
    ensures forall b :: b in bs[..i] + bs[i + 1..] <==> b in bs && b != bs[i]
  {
    var cut := bs[..i] + bs[i + 1..];
    forall b
      ensures b in cut <==> b in bs && b != bs[i]
    {
      if b in bs && b != bs[i] {
        var j :| 0 <= j < |bs| && bs[j] == b;
        assert if j < i then cut[j] == b else cut[j - 1] == b;
      }
      if b in cut {
        var j :| 0 <= j < |cut| && cut[j] == b;
        assert b == if j < i then bs[j] else bs[j + 1];
      }
    }
  }

  lemma UnbindKeeps(t: Topology, spec: BindingSpec)
    requires TopologyOk(t)
    ensures TopologyOk(Unbind(t, spec).0)
  {
    var t' := Unbind(t, spec).0;
    forall exchange
      ensures TableOk(t', exchange)
    {
      assert TableOk(t, exchange);
      var bs := BindingsOf(t, exchange);
      if t' != t && exchange == spec.exchange {
        CutKeepsKeys(bs, Find(bs, Key(spec)));
      }
      forall x | x in BindingsOf(t', exchange)
        ensures BindingOk(t', exchange, x)
      {
        assert BindingOk(t, exchange, x);
      }
    }
  }

  lemma DeleteQueueKeeps(t: Topology, name: string)
    requires TopologyOk(t)
    ensures TopologyOk(DeleteQueue(t, name).0)
  {
    var t' := DeleteQueue(t, name).0;
    forall exchange
      ensures TableOk(t', exchange)
    {
      assert TableOk(t, exchange);
      forall x | x in BindingsOf(t', exchange)
        ensures BindingOk(t', exchange, x)
      {
        assert BindingOk(t, exchange, x);
        assert t' != t ==> x in AllBound(t);
      }
    }
  }
}
