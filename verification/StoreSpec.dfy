/** The in-memory message store as a value: its operations and the invariant of its index.

    `messages` is the truth. `order` lists, per queue, the identifiers in append order; settled
    ones are trimmed lazily. `settled` counts the settled identifiers still listed. */
module StoreSpec {
  import opened Sequences
  import opened Ordering
  import opened Messages

  const COMPACTION_THRESHOLD := 64
  const ZERO_TIME := 0

  datatype Record = Record(msg: Message, lease: int, consumer: string)

  datatype StoreState = StoreState(
    closed: bool,
    queues: set<string>,
    messages: map<string, Record>,
    order: map<string, seq<string>>,
    settled: map<string, int>)

  datatype ClaimRequest = ClaimRequest(queue: string, consumer: string, limit: int, lease: int, now: int)

  datatype RetryRequest = RetryRequest(id: string, attempt: int, reason: string, availableAt: int, now: int)

  datatype Depth = Depth(ready: int, inFlight: int, scheduled: int, total: int)

  function EmptyStore(): StoreState {
    StoreState(false, {}, map[], map[], map[])
  }

  function Index(s: StoreState, queue: string): seq<string> {
    if queue in s.order then s.order[queue] else []
  }

  function SettledCount(s: StoreState, queue: string): int {
    if queue in s.settled then s.settled[queue] else 0
  }

  function LiveIn(ms: map<string, Record>): string -> bool {
    id => id in ms && !Terminal(ms[id].msg.state)
  }

  /** The listed identifiers that are not settled, in append order. */
  function Live(ms: map<string, Record>, ids: seq<string>): seq<string> {
    Filter(LiveIn(ms), ids)
  }

  // ----- The invariant -----

  ghost predicate RecordOk(id: string, r: Record) {
    && r.msg.id == id
    && r.msg.state != Created && r.msg.state != Failed
    && (r.lease != ZERO_TIME <==> r.msg.state == Processing)
    && (r.msg.state != Processing ==> r.consumer == "")
    && 0 <= r.msg.attempts
  }

  ghost predicate IndexOk(ms: map<string, Record>, queue: string, index: seq<string>, settled: int) {
    && Distinct(index)
    && (forall id :: id in index ==> id in ms && ms[id].msg.queue == queue)
    && settled == |index| - |Live(ms, index)|
  }

  ghost predicate RecordsOk(ms: map<string, Record>) {
    forall id :: id in ms ==> RecordOk(id, ms[id])
  }

  ghost predicate QueueOk(s: StoreState, queue: string) {
    IndexOk(s.messages, queue, Index(s, queue), SettledCount(s, queue))
  }

  /** A live message is listed by its own queue. */
  ghost predicate Listed(s: StoreState, id: string) {
    id in s.messages && !Terminal(s.messages[id].msg.state) ==> id in Index(s, s.messages[id].msg.queue)
  }

  ghost predicate Inv(s: StoreState) {
    && RecordsOk(s.messages)
    && (forall queue :: QueueOk(s, queue))
    && (forall id :: Listed(s, id))
  }

  // ----- Records -----

  predicate Claimable(m: Message, now: int) {
    (m.state == Queued || m.state == Retrying) && m.availableAt <= now
  }

  function ClaimableIn(ms: map<string, Record>, now: int): string -> bool {
    id => id in ms && Claimable(ms[id].msg, now)
  }

  function Claimed(r: Record, req: ClaimRequest): Record {
    Record(r.msg.(state := Processing, updatedAt := req.now, attempts := r.msg.attempts + 1),
           req.now + req.lease, req.consumer)
  }

  function Acked(r: Record, at: int): Record {
    Record(r.msg.(state := Acknowledged, updatedAt := at), ZERO_TIME, "")
  }

  function Retried(r: Record, req: RetryRequest): Record {
    Record(r.msg.(state := Retrying, updatedAt := req.now, availableAt := req.availableAt, lastError := req.reason),
           ZERO_TIME, "")
  }

  function Released(r: Record, at: int): Record {
    Record(r.msg.(state := Queued, updatedAt := at, availableAt := at), ZERO_TIME, "")
  }

  function Buried(r: Record, reason: string, at: int): Record {
    Record(r.msg.(state := DeadLettered, updatedAt := at, lastError := reason), ZERO_TIME, "")
  }

  // ----- Operations -----

  function Put(s: StoreState, r: Record): StoreState {
    s.(messages := s.messages[r.msg.id := r])
  }

  function Settle(s: StoreState, r: Record): StoreState {
    Put(s, r).(settled := s.settled[r.msg.queue := SettledCount(s, r.msg.queue) + 1])
  }

  /** The record of a message that is being processed. */
  function Leased(s: StoreState, id: string): Outcome<Record> {
    if id !in s.messages then Err(NotFound)
    else if s.messages[id].msg.state != Processing then Err(StateMismatch(id, s.messages[id].msg.state))
    else Ok(s.messages[id])
  }

  function Acknowledge(s: StoreState, id: string, at: int): (StoreState, Outcome<()>) {
    match Leased(s, id)
    case Err(e) => (s, Err(e))
    case Ok(r) => (Settle(s, Acked(r, at)), Ok(()))
  }

  function ScheduleRetry(s: StoreState, req: RetryRequest): (StoreState, Outcome<()>) {
    match Leased(s, req.id)
    case Err(e) => (s, Err(e))
    case Ok(r) => (Put(s, Retried(r, req)), Ok(()))
  }

  function Release(s: StoreState, id: string, at: int): (StoreState, Outcome<()>) {
    match Leased(s, id)
    case Err(e) => (s, Err(e))
    case Ok(r) => (Put(s, Released(r, at)), Ok(()))
  }

  /** Unlike the leased operations, a message outside PROCESSING is refused by the lifecycle table. */
  function MarkDeadLettered(s: StoreState, id: string, reason: string, at: int): (StoreState, Outcome<()>) {
    if id !in s.messages then (s, Err(NotFound))
    else
      var r := s.messages[id];
      if r.msg.state != Processing && r.msg.state != Failed then (s, Err(InvalidTransition(r.msg.state, DeadLettered)))
      else (Settle(s, Buried(r, reason, at)), Ok(()))
  }

  function AppendOne(s: StoreState, m: Message): StoreState {
    s.(messages := s.messages[m.id := Record(m, ZERO_TIME, "")],
       order := s.order[m.queue := Index(s, m.queue) + [m.id]])
  }

  function AppendAll(s: StoreState, batch: seq<Message>): StoreState {
    if batch == [] then s
    else AppendOne(AppendAll(s, batch[..|batch| - 1]), batch[|batch| - 1])
  }

  function Append(s: StoreState, batch: seq<Message>): (StoreState, Outcome<()>) {
    if s.closed then (s, Err(StoreClosed))
    else if exists i :: 0 <= i < |batch| && batch[i].id in s.messages then (s, Err(Conflict))
    else (AppendAll(s, batch), Ok(()))
  }

  /** How many listed identifiers at the head are settled. */
  function SettledHead(ms: map<string, Record>, ids: seq<string>): (n: nat)
    ensures n <= |ids|
  {
    if ids == [] || LiveIn(ms)(ids[0]) then 0 else 1 + SettledHead(ms, ids[1..])
  }

  /** Drop the settled head of the index. */
  function Trim(s: StoreState, queue: string): StoreState {
    var head := SettledHead(s.messages, Index(s, queue));
    if head == 0 then s
    else s.(order := s.order[queue := Index(s, queue)[head..]],
            settled := s.settled[queue := if SettledCount(s, queue) < head then 0 else SettledCount(s, queue) - head])
  }

  /** Drop every settled identifier, once there are enough of them. */
  function Sweep(s: StoreState, queue: string): StoreState {
    var settled := SettledCount(s, queue);
    if settled < COMPACTION_THRESHOLD || settled * 2 < |Index(s, queue)| then s
    else s.(order := s.order[queue := Live(s.messages, Index(s, queue))], settled := s.settled[queue := 0])
  }

  function Compact(s: StoreState, queue: string): StoreState {
    Sweep(Trim(s, queue), queue)
  }

  function ClaimIds(s: StoreState, req: ClaimRequest): seq<string> {
    Take(req.limit, Filter(ClaimableIn(s.messages, req.now), Index(s, req.queue)))
  }

  function ClaimAll(ms: map<string, Record>, ids: seq<string>, req: ClaimRequest): map<string, Record> {
    map id | id in ms :: if id in ids then Claimed(ms[id], req) else ms[id]
  }

  function MessagesOf(ms: map<string, Record>, ids: seq<string>): (r: seq<Message>)
    requires forall id :: id in ids ==> id in ms
    ensures |r| == |ids|
    ensures forall i :: 0 <= i < |ids| ==> r[i] == ms[ids[i]].msg
  {
    seq(|ids|, i requires 0 <= i < |ids| => ms[ids[i]].msg)
  }

  /** Lease the first `limit` claimable messages of the queue, in index order. */
  function ClaimListed(s: StoreState, req: ClaimRequest): (StoreState, Outcome<seq<Message>>) {
    var ids := ClaimIds(s, req);
    var ms := ClaimAll(s.messages, ids, req);
    (s.(messages := ms), Ok(MessagesOf(ms, ids)))
  }

  function Claim(s: StoreState, req: ClaimRequest): (StoreState, Outcome<seq<Message>>) {
    if s.closed then (s, Err(StoreClosed)) else ClaimListed(Compact(s, req.queue), req)
  }

  predicate Expired(r: Record, now: int) {
    r.msg.state == Processing && r.lease != ZERO_TIME && r.lease <= now
  }

  function ExpiredSet(s: StoreState, now: int): set<string> {
    set id | id in s.messages && Expired(s.messages[id], now)
  }

  /** A limit of zero or less means no limit. */
  function TakePositive<T>(limit: int, xs: seq<T>): (r: seq<T>)
    ensures forall x :: x in r ==> x in xs
  {
    if limit > 0 then Take(limit, xs) else xs
  }

  /** The expired leases with the smallest identifiers. */
  ghost function ExpiredLeases(s: StoreState, now: int, limit: int): seq<Message> {
    MessagesOf(s.messages, TakePositive(limit, Listing(ExpiredSet(s, now))))
  }

  function StateIn(ms: map<string, Record>, states: set<State>): string -> bool {
    id => id in ms && ms[id].msg.state in states
  }

  function CountIn(s: StoreState, queue: string, states: set<State>): nat {
    |Filter(StateIn(s.messages, states), Index(s, queue))|
  }

  function DepthOf(s: StoreState, queue: string): Outcome<Depth> {
    if queue !in s.queues then Err(NotFound)
    else
      var ready := CountIn(s, queue, {Queued});
      var inFlight := CountIn(s, queue, {Processing});
      var scheduled := CountIn(s, queue, {Retrying, Failed});
      Ok(Depth(ready, inFlight, scheduled, ready + inFlight + scheduled))
  }

  function SettledIn(ms: map<string, Record>): string -> bool {
    id => id in ms && Terminal(ms[id].msg.state)
  }

  /** Remove the live messages of a queue; settled ones stay. */
  function Purge(s: StoreState, queue: string): (StoreState, Outcome<int>) {
    if queue !in s.queues then (s, Err(NotFound))
    else
      var live := Live(s.messages, Index(s, queue));
      var kept := Filter(SettledIn(s.messages), Index(s, queue));
      (s.(messages := s.messages - (set id | id in live), order := s.order[queue := kept],
          settled := s.settled[queue := |kept|]), Ok(|live|))
  }

  function SaveQueue(s: StoreState, queue: string): (StoreState, Outcome<()>) {
    if s.closed then (s, Err(StoreClosed)) else (s.(queues := s.queues + {queue}), Ok(()))
  }

  function DeleteQueue(s: StoreState, queue: string): (StoreState, Outcome<()>) {
    if queue !in s.queues then (s, Err(NotFound))
    else (s.(queues := s.queues - {queue}, messages := s.messages - (set id | id in Index(s, queue)),
             order := s.order - {queue}, settled := s.settled - {queue}), Ok(()))
  }
}
