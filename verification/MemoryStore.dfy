/** The in-memory store: fields updated in place, every operation proved against its value-level
    counterpart in `StoreSpec` and `DeadLetterSpec`, and the invariant kept. */
module MemoryStore {
  import opened Sequences
  import opened Ordering
  import opened Messages
  import opened StoreSpec
  import opened StoreInvariant
  import opened DeadLetterSpec

  function MessageId(): Message -> string {
    (m: Message) => m.id
  }

  // ----- Facts about the loops -----

  /** Scanning one more identifier of the index extends the claim by at most that identifier. */
  lemma ClaimScanStep(ms: map<string, Record>, index: seq<string>, i: nat, req: ClaimRequest)
    requires i < |index| && 0 <= req.limit
    ensures var p := ClaimableIn(ms, req.now);
            var before, after := Take(req.limit, Filter(p, index[..i])), Take(req.limit, Filter(p, index[..i + 1]));
            && (|before| >= req.limit ==> before == Take(req.limit, Filter(p, index)))
            && (|before| < req.limit ==> after == before + (if p(index[i]) then [index[i]] else []))
  {
    var p := ClaimableIn(ms, req.now);
    assert index[..i + 1] == index[..i] + [index[i]];
    FilterPush(p, index[..i], index[i]);
    assert index == index[..i] + index[i..];
    FilterAppend(p, index[..i], index[i..]);
  }

  lemma ClaimOneMore(ms: map<string, Record>, ids: seq<string>, id: string, req: ClaimRequest)
    requires id in ms && id !in ids
    ensures ClaimAll(ms, ids + [id], req) == ClaimAll(ms, ids, req)[id := Claimed(ms[id], req)]
  {}

  lemma MessagesOfPush(ms: map<string, Record>, ids: seq<string>, id: string, r: Record)
    requires id !in ids && forall x :: x in ids ==> x in ms
    ensures MessagesOf(ms[id := r], ids + [id]) == MessagesOf(ms, ids) + [r.msg]
  {
    forall i | 0 <= i < |ids|
      ensures ids[i] != id
    {
      assert ids[i] in ids;
    }
  }

  lemma AppendNone(s: StoreState, batch: seq<Message>)
    ensures AppendAll(s, batch[..0]) == s
  {}

  lemma AppendOneMore(s: StoreState, batch: seq<Message>, i: nat)
    requires i < |batch|
    ensures AppendAll(s, batch[..i + 1]) == AppendOne(AppendAll(s, batch[..i]), batch[i])
  {
    assert batch[..i + 1][..i] == batch[..i];
  }

  /** The expired messages found so far, `todo` still to be looked at. */
  ghost predicate Collected(ms: map<string, Record>, todo: set<string>, found: seq<Message>, now: int) {
    && (forall m :: m in found ==> m.id in ms && m.id !in todo && Expired(ms[m.id], now) && m == ms[m.id].msg)
    && (forall id :: id in ms && id !in todo && Expired(ms[id], now) ==> ms[id].msg in found)
    && DistinctKeys(MessageId(), found)
  }

  lemma CollectOne(ms: map<string, Record>, todo: set<string>, found: seq<Message>, now: int, id: string)
    requires RecordsOk(ms) && Collected(ms, todo, found, now) && id in todo && id in ms
    ensures Collected(ms, todo - {id}, if Expired(ms[id], now) then found + [ms[id].msg] else found, now)
  {
    hide Expired;
    assert RecordOk(id, ms[id]);
    if Expired(ms[id], now) { DistinctKeysPush(MessageId(), found, ms[id].msg); }
  }

  lemma CollectedAll(ms: map<string, Record>, found: seq<Message>, now: int, ids: set<string>)
    requires RecordsOk(ms) && Collected(ms, {}, found, now) && ids == set id | id in ms && Expired(ms[id], now)
    ensures SortBy(MessageId(), found) == MessagesOf(ms, Listing(ids))
  {
    hide Expired, Listing, SortBy;
    forall id | id in ids
      ensures ms[id].msg.id == id
    {
      assert RecordOk(id, ms[id]);
    }
    SortedMessages(ms, ids, found);
  }

  /** The selected records among those already looked at. */
  ghost function Counted(book: map<string, DeadLetter>, todo: set<string>, queue: string): set<string> {
    set id | id in book && id !in todo && OfQueue(book, queue)(id)
  }

  lemma CountOne(book: map<string, DeadLetter>, todo: set<string>, queue: string, id: string)
    requires id in book && id in todo
    ensures |Counted(book, todo - {id}, queue)| == |Counted(book, todo, queue)|
            + (if OfQueue(book, queue)(id) then 1 else 0)
  {
    assert Counted(book, todo - {id}, queue) == Counted(book, todo, queue)
           + (if OfQueue(book, queue)(id) then {id} else {});
  }

  lemma CountNone(book: map<string, DeadLetter>, queue: string)
    ensures |Counted(book, book.Keys, queue)| == 0 && Counted(book, {}, queue) == Selected(book, queue)
  {
    assert Counted(book, book.Keys, queue) == {};
  }

  lemma RecordsPush(book: map<string, DeadLetter>, ids: seq<string>, skipped: nat, id: string)
    requires skipped <= |ids| && id in book && forall x :: x in ids ==> x in book
    ensures RecordsOf(book, (ids + [id])[skipped..]) == RecordsOf(book, ids[skipped..]) + [book[id]]
  {
    assert (ids + [id])[skipped..] == ids[skipped..] + [id];
  }

  lemma PurgeScanStep(ms: map<string, Record>, index: seq<string>, i: nat)
    requires i < |index| && Distinct(index)
    ensures Live(ms, index[..i + 1]) == Live(ms, index[..i]) + (if LiveIn(ms)(index[i]) then [index[i]] else [])
    ensures Filter(SettledIn(ms), index[..i + 1]) == Filter(SettledIn(ms), index[..i])
            + (if SettledIn(ms)(index[i]) then [index[i]] else [])
    ensures index[i] !in Live(ms, index[..i])
  {
    assert index[..i + 1] == index[..i] + [index[i]];
    FilterPush(LiveIn(ms), index[..i], index[i]);
    FilterPush(SettledIn(ms), index[..i], index[i]);
  }

  /** Sorting the collected messages lists them by increasing identifier. */
  lemma SortedMessages(ms: map<string, Record>, ids: set<string>, found: seq<Message>)
    requires forall id :: id in ids ==> id in ms && ms[id].msg.id == id
    requires forall m :: m in found ==> m.id in ids && m == ms[m.id].msg
    requires forall id :: id in ids ==> ms[id].msg in found
    requires DistinctKeys(MessageId(), found)
    ensures SortBy(MessageId(), found) == MessagesOf(ms, Listing(ids))
  {
    var listing := Listing(ids);
    var listed := MessagesOf(ms, listing);
    ListingSorted(ids);
    SortBySorted(MessageId(), found);
    forall i | 0 <= i < |listing|
      ensures listed[i].id == listing[i] && listed[i] in found
    {
      assert listing[i] in ids;
    }
    forall m | m in found
      ensures m in listed
    {
      assert m.id in listing;
      var i :| 0 <= i < |listing| && listing[i] == m.id;
      assert listed[i] == m;
    }
    SortedUnique(MessageId(), SortBy(MessageId(), found), listed);
  }

  class Store {
    var closed: bool
    var queues: set<string>
    var messages: map<string, Record>
    var order: map<string, seq<string>>
    var settled: map<string, int>
    var deadLetters: map<string, DeadLetter>
    var deadOrder: seq<string>

    ghost function State(): StoreState
      reads this
    {
      StoreState(closed, queues, messages, order, settled)
    }

    ghost predicate Valid()
      reads this
    {
      Inv(State()) && BookOk(deadLetters, deadOrder)
    }

    constructor ()
      ensures Valid() && State() == EmptyStore() && deadLetters == map[] && deadOrder == []
    {
      closed, queues, messages, order, settled := false, {}, map[], map[], map[];
      deadLetters, deadOrder := map[], [];
    }

    method Close()
      requires Valid()
      modifies `closed
      ensures Valid() && State() == old(State()).(closed := true)
    {
      closed := true;
      TopologyKept(old(State()), State());
    }

    method SaveQueue(name: string) returns (r: Outcome<()>)
      requires Valid()
      modifies `queues
      ensures Valid() && (State(), r) == StoreSpec.SaveQueue(old(State()), name)
    {
      if closed {
        return Err(StoreClosed);
      }
      queues := queues + {name};
      TopologyKept(old(State()), State());
      r := Ok(());
    }

    method DeleteQueue(name: string) returns (r: Outcome<()>)
      requires Valid()
      modifies `queues, `messages, `order, `settled
      ensures Valid() && (State(), r) == StoreSpec.DeleteQueue(old(State()), name)
    {
      if name !in queues {
        return Err(NotFound);
      }
      DeleteQueueKeeps(State(), name);
      queues := queues - {name};
      var index := if name in order then order[name] else [];
      for i := 0 to |index|
        modifies `messages
        invariant messages == old(messages) - (set id | id in index[..i])
      {
        messages := messages - {index[i]};
        assert index[..i + 1] == index[..i] + [index[i]];
      }
      assert index[..|index|] == index;
      order, settled := order - {name}, settled - {name};
      r := Ok(());
    }

    method Append(batch: seq<Message>) returns (r: Outcome<()>)
      requires Valid()
      modifies `messages, `order
      ensures (State(), r) == StoreSpec.Append(old(State()), batch)
      ensures Valid() <==> r.Err? || Storable(batch)
    {
      hide Inv, BookOk, AppendAll;
      if closed {
        return Err(StoreClosed);
      }
      for i := 0 to |batch|
        modifies {}
        invariant forall j :: 0 <= j < i ==> batch[j].id !in messages
      {
        if batch[i].id in messages {
          return Err(Conflict);
        }
      }
      AppendKeepsIff(State(), batch);
      AppendNone(State(), batch);
      for i := 0 to |batch|
        invariant State() == AppendAll(old(State()), batch[..i])
      {
        AppendOneMore(old(State()), batch, i);
        var m := batch[i];
        messages := messages[m.id := Record(m, ZERO_TIME, "")];
        order := order[m.queue := (if m.queue in order then order[m.queue] else []) + [m.id]];
      }
      assert batch[..|batch|] == batch;
      r := Ok(());
    }

    method Message(id: string) returns (r: Outcome<Message>)
      ensures r == if id in messages then Ok(messages[id].msg) else Err(NotFound)
    {
      if id !in messages {
        return Err(NotFound);
      }
      r := Ok(messages[id].msg);
    }

    method Claim(req: ClaimRequest) returns (r: Outcome<seq<Message>>)
      requires Valid() && 0 <= req.limit
      modifies `messages, `order, `settled
      ensures (State(), r) == StoreSpec.Claim(old(State()), req)
      ensures !old(closed) ==> r.Ok?
      ensures Valid() <==> req.now + req.lease != ZERO_TIME || r.Err? || r.value == []
    {
      hide Filter, Inv, IndexOk, Compact, BookOk;
      if closed {
        return Err(StoreClosed);
      }
      ClaimKeepsIff(State(), req);
      CompactKeeps(State(), req.queue);
      QueueAt(State(), req.queue);
      CompactLocked(req.queue);
      QueueAt(State(), req.queue);
      var claimed := ClaimScan(if req.queue in order then order[req.queue] else [], req);
      r := Ok(claimed);
    }

    /** Lease claimable messages in index order until the limit is reached. */
    method ClaimScan(index: seq<string>, req: ClaimRequest) returns (claimed: seq<Message>)
      requires Distinct(index) && 0 <= req.limit
      modifies `messages
      ensures var ids := Take(req.limit, Filter(ClaimableIn(old(messages), req.now), index));
              messages == ClaimAll(old(messages), ids, req) && claimed == MessagesOf(messages, ids)
    {
      hide Filter;
      ghost var ms := messages;
      ghost var p := ClaimableIn(ms, req.now);
      ghost var ids: seq<string> := [];
      claimed := [];
      var i := 0;
      while i < |index|
        modifies `messages
        invariant 0 <= i <= |index|
        invariant ids == Take(req.limit, Filter(p, index[..i]))
        invariant messages == ClaimAll(ms, ids, req)
        invariant claimed == MessagesOf(messages, ids)
        decreases |index| - i
      {
        ClaimScanStep(ms, index, i, req);
        if |claimed| >= req.limit {
          break;
        }
        var id := index[i];
        NotYetClaimed(index, i, p, req.limit);
        if id in messages && Claimable(messages[id].msg, req.now) {
          ClaimOneMore(ms, ids, id, req);
          MessagesOfPush(messages, ids, id, Claimed(messages[id], req));
          var m := Lease(id, req);
          claimed := claimed + [m];
          ids := ids + [id];
        }
        i := i + 1;
      }
      assert index[..|index|] == index;
    }

    static lemma NotYetClaimed(index: seq<string>, i: nat, p: string -> bool, limit: int)
      requires i < |index| && Distinct(index)
      ensures index[i] !in Take(limit, Filter(p, index[..i]))
    {}

    /** The moves RETRYING to QUEUED to PROCESSING are always in the lifecycle table. */
    method Lease(id: string, req: ClaimRequest) returns (m: Message)
      requires id in messages && Claimable(messages[id].msg, req.now)
      modifies `messages
      ensures messages == old(messages)[id := Claimed(old(messages[id]), req)] && m == messages[id].msg
    {
      m := messages[id].msg;
      if m.state == Retrying {
        var queued := Transition(m, Queued, req.now);
        assert queued.Ok?;
        m := queued.value;
      }
      var leased := Transition(m, Processing, req.now);
      assert leased.Ok?;
      m := leased.value.(attempts := leased.value.attempts + 1);
      messages := messages[id := Record(m, req.now + req.lease, req.consumer)];
    }

    method CompactLocked(queue: string)
      requires QueueOk(State(), queue)
      modifies `order, `settled
      ensures State() == Compact(old(State()), queue)
    {
      IndexAfterTrim(State(), queue);
      TrimHead(queue);
      SweepSettled(queue);
    }

    method TrimHead(queue: string)
      requires QueueOk(State(), queue)
      modifies `order, `settled
      ensures State() == Trim(old(State()), queue)
    {
      hide Filter, IndexOk;
      var index := if queue in order then order[queue] else [];
      IndexAfterTrim(State(), queue);
      var head := 0;
      while head < |index| && IsSettled(index[head])
        modifies {}
        invariant 0 <= head <= |index|
        invariant forall i :: 0 <= i < head ==> !LiveIn(messages)(index[i])
      {
        head := head + 1;
      }
      HeadFound(messages, index, head);
      if head > 0 {
        var before := if queue in settled then settled[queue] else 0;
        assert before - head >= 0;
        order := order[queue := index[head..]];
        settled := settled[queue := if before - head < 0 then 0 else before - head];
      }
    }

    static lemma HeadFound(ms: map<string, Record>, index: seq<string>, head: nat)
      requires head <= |index| && forall i :: 0 <= i < head ==> !LiveIn(ms)(index[i])
      requires head < |index| ==> LiveIn(ms)(index[head])
      ensures head == SettledHead(ms, index)
    {
      SettledHeadIsMaximal(ms, index);
    }

    method SweepSettled(queue: string)
      requires QueueOk(State(), queue)
      modifies `order, `settled
      ensures State() == Sweep(old(State()), queue)
    {
      hide Filter;
      var index := if queue in order then order[queue] else [];
      var count := if queue in settled then settled[queue] else 0;
      if count < COMPACTION_THRESHOLD || count * 2 < |index| {
        return;
      }
      var capacity: nat := |index| - count;
      var retained: seq<string> := [];
      for i := 0 to |index|
        modifies {}
        invariant retained == Live(messages, index[..i])
      {
        assert index[..i + 1] == index[..i] + [index[i]];
        FilterPush(LiveIn(messages), index[..i], index[i]);
        if !IsSettled(index[i]) {
          retained := retained + [index[i]];
        }
      }
      assert index[..|index|] == index;
      assert |retained| == capacity;
      order := order[queue := retained];
      settled := settled[queue := 0];
    }

    predicate IsSettled(id: string)
      reads this
      ensures IsSettled(id) == !LiveIn(messages)(id)
    {
      id !in messages || Terminal(messages[id].msg.state)
    }

    method LeasedRecord(id: string) returns (r: Outcome<Record>)
      ensures r == Leased(State(), id)
    {
      if id !in messages {
        return Err(NotFound);
      }
      if messages[id].msg.state != Processing {
        return Err(StateMismatch(id, messages[id].msg.state));
      }
      r := Ok(messages[id]);
    }

    method Acknowledge(id: string, at: int) returns (r: Outcome<()>)
      requires Valid()
      modifies `messages, `settled
      ensures Valid() && (State(), r) == StoreSpec.Acknowledge(old(State()), id, at)
    {
      hide Inv, BookOk;
      AcknowledgeKeeps(State(), id, at);
      if id in messages { RecordAt(State(), id); }
      var leased := LeasedRecord(id);
      if leased.Err? {
        return Err(leased.error);
      }
      var moved := Transition(leased.value.msg, Acknowledged, at);
      assert moved.Ok?;
      var m := moved.value;
      settled := settled[m.queue := (if m.queue in settled then settled[m.queue] else 0) + 1];
      messages := messages[id := Record(m, ZERO_TIME, "")];
      r := Ok(());
    }

    method ScheduleRetry(req: RetryRequest) returns (r: Outcome<()>)
      requires Valid()
      modifies `messages
      ensures Valid() && (State(), r) == StoreSpec.ScheduleRetry(old(State()), req)
    {
      hide Inv, BookOk;
      RetryKeeps(State(), req);
      if req.id in messages { RecordAt(State(), req.id); }
      var leased := LeasedRecord(req.id);
      if leased.Err? {
        return Err(leased.error);
      }
      var failed := Transition(leased.value.msg, Failed, req.now);
      assert failed.Ok?;
      var moved := Transition(failed.value, Retrying, req.now);
      assert moved.Ok?;
      var m := moved.value.(availableAt := req.availableAt, lastError := req.reason);
      messages := messages[req.id := Record(m, ZERO_TIME, "")];
      r := Ok(());
    }

    method Release(id: string, at: int) returns (r: Outcome<()>)
      requires Valid()
      modifies `messages
      ensures Valid() && (State(), r) == StoreSpec.Release(old(State()), id, at)
    {
      hide Inv, BookOk;
      ReleaseKeeps(State(), id, at);
      if id in messages { RecordAt(State(), id); }
      var leased := LeasedRecord(id);
      if leased.Err? {
        return Err(leased.error);
      }
      var moved := Transition(leased.value.msg, Queued, at);
      assert moved.Ok?;
      var m := moved.value.(availableAt := at);
      messages := messages[id := Record(m, ZERO_TIME, "")];
      r := Ok(());
    }

    method MarkDeadLettered(id: string, reason: string, at: int) returns (r: Outcome<()>)
      requires Valid()
      modifies `messages, `settled
      ensures Valid() && (State(), r) == StoreSpec.MarkDeadLettered(old(State()), id, reason, at)
    {
      hide Inv, BookOk;
      MarkKeeps(State(), id, reason, at);
      if id in messages { RecordAt(State(), id); }
      if id !in messages {
        return Err(NotFound);
      }
      var m := messages[id].msg;
      if m.state == Processing {
        var failed := Transition(m, Failed, at);
        assert failed.Ok?;
        m := failed.value;
      }
      var buried := Transition(m, DeadLettered, at);
      if buried.Err? {
        return Err(buried.error);
      }
      m := buried.value;
      settled := settled[m.queue := (if m.queue in settled then settled[m.queue] else 0) + 1];
      messages := messages[id := Record(m.(lastError := reason), ZERO_TIME, "")];
      r := Ok(());
    }

    /** The map is walked in no particular order, then sorted. */
    method ExpiredLeases(now: int, limit: int) returns (r: seq<Message>)
      requires Valid()
      ensures r == StoreSpec.ExpiredLeases(State(), now, limit)
    {
      hide Inv, BookOk, Collected, RecordsOk, SortBy, Listing;
      QueueAt(State(), "");
      var todo := messages.Keys;
      var expired: seq<Message> := [];
      NoneCollected(messages, now);
      while todo != {}
        invariant todo <= messages.Keys && Collected(messages, todo, expired, now)
        decreases |todo|
      {
        var id :| id in todo;
        CollectOne(messages, todo, expired, now, id);
        todo := todo - {id};
        if Expired(messages[id], now) {
          expired := expired + [messages[id].msg];
        }
      }
      CollectedAll(messages, expired, now, ExpiredSet(State(), now));
      r := TakePositive(limit, SortBy(MessageId(), expired));
      TakenMessages(messages, Listing(ExpiredSet(State(), now)), limit);
    }

    static lemma NoneCollected(ms: map<string, Record>, now: int)
      ensures Collected(ms, ms.Keys, [], now)
    {}

    static lemma TakenMessages(ms: map<string, Record>, ids: seq<string>, limit: int)
      requires forall id :: id in ids ==> id in ms
      ensures TakePositive(limit, MessagesOf(ms, ids)) == MessagesOf(ms, TakePositive(limit, ids))
    {}

    method Depth(queue: string) returns (r: Outcome<StoreSpec.Depth>)
      requires Valid()
      ensures r == DepthOf(State(), queue)
    {
      hide Inv, BookOk, Filter;
      if queue !in queues {
        return Err(NotFound);
      }
      var index := if queue in order then order[queue] else [];
      var ready, inFlight, scheduled := 0, 0, 0;
      for i := 0 to |index|
        invariant ready == |Filter(StateIn(messages, {Queued}), index[..i])|
        invariant inFlight == |Filter(StateIn(messages, {Processing}), index[..i])|
        invariant scheduled == |Filter(StateIn(messages, {Retrying, Failed}), index[..i])|
      {
        assert index[..i + 1] == index[..i] + [index[i]];
        FilterPush(StateIn(messages, {Queued}), index[..i], index[i]);
        FilterPush(StateIn(messages, {Processing}), index[..i], index[i]);
        FilterPush(StateIn(messages, {Retrying, Failed}), index[..i], index[i]);
        if index[i] in messages {
          match messages[index[i]].msg.state
          case Queued => ready := ready + 1;
          case Processing => inFlight := inFlight + 1;
          case Retrying | Failed => scheduled := scheduled + 1;
          case _ =>
        }
      }
      assert index[..|index|] == index;
      r := Ok(StoreSpec.Depth(ready, inFlight, scheduled, ready + inFlight + scheduled));
    }

    method Purge(queue: string) returns (r: Outcome<int>)
      requires Valid()
      modifies `messages, `order, `settled
      ensures Valid() && (State(), r) == StoreSpec.Purge(old(State()), queue)
    {
      hide Filter, Inv, IndexOk, BookOk;
      if queue !in queues {
        return Err(NotFound);
      }
      PurgeKeeps(State(), queue);
      QueueAt(State(), queue);
      var remaining, purged := PurgeScan(if queue in order then order[queue] else []);
      order := order[queue := remaining];
      settled := settled[queue := |remaining|];
      r := Ok(purged);
    }

    /** Delete the live messages of an index; return the settled identifiers and how many went. */
    method PurgeScan(index: seq<string>) returns (remaining: seq<string>, purged: int)
      requires Distinct(index)
      modifies `messages
      ensures messages == old(messages) - (set id | id in Live(old(messages), index))
      ensures remaining == Filter(SettledIn(old(messages)), index) && purged == |Live(old(messages), index)|
    {
      hide Filter;
      ghost var ms := messages;
      remaining, purged := [], 0;
      for i := 0 to |index|
        modifies `messages
        invariant messages == ms - (set id | id in Live(ms, index[..i]))
        invariant remaining == Filter(SettledIn(ms), index[..i])
        invariant purged == |Live(ms, index[..i])|
      {
        var id := index[i];
        PurgeScanStep(ms, index, i);
        if id in messages {
          if Terminal(messages[id].msg.state) {
            remaining := remaining + [id];
          } else {
            messages := messages - {id};
            purged := purged + 1;
          }
        }
      }
      assert index[..|index|] == index;
    }

    // ----- Dead letters -----

    /** `freshId` is the identifier generated when the record comes without one. */
    method SaveDeadLetter(entry: DeadLetter, freshId: string) returns (r: Outcome<string>)
      requires Valid()
      modifies `deadLetters, `deadOrder
      ensures Valid()
      ensures var id := if entry.id == "" then freshId else entry.id;
              if closed then r == Err(StoreClosed) && unchanged(`deadLetters, `deadOrder)
              else if id in old(deadLetters) then r == Err(Conflict) && unchanged(`deadLetters, `deadOrder)
              else
                && r == Ok(id)
                && deadLetters == old(deadLetters)[id := entry.(id := id)] && deadOrder == old(deadOrder) + [id]
    {
      if closed {
        return Err(StoreClosed);
      }
      var id := if entry.id == "" then freshId else entry.id;
      if id in deadLetters {
        return Err(Conflict);
      }
      SaveKeeps(deadLetters, deadOrder, entry.(id := id));
      deadLetters := deadLetters[id := entry.(id := id)];
      deadOrder := deadOrder + [id];
      r := Ok(id);
    }

    method DeadLetters(filter: PageRequest) returns (r: seq<DeadLetter>)
      requires Valid()
      ensures r == Page(deadLetters, deadOrder, filter)
    {
      hide Filter, Inv, Reversed, BookOk;
      var f := Normalise(filter);
      ghost var p := OfQueue(deadLetters, f.queue);
      r := [];
      var skipped := 0;
      var i := |deadOrder|;
      ghost var ids: seq<string> := [];
      while i > 0
        invariant 0 <= i <= |deadOrder|
        invariant ids == Filter(p, Reversed(deadOrder[i..]))
        invariant skipped == Least(f.offset, |ids|)
        invariant |ids| - skipped <= f.limit
        invariant forall id :: id in ids ==> id in deadLetters
        invariant r == RecordsOf(deadLetters, ids[skipped..])
        decreases i
      {
        i := i - 1;
        var id := deadOrder[i];
        assert Reversed(deadOrder[i..]) == Reversed(deadOrder[i + 1..]) + [id] by {
          assert deadOrder[i..][1..] == deadOrder[i + 1..];
        }
        FilterPush(p, Reversed(deadOrder[i + 1..]), id);
        if id in deadLetters && (f.queue == "" || deadLetters[id].content.queue == f.queue) {
          if skipped < f.offset {
            skipped := skipped + 1;
          } else if |r| >= f.limit {
            PageComplete(ids, deadOrder, i + 1, p, f.offset, f.limit);
            return;
          } else {
            RecordsPush(deadLetters, ids, skipped, id);
            r := r + [deadLetters[id]];
          }
          ids := ids + [id];
        }
      }
      assert deadOrder[0..] == deadOrder;
      assert Slice(ids, f.offset, f.limit) == ids[skipped..];
    }

    method DeadLetter(id: string) returns (r: Outcome<DeadLetter>)
      ensures r == if id in deadLetters then Ok(deadLetters[id]) else Err(NotFound)
    {
      if id !in deadLetters {
        return Err(NotFound);
      }
      r := Ok(deadLetters[id]);
    }

    method MarkDeadLetterReplayed(id: string, replayedAs: string, at: int) returns (r: Outcome<()>)
      requires Valid()
      modifies `deadLetters
      ensures Valid()
      ensures id !in old(deadLetters) ==> r == Err(NotFound) && deadLetters == old(deadLetters)
      ensures id in old(deadLetters) ==>
                && r == Ok(())
                && deadLetters == old(deadLetters)[id := MarkedReplayed(old(deadLetters)[id], replayedAs, at)]
    {
      if id !in deadLetters {
        return Err(NotFound);
      }
      var was := deadLetters[id];
      deadLetters := deadLetters[id := was.(replayedAs := replayedAs, replayedAt := at,
                                            replayCount := was.replayCount + 1)];
      r := Ok(());
    }

    method DeleteDeadLetter(id: string) returns (r: Outcome<()>)
      requires Valid()
      modifies `deadLetters, `deadOrder
      ensures Valid()
      ensures r == if id in old(deadLetters) then Ok(()) else Err(NotFound)
      ensures deadLetters == old(deadLetters) - {id} && deadOrder == Filter(Except(id), old(deadOrder))
    {
      hide Inv, BookOk, Filter;
      DeleteKeeps(deadLetters, deadOrder, id);
      BookLists(deadLetters, deadOrder, id);
      if id !in deadLetters {
        FilterAll(Except(id), deadOrder);
        assert deadLetters - {id} == deadLetters;
        return Err(NotFound);
      }
      var i := PlaceOf(deadOrder, id);
      ExceptAt(deadOrder, i);
      deadLetters := deadLetters - {id};
      deadOrder := deadOrder[..i] + deadOrder[i + 1..];
      r := Ok(());
    }

    static lemma BookLists(book: map<string, DeadLetter>, saved: seq<string>, id: string)
      requires BookOk(book, saved)
      ensures Distinct(saved) && (id in saved <==> id in book)
    {}

    /** The search for a listed identifier. */
    static method PlaceOf(ids: seq<string>, id: string) returns (i: nat)
      requires id in ids
      ensures i < |ids| && ids[i] == id && id !in ids[..i]
    {
      i := 0;
      while ids[i] != id
        invariant 0 <= i < |ids| && id !in ids[..i] && id in ids[i..]
        decreases |ids| - i
      {
        assert ids[..i + 1] == ids[..i] + [ids[i]];
        assert ids[i..] == [ids[i]] + ids[i + 1..];
        i := i + 1;
      }
    }

    method CountDeadLetters(queue: string) returns (count: int)
      requires Valid()
      ensures count == |Selected(deadLetters, queue)|
      ensures count == |NewestFirst(deadLetters, deadOrder, queue)|
    {
      hide Inv, BookOk, Counted, Selected, NewestFirst;
      ListingIsSelected(deadLetters, deadOrder, queue);
      CountNone(deadLetters, queue);
      var todo := deadLetters.Keys;
      count := 0;
      while todo != {}
        invariant todo <= deadLetters.Keys && count == |Counted(deadLetters, todo, queue)|
        decreases |todo|
      {
        var id :| id in todo;
        CountOne(deadLetters, todo, queue, id);
        todo := todo - {id};
        if queue == "" || deadLetters[id].content.queue == queue {
          count := count + 1;
        }
      }
    }
  }
}
