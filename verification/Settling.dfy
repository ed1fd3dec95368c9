/** How one delivery ends: failures, negative acknowledgements, burials and replays, each as one
    uninterrupted call on the store and the dead-letter book. */
module Settling {
  import opened Sequences
  import opened Messages
  import opened StoreSpec
  import opened StoreInvariant
  import opened DeadLetterSpec
  import opened Retry
  import opened Publishing
  import T = TopologySpec

  const KIND_HANDLER := "handler"
  const KIND_PERMANENT := "permanent"
  const DEFAULT_REASON := "negatively acknowledged by consumer"

  /** Why a delivery failed; a permanent cause is never retried. */
  datatype Cause = Cause(reason: string, permanent: bool)

  datatype ReplayOutcome = Replayed(id: string, queue: string) | NoQueue(fault: T.Fault) | NotReplayed(error: Error)

  /** `failures` gives, from the history, when a message first failed. */
  function FirstFailure(failures: map<string, int>, id: string, now: int): int {
    if id in failures then failures[id] else now
  }

  /** A record is saved first; when that fails the message is left alone. */
  function Bury(h: Holdings, m: Message, deadId: string, reason: string, kind: string, failures: map<string, int>,
                now: int): Holdings {
    if h.store.closed || deadId in h.book then h
    else SaveRecord(h, NewRecord(deadId, m, reason, kind, FirstFailure(failures, m.id, now), now))
         .(store := MarkDeadLettered(h.store, m.id, reason, now).0)
  }

  function Fail(h: Holdings, m: Message, cause: Cause, p: Policy, deadId: string, failures: map<string, int>,
                roll: real, now: int): Holdings {
    if !cause.permanent && p.ShouldRetry(m.attempts) then
      h.(store := ScheduleRetry(h.store, RetryRequest(m.id, m.attempts, cause.reason,
                                                      p.NextAttemptAt(now, m.attempts, roll), now)).0)
    else
      Bury(h, m, deadId, cause.reason, if cause.permanent then KIND_PERMANENT else KIND_HANDLER, failures, now)
  }

  function Nack(h: Holdings, id: string, reason: string, requeue: bool, p: Policy, deadId: string,
                failures: map<string, int>, roll: real, now: int)
    : (Holdings, Outcome<()>)
  {
    if id !in h.store.messages then (h, Err(NotFound))
    else if requeue then
      var (s, r) := Release(h.store, id, now);
      (h.(store := s), r)
    else
      var cause := Cause(if reason == "" then DEFAULT_REASON else reason, false);
      (Fail(h, h.store.messages[id].msg, cause, p, deadId, failures, roll, now), Ok(()))
  }

  function Replay(t: T.Topology, h: Holdings, deadId: string, id: string, now: int): (Holdings, ReplayOutcome) {
    if deadId !in h.book then (h, NotReplayed(NotFound))
    else
      var record := h.book[deadId];
      if record.content.queue !in t.queues then (h, NoQueue(T.QueueNotFound))
      else
        var queue := t.queues[record.content.queue].spec;
        match Append(h.store, [ReplayOf(record, id, queue.maxAttempts, now)])
        case (_, Err(e)) => (h, NotReplayed(e))
        case (s, Ok(_)) =>
          (h.(store := s, book := h.book[deadId := MarkedReplayed(record, id, now)]),
           Replayed(id, queue.name))
  }

  // ----- What they keep and promise -----

  lemma BuryKeeps(h: Holdings, m: Message, deadId: string, reason: string, kind: string, failures: map<string, int>,
                  now: int)
    requires Inv(h.store) && BookOk(h.book, h.saved)
    ensures var h' := Bury(h, m, deadId, reason, kind, failures, now);
            Inv(h'.store) && BookOk(h'.book, h'.saved)
  {
    hide Inv, BookOk, NewestFirst;
    if !h.store.closed && deadId !in h.book {
      MarkKeeps(h.store, m.id, reason, now);
      SaveKeeps(h.book, h.saved, NewRecord(deadId, m, reason, kind, FirstFailure(failures, m.id, now), now));
    }
  }

  lemma GrantedRetry(s: StoreState, id: string, reason: string, availableAt: int, now: int)
    requires Inv(s) && id in s.messages && s.messages[id].msg.state == Processing
    ensures var m := s.messages[id].msg;
            var s' := ScheduleRetry(s, RetryRequest(m.id, m.attempts, reason, availableAt, now)).0;
            && MovesOne(s, s', id)
            && s'.messages[id] == Record(m.(state := Retrying, updatedAt := now, availableAt := availableAt,
                                            lastError := reason), ZERO_TIME, "")
  {
    hide Inv;
    RecordAt(s, id);
  }

  lemma Burial(s: StoreState, id: string, reason: string, now: int)
    requires Inv(s) && id in s.messages && s.messages[id].msg.state == Processing
    ensures var m := s.messages[id].msg;
            var s' := MarkDeadLettered(s, m.id, reason, now).0;
            && MovesOne(s, s', id)
            && s'.messages[id] == Record(m.(state := DeadLettered, updatedAt := now, lastError := reason),
                                         ZERO_TIME, "")
  {
    hide Inv;
    RecordAt(s, id);
  }

  /** A failed delivery of a leased message leaves it waiting for its next attempt exactly while it has attempts left
      and the cause is not permanent, and otherwise buried under a new record of what it was and why it failed. */
  lemma FailureIsSettled(h: Holdings, id: string, cause: Cause, p: Policy, deadId: string, failures: map<string, int>,
                         roll: real, now: int)
    requires Inv(h.store) && id in h.store.messages && h.store.messages[id].msg.state == Processing
    requires p.Valid() && 0.0 <= roll < 1.0 && !h.store.closed && deadId !in h.book
    ensures var was := h.store.messages[id].msg;
            var h' := Fail(h, was, cause, p, deadId, failures, roll, now);
            && MovesOne(h.store, h'.store, id)
            && var m := h'.store.messages[id].msg;
            && m.lastError == cause.reason && m.updatedAt == now && h'.store.messages[id] == Record(m, ZERO_TIME, "")
            && if !cause.permanent && was.attempts < p.maxAttempts then
                 && m.state == Retrying && h'.book == h.book && h'.saved == h.saved
                 && m.availableAt == p.NextAttemptAt(now, was.attempts, roll)
                 && now <= m.availableAt <= now + p.maxInterval
               else
                 && m.state == DeadLettered && m.availableAt == was.availableAt && h'.saved == h.saved + [deadId]
                 && h'.book == h.book[deadId := DeadLetter(
                      deadId, ContentOf(was), cause.reason, if cause.permanent then KIND_PERMANENT else KIND_HANDLER,
                      was.attempts, if id in failures then failures[id] else now, now, "", ZERO_TIME, 0)]
  {
    hide Inv, ScheduleRetry, MarkDeadLettered;
    var was := h.store.messages[id].msg;
    assert was.id == id by { RecordAt(h.store, id); }
    if !cause.permanent && was.attempts < p.maxAttempts {
      JitterStaysInBounds(p, was.attempts, roll);
      GrantedRetry(h.store, id, cause.reason, p.NextAttemptAt(now, was.attempts, roll), now);
    } else {
      Burial(h.store, id, cause.reason, now);
    }
  }

  /** A negative acknowledgement without requeueing always reports success. It moves the message exactly when
      it is being processed, and adds a record exactly when attempts are exhausted. So the record it adds stands
      for a burial if and only if the message was being processed or still has attempts left. */
  lemma NackRecordsABurialIff(h: Holdings, id: string, reason: string, p: Policy, deadId: string,
                              failures: map<string, int>, roll: real, now: int)
    requires Inv(h.store) && id in h.store.messages && !h.store.closed && deadId !in h.book
    ensures var was := h.store.messages[id].msg;
            var (h', r) := Nack(h, id, reason, false, p, deadId, failures, roll, now);
            var m := h'.store.messages[id].msg;
            && r == Ok(())
            && (h'.store != h.store <==> was.state == Processing)
            && (deadId in h'.book <==> p.maxAttempts <= was.attempts)
            && (deadId in h'.book ==>
                  && h'.book[deadId].content == ContentOf(was) && h'.book[deadId].errorKind == KIND_HANDLER
                  && h'.book[deadId].reason == (if reason == "" then DEFAULT_REASON else reason))
            && ((deadId in h'.book ==> was.state != DeadLettered && m.state == DeadLettered) <==>
                  was.state == Processing || was.attempts < p.maxAttempts)
  {
    assert RecordOk(id, h.store.messages[id]);
  }

  /** With requeueing it succeeds exactly for a message that is being processed, which then waits in its queue again,
      available at once; otherwise nothing changes and the error says why. */
  lemma NackRequeues(h: Holdings, id: string, reason: string, p: Policy, deadId: string, failures: map<string, int>,
                     roll: real, now: int)
    requires Inv(h.store)
    ensures var (h', r) := Nack(h, id, reason, true, p, deadId, failures, roll, now);
            if id !in h.store.messages then h' == h && r == Err(NotFound)
            else
              var was := h.store.messages[id].msg;
              if was.state != Processing then h' == h && r == Err(StateMismatch(id, was.state))
              else
                && r == Ok(()) && Inv(h'.store)
                && h' == h.(store := h.store.(messages := h.store.messages[
                     id := Record(was.(state := Queued, updatedAt := now, availableAt := now), ZERO_TIME, "")]))
  {
    hide Inv;
    ReleaseKeeps(h.store, id, now);
    if id in h.store.messages { RecordAt(h.store, id); }
  }

  /** One replay adds one waiting message with the recorded content and marks the record; nothing else changes. */
  lemma ReplayIsExact(t: T.Topology, h: Holdings, deadId: string, id: string, now: int)
    requires T.TopologyOk(t) && Inv(h.store) && BookOk(h.book, h.saved)
    ensures var (h', r) := Replay(t, h, deadId, id, now);
            && Inv(h'.store) && BookOk(h'.book, h'.saved)
            && (r.Replayed? <==>
                  && deadId in h.book && h.book[deadId].content.queue in t.queues && !h.store.closed
                  && id !in h.store.messages)
            && (!r.Replayed? ==>
                  && h' == h
                  && r == if deadId !in h.book then NotReplayed(NotFound)
                          else if h.book[deadId].content.queue !in t.queues then NoQueue(T.QueueNotFound)
                          else NotReplayed(if h.store.closed then StoreClosed else Conflict))
            && (r.Replayed? ==>
                  var was, c := h.book[deadId], h.book[deadId].content;
                  var headers := c.headers[HEADER_REPLAY_OF := c.id][HEADER_DEAD_LETTER_ID := deadId];
                  && r == Replayed(id, c.queue)
                  && h'.store.messages == h.store.messages[id := Record(
                       Message(id, c.exchange, c.routingKey, c.queue, c.schema, c.payload, headers, Queued, 0,
                               t.queues[c.queue].spec.maxAttempts, "", now, now, now), ZERO_TIME, "")]
                  && (forall q :: Index(h'.store, q) == Index(h.store, q) + (if q == c.queue then [id] else []))
                  && h'.book == h.book[deadId := was.(replayedAs := id, replayedAt := now,
                                                      replayCount := was.replayCount + 1)])
  {
    hide Inv;
    if deadId in h.book && h.book[deadId].content.queue in t.queues {
      var m := ReplayOf(h.book[deadId], id, t.queues[h.book[deadId].content.queue].spec.maxAttempts, now);
      AppendKeeps(h.store, [m]);
      assert [m][..0] == [] && AppendAll(h.store, []) == h.store;
      assert AppendAll(h.store, [m]) == AppendOne(h.store, m);
    }
  }

  /** An acknowledged message with no attempts left can be brought back: a negative acknowledgement leaves a
      record of it, and replaying that record queues its payload again beside the acknowledged original. */
  lemma AcknowledgedYetReplayed(t: T.Topology, h: Holdings, id: string, p: Policy, deadId: string,
                                failures: map<string, int>, roll: real, newId: string, now: int)
    requires T.TopologyOk(t) && Inv(h.store) && BookOk(h.book, h.saved) && !h.store.closed && deadId !in h.book
             && newId !in h.store.messages
    requires id in h.store.messages && h.store.messages[id].msg.state == Acknowledged
             && h.store.messages[id].msg.queue in t.queues
    requires p.maxAttempts <= h.store.messages[id].msg.attempts
    ensures var h1 := Nack(h, id, "", false, p, deadId, failures, roll, now).0;
            var h2 := Replay(t, h1, deadId, newId, now).0;
            && id in h2.store.messages && h2.store.messages[id] == h.store.messages[id]
            && newId in h2.store.messages && h2.store.messages[newId].msg.state == Queued
            && h2.store.messages[newId].msg.payload == h.store.messages[id].msg.payload
            && h2.store.messages[newId].msg.queue == h.store.messages[id].msg.queue
  {
    hide Inv, BookOk, AppendAll;
    assert RecordOk(id, h.store.messages[id]) by { RecordAt(h.store, id); }
    var m := h.store.messages[id].msg;
    var h1 := Nack(h, id, "", false, p, deadId, failures, roll, now).0;
    BuryKeeps(h, m, deadId, DEFAULT_REASON, KIND_HANDLER, failures, now);
    assert h1.store == h.store && h1.book[deadId].content == ContentOf(m);
    ReplayIsExact(t, h1, deadId, newId, now);
  }

  // ----- Whose limit decides -----

  /** A transient failure of a leased message with this limit of its own leads to a retry exactly while it has not
      used up that limit. */
  ghost predicate OwnLimitDecides(p: Policy, limit: int) {
    forall h: Holdings, id: string, reason: string, deadId: string, roll: real, now: int ::
      Failable(h, id, limit, deadId, roll) ==>
        var was := h.store.messages[id].msg;
        var h' := Fail(h, was, Cause(reason, false), p, deadId, map[], roll, now);
        id in h'.store.messages && (h'.store.messages[id].msg.state == Retrying <==> was.attempts < limit)
  }

  ghost predicate Failable(h: Holdings, id: string, limit: int, deadId: string, roll: real) {
    && Inv(h.store) && !h.store.closed && deadId !in h.book && 0.0 <= roll < 1.0
    && id in h.store.messages && h.store.messages[id].msg.state == Processing
    && h.store.messages[id].msg.maxAttempts == limit
  }

  /** A store with one leased message. */
  function OneLeased(attempts: int, limit: int): Holdings {
    var m := Message("m", "", "", "", "", "", map[], Processing, attempts, limit, "", 1, 1, 1);
    Holdings(StoreState(false, {}, map["m" := Record(m, 1, "")], map["" := ["m"]], map[]), map[], [])
  }

  lemma OneLeasedIsFailable(attempts: int, limit: int)
    requires 0 <= attempts
    ensures Failable(OneLeased(attempts, limit), "m", limit, "d", 0.0)
  {
    var s := OneLeased(attempts, limit).store;
    assert Live(s.messages, ["m"]) == ["m"] by {
      assert ["m"] == [] + ["m"];
      FilterPush(LiveIn(s.messages), [], "m");
      FilterNone(LiveIn(s.messages), []);
    }
    forall queue
      ensures QueueOk(s, queue)
    {
      if queue != "" { FilterNone(LiveIn(s.messages), []); }
    }
  }

  /** The limit a message takes from its queue decides about its retries if and only if it equals the policy's. */
  lemma OwnLimitDecidesIff(p: Policy, limit: int)
    requires p.Valid() && 1 <= limit
    ensures OwnLimitDecides(p, limit) <==> limit == p.maxAttempts
  {
    hide Failable, Fail;
    if limit == p.maxAttempts {
      forall h: Holdings, id: string, reason: string, deadId: string, roll: real, now: int
        | Failable(h, id, limit, deadId, roll)
        ensures id in h.store.messages
        ensures var was := h.store.messages[id].msg;
                var h' := Fail(h, was, Cause(reason, false), p, deadId, map[], roll, now);
                id in h'.store.messages && (h'.store.messages[id].msg.state == Retrying <==> was.attempts < limit)
      {
        FailableMeans(h, id, limit, deadId, roll);
        FailureIsSettled(h, id, Cause(reason, false), p, deadId, map[], roll, now);
      }
    } else {
      var attempts := if limit < p.maxAttempts then limit else p.maxAttempts;
      var h := OneLeased(attempts, limit);
      OneLeasedIsFailable(attempts, limit);
      FailableMeans(h, "m", limit, "d", 0.0);
      FailureIsSettled(h, "m", Cause("", false), p, "d", map[], 0.0, 1);
      var h' := Fail(h, h.store.messages["m"].msg, Cause("", false), p, "d", map[], 0.0, 1);
      assert (h'.store.messages["m"].msg.state == Retrying) != (attempts < limit);
    }
  }

  lemma FailableMeans(h: Holdings, id: string, limit: int, deadId: string, roll: real)
    requires Failable(h, id, limit, deadId, roll)
    ensures Inv(h.store) && !h.store.closed && deadId !in h.book && 0.0 <= roll < 1.0
    ensures id in h.store.messages && h.store.messages[id].msg.state == Processing
    ensures h.store.messages[id].msg.maxAttempts == limit
  {}
}
