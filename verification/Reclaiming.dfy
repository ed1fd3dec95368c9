/** Reclaiming expired leases: one maintenance pass, and any number of passes at one moment. */
module Reclaiming {
  import opened Sequences
  import opened Ordering
  import opened Messages
  import opened StoreSpec
  import opened StoreInvariant
  import opened Leasing
  import opened DeadLetterSpec
  import opened Retry
  import opened Publishing
  import opened Settling

  const RECLAIM_BATCH_SIZE := 256
  const LEASE_EXPIRED := "lease expired before the consumer acknowledged the message"
  const KIND_EXPIRED := "lease_expired"

  function ReclaimOne(h: Holdings, m: Message, p: Policy, deadId: string, failures: map<string, int>,
                      now: int): Holdings {
    if p.ShouldRetry(m.attempts) then h.(store := Release(h.store, m.id, now).0)
    else Bury(h, m, deadId, LEASE_EXPIRED, KIND_EXPIRED, failures, now)
  }

  /** Identifiers for the records are drawn from position `from` on, one per message. */
  function ReclaimAll(h: Holdings, ms: seq<Message>, p: Policy, ids: nat -> string, from: nat,
                      failures: map<string, int>, now: int)
    : Holdings
  {
    if ms == [] then h
    else
      var n := |ms| - 1;
      ReclaimOne(ReclaimAll(h, ms[..n], p, ids, from, failures, now), ms[n], p, ids(from + n), failures, now)
  }

  ghost function Pass(h: Holdings, p: Policy, ids: nat -> string, from: nat, failures: map<string, int>,
                      now: int): Holdings {
    ReclaimAll(h, ExpiredLeases(h.store, now, RECLAIM_BATCH_SIZE), p, ids, from, failures, now)
  }

  ghost function Passes(h: Holdings, p: Policy, ids: nat -> string, from: nat, failures: map<string, int>, now: int,
                        count: nat): Holdings
    decreases count
  {
    if count == 0 then h
    else Passes(Pass(h, p, ids, from, failures, now), p, ids, from + RECLAIM_BATCH_SIZE, failures, now, count - 1)
  }

  // ----- What should become of the messages -----

  /** With attempts left, back in its queue and available at once; without, dead-lettered. Nobody holds it. */
  function Handled(r: Record, p: Policy, now: int): Record {
    var m := r.msg.(updatedAt := now);
    Record(if m.attempts < p.maxAttempts then m.(state := Queued, availableAt := now)
           else m.(state := DeadLettered, lastError := LEASE_EXPIRED), ZERO_TIME, "")
  }

  /** The record of such a burial. */
  function ExpiryOf(m: Message, deadId: string, failures: map<string, int>, now: int): DeadLetter {
    DeadLetter(deadId, ContentOf(m), LEASE_EXPIRED, KIND_EXPIRED, m.attempts,
               if m.id in failures then failures[m.id] else now, now, "", ZERO_TIME, 0)
  }

  /** The messages that are being processed although their lease has ended. */
  function Ended(s: StoreState, now: int): set<string> {
    set id | id in s.messages && s.messages[id].msg.state == Processing && s.messages[id].lease <= now
  }

  ghost function Swept(ms: map<string, Record>, done: seq<string>, p: Policy, now: int): map<string, Record> {
    map id | id in ms :: if id in done then Handled(ms[id], p, now) else ms[id]
  }

  /** Of the identifiers done, those out of attempts. */
  ghost function Exhausted(ms: map<string, Record>, done: seq<string>, p: Policy): set<string> {
    set id | id in done && id in ms && p.maxAttempts <= ms[id].msg.attempts
  }

  ghost predicate Unused(ids: nat -> string, from: nat, book: map<string, DeadLetter>) {
    Injective(ids) && forall i :: from <= i ==> ids(i) !in book
  }

  /** The store is open and sound, and identifiers from `from` on are unused. */
  ghost predicate Ready(h: Holdings, ids: nat -> string, from: nat) {
    Inv(h.store) && BookOk(h.book, h.saved) && !h.store.closed && Unused(ids, from, h.book)
  }

  ghost predicate Extends(book: map<string, DeadLetter>, book': map<string, DeadLetter>) {
    forall d :: d in book ==> d in book' && book'[d] == book[d]
  }

  ghost predicate HasExpiry(book: map<string, DeadLetter>, book': map<string, DeadLetter>, m: Message,
                            failures: map<string, int>, now: int) {
    exists d :: d in book' && d !in book && book'[d] == ExpiryOf(m, d, failures, now)
  }

  /** Each burial has a new record of its own, and the old records stand. */
  ghost predicate Recorded(h: Holdings, h': Holdings, done: seq<string>, p: Policy, failures: map<string, int>,
                           now: int) {
    && BookOk(h'.book, h'.saved)
    && Extends(h.book, h'.book) && h.saved <= h'.saved
    && (forall id :: id in Exhausted(h.store.messages, done, p) ==>
          HasExpiry(h.book, h'.book, h.store.messages[id].msg, failures, now))
    && |h'.book| == |h.book| + |Exhausted(h.store.messages, done, p)|
  }

  /** Exactly the messages done have moved, each as the policy says. */
  ghost predicate Progress(h: Holdings, h': Holdings, done: seq<string>, p: Policy, failures: map<string, int>,
                           now: int) {
    && Inv(h'.store)
    && h'.store == h.store.(messages := Swept(h.store.messages, done, p, now), settled := h'.store.settled)
    && Recorded(h, h', done, p, failures, now)
  }

  // ----- One pass -----

  lemma SweptOneMore(ms: map<string, Record>, done: seq<string>, id: string, p: Policy, now: int)
    requires id in ms && id !in done
    ensures Swept(ms, done + [id], p, now) == Swept(ms, done, p, now)[id := Handled(ms[id], p, now)]
    ensures id in Swept(ms, done, p, now) && Swept(ms, done, p, now)[id] == ms[id]
  {}

  lemma ExhaustedOneMore(ms: map<string, Record>, done: seq<string>, id: string, p: Policy)
    requires id in ms && id !in done
    ensures forall x :: x in Exhausted(ms, done + [id], p) ==> x in ms && (x in Exhausted(ms, done, p) || x == id)
    ensures |Exhausted(ms, done + [id], p)| == |Exhausted(ms, done, p)|
            + (if p.ShouldRetry(ms[id].msg.attempts) then 0 else 1)
    ensures p.ShouldRetry(ms[id].msg.attempts) ==> Exhausted(ms, done + [id], p) == Exhausted(ms, done, p)
  {
    var more := if p.ShouldRetry(ms[id].msg.attempts) then {} else {id};
    assert Exhausted(ms, done + [id], p) == Exhausted(ms, done, p) + more;
    assert id !in Exhausted(ms, done, p);
  }

  /** Returning one message to its queue. */
  lemma RequeueOne(h: Holdings, h1: Holdings, done: seq<string>, id: string, p: Policy, deadId: string,
                   failures: map<string, int>, now: int)
    requires Progress(h, h1, done, p, failures, now) && id !in done && id in h.store.messages
    requires Inv(h.store) && h.store.messages[id].msg.state == Processing
             && p.ShouldRetry(h.store.messages[id].msg.attempts)
    ensures Progress(h, ReclaimOne(h1, h.store.messages[id].msg, p, deadId, failures, now),
                     done + [id], p, failures, now)
  {
    hide Inv, BookOk, Swept, Exhausted, HasExpiry;
    var r := h.store.messages[id];
    SweptOneMore(h.store.messages, done, id, p, now);
    ExhaustedOneMore(h.store.messages, done, id, p);
    assert RecordOk(id, r) by { RecordAt(h.store, id); }
    ReleaseKeeps(h1.store, id, now);
  }

  lemma RecordOne(h: Holdings, h1: Holdings, h2: Holdings, done: seq<string>, id: string, p: Policy, deadId: string,
                  failures: map<string, int>, now: int)
    requires Recorded(h, h1, done, p, failures, now) && id !in done && id in h.store.messages
    requires !p.ShouldRetry(h.store.messages[id].msg.attempts) && deadId !in h1.book
    requires h2.book == h1.book[deadId := ExpiryOf(h.store.messages[id].msg, deadId, failures, now)]
             && h2.saved == h1.saved + [deadId]
    ensures Recorded(h, h2, done + [id], p, failures, now)
  {
    hide BookOk, Exhausted, HasExpiry, ExpiryOf;
    var m := h.store.messages[id].msg;
    ExhaustedOneMore(h.store.messages, done, id, p);
    ExpiryIs(m, deadId, failures, now);
    BookGrows(h1.book, h1.saved, ExpiryOf(m, deadId, failures, now));
    forall x | x in Exhausted(h.store.messages, done + [id], p)
      ensures HasExpiry(h.book, h2.book, h.store.messages[x].msg, failures, now)
    {
      ExpiryKept(h.book, h1.book, h2.book, h.store.messages[x].msg, deadId, failures, now, x == id);
    }
  }

  lemma ExpiryKept(book: map<string, DeadLetter>, b1: map<string, DeadLetter>, b2: map<string, DeadLetter>, m: Message,
                   deadId: string,
                   failures: map<string, int>, now: int, isNew: bool)
    requires deadId !in b1 && deadId in b2 && forall d :: d in book ==> d in b1
    requires forall d :: d in b1 ==> d in b2 && b2[d] == b1[d]
    requires if isNew then b2[deadId] == ExpiryOf(m, deadId, failures, now) else HasExpiry(book, b1, m, failures, now)
    ensures HasExpiry(book, b2, m, failures, now)
  {}

  lemma BookGrows(book: map<string, DeadLetter>, saved: seq<string>, entry: DeadLetter)
    requires BookOk(book, saved) && entry.id !in book
    ensures BookOk(book[entry.id := entry], saved + [entry.id]) && |book[entry.id := entry]| == |book| + 1
  {
    hide BookOk, NewestFirst;
    SaveKeeps(book, saved, entry);
    assert book[entry.id := entry].Keys == book.Keys + {entry.id};
  }

  lemma ExpiryIs(m: Message, deadId: string, failures: map<string, int>, now: int)
    ensures ExpiryOf(m, deadId, failures, now).id == deadId
  {}

  /** Burying one message, its record first. */
  lemma BuryOne(h: Holdings, h1: Holdings, done: seq<string>, id: string, p: Policy, deadId: string,
                failures: map<string, int>, now: int)
    requires Progress(h, h1, done, p, failures, now) && id !in done && id in h.store.messages
    requires Inv(h.store) && h.store.messages[id].msg.state == Processing
             && !p.ShouldRetry(h.store.messages[id].msg.attempts)
    requires !h.store.closed && deadId !in h1.book
    ensures Progress(h, ReclaimOne(h1, h.store.messages[id].msg, p, deadId, failures, now),
                     done + [id], p, failures, now)
  {
    hide Inv, Swept, Exhausted, Recorded;
    var r := h.store.messages[id];
    SweptOneMore(h.store.messages, done, id, p, now);
    assert RecordOk(id, r) by { RecordAt(h.store, id); }
    MarkKeeps(h1.store, id, LEASE_EXPIRED, now);
    RecordOne(h, h1, ReclaimOne(h1, r.msg, p, deadId, failures, now), done, id, p, deadId, failures, now);
  }

  lemma MessagesOfPrefix(ms: map<string, Record>, ids: seq<string>, n: nat)
    requires n <= |ids| && forall id :: id in ids ==> id in ms
    ensures MessagesOf(ms, ids[..n]) == MessagesOf(ms, ids)[..n]
  {}

  lemma NothingDone(h: Holdings, p: Policy, failures: map<string, int>, now: int)
    requires Inv(h.store) && BookOk(h.book, h.saved)
    ensures Progress(h, h, [], p, failures, now)
  {
    assert Swept(h.store.messages, [], p, now) == h.store.messages;
    assert Exhausted(h.store.messages, [], p) == {};
  }

  lemma ReclaimNone(h: Holdings, ms: seq<Message>, p: Policy, ids: nat -> string, from: nat,
                    failures: map<string, int>, now: int)
    ensures ReclaimAll(h, ms[..0], p, ids, from, failures, now) == h
  {}

  lemma ReclaimOneMore(h: Holdings, ms: seq<Message>, i: nat, p: Policy, ids: nat -> string, from: nat,
                       failures: map<string, int>, now: int)
    requires i < |ms|
    ensures ReclaimAll(h, ms[..i + 1], p, ids, from, failures, now)
            == ReclaimOne(ReclaimAll(h, ms[..i], p, ids, from, failures, now), ms[i], p, ids(from + i), failures, now)
  {
    assert ms[..i + 1][..i] == ms[..i];
  }

  /** Only identifiers drawn so far are used up. */
  lemma {:induction false} ReclaimAllSteps(h: Holdings, todo: seq<string>, p: Policy, ids: nat -> string, from: nat,
                                           failures: map<string, int>, now: int)
    requires Ready(h, ids, from)
    requires Distinct(todo) && forall id :: id in todo ==>
               id in h.store.messages && h.store.messages[id].msg.state == Processing
    ensures var h' := ReclaimAll(h, MessagesOf(h.store.messages, todo), p, ids, from, failures, now);
            && Progress(h, h', todo, p, failures, now)
            && (forall i :: from + |todo| <= i ==> ids(i) !in h'.book)
    decreases |todo|
  {
    hide Ready, Progress, ReclaimAll, ReclaimOne;
    var ms := MessagesOf(h.store.messages, todo);
    if todo == [] {
      ReadyMeans(h, ids, from);
      NothingDone(h, p, failures, now);
      ReclaimNone(h, ms, p, ids, from, failures, now);
    } else {
      ReadyMeans(h, ids, from);
      var n := |todo| - 1;
      ReclaimOneMore(h, ms, n, p, ids, from, failures, now);
      assert ms[..n + 1] == ms;
      var front, id := todo[..n], todo[n];
      assert todo == front + [id];
      MessagesOfPrefix(h.store.messages, todo, n);
      ReclaimAllSteps(h, front, p, ids, from, failures, now);
      var h1 := ReclaimAll(h, ms[..n], p, ids, from, failures, now);
      if p.ShouldRetry(ms[n].attempts) {
        RequeueOne(h, h1, front, id, p, ids(from + n), failures, now);
      } else {
        BuryOne(h, h1, front, id, p, ids(from + n), failures, now);
      }
      OneIdUsed(h1, ms[n], p, ids(from + n), failures, now);
    }
  }

  lemma ReadyMeans(h: Holdings, ids: nat -> string, from: nat)
    requires Ready(h, ids, from)
    ensures Inv(h.store) && BookOk(h.book, h.saved) && !h.store.closed && Unused(ids, from, h.book)
  {}

  lemma OneIdUsed(h: Holdings, m: Message, p: Policy, deadId: string, failures: map<string, int>, now: int)
    ensures ReclaimOne(h, m, p, deadId, failures, now).book.Keys <= h.book.Keys + {deadId}
  {}

  /** The identifiers one pass takes: the smallest expired ones, at most a batch. */
  ghost function Taken(s: StoreState, now: int): seq<string> {
    Take(256, Listing(Ended(s, now)))
  }

  lemma TakenHaveEnded(s: StoreState, now: int, limit: int)
    ensures Distinct(Take(limit, Listing(Ended(s, now))))
    ensures forall id :: id in Take(limit, Listing(Ended(s, now))) ==> id in Ended(s, now)
  {
    ListingSorted(Ended(s, now));
    SortedDistinct(Itself(), Listing(Ended(s, now)));
  }

  /** What a scan calls expired are the leases that have ended. */
  lemma ExpiredIsEnded(s: StoreState, now: int)
    requires Inv(s)
    ensures ExpiredSet(s, now) == Ended(s, now)
  {
    hide Inv;
    forall id | id in s.messages
      ensures id in ExpiredSet(s, now) <==> id in Ended(s, now)
    {
      RecordAt(s, id);
    }
  }

  /** One pass moves exactly the ended leases with the smallest identifiers, at most a batch of them. No lease that
      still runs is touched. */
  lemma PassIsExact(h: Holdings, p: Policy, ids: nat -> string, from: nat, failures: map<string, int>, now: int)
    requires Ready(h, ids, from)
    ensures var h' := Pass(h, p, ids, from, failures, now);
            && Progress(h, h', Taken(h.store, now), p, failures, now)
            && Ready(h', ids, from + RECLAIM_BATCH_SIZE)
            && (forall id :: id in h.store.messages && now < h.store.messages[id].lease ==>
                  id in h'.store.messages && h'.store.messages[id] == h.store.messages[id])
  {
    hide Inv, BookOk, ReclaimAll, Ended;
    TakenHaveEnded(h.store, now, RECLAIM_BATCH_SIZE);
    ExpiredIsEnded(h.store, now);
    forall id | id in Taken(h.store, now)
      ensures id in h.store.messages && h.store.messages[id].msg.state == Processing
      ensures h.store.messages[id].lease <= now
    {
      EndedMeans(h.store, now, id);
    }
    ReclaimAllSteps(h, Taken(h.store, now), p, ids, from, failures, now);
  }

  lemma EndedMeans(s: StoreState, now: int, id: string)
    requires id in Ended(s, now)
    ensures id in s.messages && s.messages[id].msg.state == Processing && s.messages[id].lease <= now
  {}

  /** So a pass before the end of a lease leaves the claimed message to its consumer. */
  lemma PassSparesTheClaimed(h: Holdings, req: ClaimRequest, m: Message, p: Policy, ids: nat -> string, from: nat,
                             failures: map<string, int>, now: int)
    requires Ready(h, ids, from) && req.now + req.lease != ZERO_TIME
    requires m in Claim(h.store, req).1.value && now < req.now + req.lease
    ensures var h1 := h.(store := Claim(h.store, req).0);
            var h2 := Pass(h1, p, ids, from, failures, now);
            m.id in h2.store.messages && h2.store.messages[m.id] == Record(m, req.now + req.lease, req.consumer)
  {
    hide Inv, Claim, Pass;
    ClaimTakesOnlyTheAvailable(h.store, req);
    ClaimKeeps(h.store, req);
    ClaimStaysOpen(h.store, req);
    PassIsExact(h.(store := Claim(h.store, req).0), p, ids, from, failures, now);
  }

  lemma ClaimStaysOpen(s: StoreState, req: ClaimRequest)
    ensures Claim(s, req).0.closed == s.closed
  {}

  // ----- Any number of passes -----

  lemma SweptTwice(ms: map<string, Record>, first: seq<string>, second: seq<string>, p: Policy, now: int)
    requires forall id :: id in first ==> id !in second
    ensures Swept(Swept(ms, first, p, now), second, p, now) == Swept(ms, first + second, p, now)
  {}

  /** What has ended after sweeping some of the ended leases: the others. */
  lemma EndedAfter(s: StoreState, s': StoreState, done: seq<string>, p: Policy, now: int)
    requires s'.messages == Swept(s.messages, done, p, now)
    ensures Ended(s', now) == Ended(s, now) - (set id | id in done)
  {}

  /** Leaving out a prefix of a listing leaves the listing of the rest. */
  lemma ListingWithout(all: set<string>, n: nat)
    requires n <= |Listing(all)|
    ensures Listing(all - (set id | id in Listing(all)[..n])) == Listing(all)[n..]
  {
    hide Listing, Distinct;
    var listing := Listing(all);
    var rest := all - (set id | id in listing[..n]);
    ListingSorted(all);
    ListingSorted(rest);
    SuffixOfSorted(listing, n);
    SortedUnique(Itself(), Listing(rest), listing[n..]);
  }

  lemma SuffixOfSorted(xs: seq<string>, n: nat)
    requires SortedBy(Itself(), xs) && n <= |xs|
    ensures SortedBy(Itself(), xs[n..])
    ensures forall x :: x in xs[n..] <==> x in xs && x !in xs[..n]
  {
    SortedDistinct(Itself(), xs);
    assert xs == xs[..n] + xs[n..];
  }

  lemma TakeMore<X>(a: nat, b: nat, xs: seq<X>)
    ensures Take(a, xs) == xs[..|Take(a, xs)|]
    ensures Take(a + b, xs) == Take(a, xs) + Take(b, xs[|Take(a, xs)|..])
  {}

  /** Taking some and then some more of what is left is taking both at once. */
  lemma FirstThenRest(all: set<string>, n: nat, m: nat)
    ensures var first := Take(n, Listing(all));
            var second := Take(m, Listing(all - (set id | id in first)));
            && first + second == Take(n + m, Listing(all))
            && (forall id :: id in first ==> id !in second)
  {
    hide Listing, Take, SortedBy;
    var listing := Listing(all);
    var first := Take(n, listing);
    TakeMore(n, m, listing);
    ListingWithout(all, |first|);
    ListingSorted(all);
    SuffixOfSorted(listing, |first|);
  }

  lemma ExhaustedTwice(ms: map<string, Record>, first: seq<string>, second: seq<string>, p: Policy, now: int)
    requires forall id :: id in first ==> id !in second
    ensures var later := Exhausted(Swept(ms, first, p, now), second, p);
            && Exhausted(ms, first + second, p) == Exhausted(ms, first, p) + later
            && |Exhausted(ms, first + second, p)| == |Exhausted(ms, first, p)| + |later|
            && (forall id :: id in Exhausted(ms, first, p) + later ==> id in ms)
            && (forall id :: id in later ==> id in Swept(ms, first, p, now) && Swept(ms, first, p, now)[id] == ms[id])
  {
    var once, later := Exhausted(ms, first, p), Exhausted(Swept(ms, first, p, now), second, p);
    assert Exhausted(ms, first + second, p) == once + later;
    assert once !! later;
  }

  lemma HasExpiryLater(a: map<string, DeadLetter>, b: map<string, DeadLetter>, c: map<string, DeadLetter>, m: Message,
                       failures: map<string, int>, now: int)
    requires Extends(a, b) && Extends(b, c) && (HasExpiry(a, b, m, failures, now) || HasExpiry(b, c, m, failures, now))
    ensures HasExpiry(a, c, m, failures, now)
  {
    if HasExpiry(a, b, m, failures, now) {
      var d :| d in b && d !in a && b[d] == ExpiryOf(m, d, failures, now);
      assert d in c && c[d] == b[d];
    } else {
      var d :| d in c && d !in b && c[d] == ExpiryOf(m, d, failures, now);
      assert d !in a;
    }
  }

  lemma RecordedTwice(h: Holdings, h1: Holdings, h2: Holdings, first: seq<string>, second: seq<string>, p: Policy,
                      failures: map<string, int>, now: int)
    requires h1.store.messages == Swept(h.store.messages, first, p, now) && forall id :: id in first ==> id !in second
    requires Recorded(h, h1, first, p, failures, now) && Recorded(h1, h2, second, p, failures, now)
    ensures Recorded(h, h2, first + second, p, failures, now)
  {
    hide BookOk, HasExpiry, Exhausted, Swept, Extends;
    ExhaustedTwice(h.store.messages, first, second, p, now);
    ExtendsTwice(h.book, h1.book, h2.book);
    forall id | id in Exhausted(h.store.messages, first + second, p)
      ensures HasExpiry(h.book, h2.book, h.store.messages[id].msg, failures, now)
    {
      HasExpiryLater(h.book, h1.book, h2.book, h.store.messages[id].msg, failures, now);
    }
  }

  /** What two stretches of reclaiming do one after the other is what they do together. */
  lemma ProgressTwice(h: Holdings, h1: Holdings, h2: Holdings, first: seq<string>, second: seq<string>, p: Policy,
                      failures: map<string, int>, now: int)
    requires Progress(h, h1, first, p, failures, now) && Progress(h1, h2, second, p, failures, now)
    requires forall id :: id in first ==> id !in second
    ensures Progress(h, h2, first + second, p, failures, now)
  {
    hide Inv, Recorded, Swept;
    SweptTwice(h.store.messages, first, second, p, now);
    RecordedTwice(h, h1, h2, first, second, p, failures, now);
  }

  lemma ExtendsTwice(a: map<string, DeadLetter>, b: map<string, DeadLetter>, c: map<string, DeadLetter>)
    requires Extends(a, b) && Extends(b, c)
    ensures Extends(a, c)
  {}

  /** After any number of passes at one moment exactly the first so many batches of expired leases have moved,
      each burial under its own new record, and nothing else has changed. */
  lemma {:induction false} PassesAreExact(h: Holdings, p: Policy, ids: nat -> string, from: nat,
                                          failures: map<string, int>, now: int, count: nat)
    requires Ready(h, ids, from)
    ensures var h' := Passes(h, p, ids, from, failures, now, count);
            var done := Take(256 * count, Listing(Ended(h.store, now)));
            && Ready(h', ids, from + RECLAIM_BATCH_SIZE * count)
            && Progress(h, h', done, p, failures, now)
    decreases count
  {
    hide Ready, Progress, Ended, Pass, Listing, Take;
    var all := Ended(h.store, now);
    if count == 0 {
      ReadyMeans(h, ids, from);
      NothingDone(h, p, failures, now);
      assert |Take(0, Listing(all))| == 0;
    } else {
      var h1 := Pass(h, p, ids, from, failures, now);
      var h2 := Passes(h1, p, ids, from + RECLAIM_BATCH_SIZE, failures, now, count - 1);
      var first := Taken(h.store, now);
      PassIsExact(h, p, ids, from, failures, now);
      PassesAreExact(h1, p, ids, from + RECLAIM_BATCH_SIZE, failures, now, count - 1);
      EndedLater(h, h1, first, p, failures, now);
      FirstThenRest(all, RECLAIM_BATCH_SIZE, RECLAIM_BATCH_SIZE * (count - 1));
      var second := Take(RECLAIM_BATCH_SIZE * (count - 1), Listing(Ended(h1.store, now)));
      ProgressTwice(h, h1, h2, first, second, p, failures, now);
      assert RECLAIM_BATCH_SIZE + RECLAIM_BATCH_SIZE * (count - 1) == RECLAIM_BATCH_SIZE * count;
    }
  }

  lemma EndedLater(h: Holdings, h': Holdings, done: seq<string>, p: Policy, failures: map<string, int>, now: int)
    requires Progress(h, h', done, p, failures, now)
    ensures Ended(h'.store, now) == Ended(h.store, now) - (set id | id in done)
  {
    hide Inv, Recorded, Swept;
    EndedAfter(h.store, h'.store, done, p, now);
  }

  /** The backlog is gone exactly when enough passes have run. Then every expired lease has been handled once,
      each burial has its own new record, and nothing else has changed. */
  lemma BacklogDrainsIff(h: Holdings, p: Policy, ids: nat -> string, from: nat, failures: map<string, int>, now: int,
                         count: nat)
    requires Ready(h, ids, from)
    ensures var h' := Passes(h, p, ids, from, failures, now, count);
            var backlog := |Ended(h.store, now)|;
            && (Ended(h'.store, now) == {} <==> backlog <= 256 * count)
            && (backlog <= 256 * count ==>
                  Progress(h, h', Listing(Ended(h.store, now)), p, failures, now))
  {
    hide Ready, Progress, Passes, Ended;
    var all := Listing(Ended(h.store, now));
    var done := Take(RECLAIM_BATCH_SIZE * count, all);
    var h' := Passes(h, p, ids, from, failures, now, count);
    PassesAreExact(h, p, ids, from, failures, now, count);
    EndedLater(h, h', done, p, failures, now);
    TakenHaveEnded(h.store, now, |all|);
    assert Take(|all|, all) == all;
    if RECLAIM_BATCH_SIZE * count < |all| {
      assert all[|done|] in Ended(h.store, now) && all[|done|] !in done;
      assert all[|done|] in Ended(h'.store, now);
    }
  }
}
