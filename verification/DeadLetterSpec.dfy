/** The dead-letter book: records by identifier and the order they were saved in, read newest first
    in pages. */
module DeadLetterSpec {
  import opened Sequences
  import opened Messages

  const DEFAULT_PAGE_SIZE := 50
  const MAX_PAGE_SIZE := 500
  const KIND_VALIDATION := "validation"
  const HEADER_REPLAY_OF := "x-replay-of"
  const HEADER_DEAD_LETTER_ID := "x-dead-letter-id"

  datatype DeadLetter = DeadLetter(
    id: string,
    content: Content,
    reason: string,
    errorKind: string,
    attempts: int,
    firstFailedAt: int,
    deadLetteredAt: int,
    replayedAs: string,
    replayedAt: int,
    replayCount: int)

  /** The record of a message that failed for good. */
  function NewRecord(id: string, m: Message, reason: string, kind: string, firstFailedAt: int, now: int): DeadLetter {
    DeadLetter(id, ContentOf(m), reason, kind, m.attempts, firstFailedAt, now, "", 0, 0)
  }

  /** The message a replay publishes: the original payload on the original queue, under a new identity. */
  function ReplayOf(record: DeadLetter, id: string, maxAttempts: int, now: int): Message {
    var c := record.content;
    Message(id, c.exchange, c.routingKey, c.queue, c.schema, c.payload,
            c.headers[HEADER_REPLAY_OF := c.id][HEADER_DEAD_LETTER_ID := record.id],
            Queued, 0, maxAttempts, "", now, now, now)
  }

  function MarkedReplayed(r: DeadLetter, replayedAs: string, at: int): DeadLetter {
    r.(replayedAs := replayedAs, replayedAt := at, replayCount := r.replayCount + 1)
  }

  datatype PageRequest = PageRequest(queue: string, limit: int, offset: int)

  function Normalise(f: PageRequest): (r: PageRequest)
    ensures 1 <= r.limit <= 500 && 0 <= r.offset && r.queue == f.queue
    ensures r.limit == f.limit || (r.limit == 50 && !(1 <= f.limit <= 500))
    ensures r.offset == f.offset || (r.offset == 0 && f.offset < 0)
  {
    PageRequest(f.queue,
                if f.limit <= 0 || f.limit > MAX_PAGE_SIZE then DEFAULT_PAGE_SIZE else f.limit,
                if f.offset < 0 then 0 else f.offset)
  }

  /** The saving order lists exactly the records, once each. */
  ghost predicate BookOk(book: map<string, DeadLetter>, saved: seq<string>) {
    && Distinct(saved)
    && (forall id :: id in saved <==> id in book)
    && (forall id :: id in book ==> book[id].id == id)
  }

  function OfQueue(book: map<string, DeadLetter>, queue: string): string -> bool {
    id => id in book && (queue == "" || book[id].content.queue == queue)
  }

  function Reversed<T>(xs: seq<T>): (r: seq<T>)
    ensures |r| == |xs|
    ensures forall i :: 0 <= i < |xs| ==> r[i] == xs[|xs| - 1 - i]
  {
    if xs == [] then [] else Reversed(xs[1..]) + [xs[0]]
  }

  lemma ReversedConcat<T>(xs: seq<T>, ys: seq<T>)
    ensures Reversed(xs + ys) == Reversed(ys) + Reversed(xs)
  {}

  /** The identifiers a filter selects, newest first. An empty queue name selects all. */
  function NewestFirst(book: map<string, DeadLetter>, saved: seq<string>, queue: string): seq<string> {
    Filter(OfQueue(book, queue), Reversed(saved))
  }

  function Slice<T>(xs: seq<T>, offset: nat, limit: nat): seq<T> {
    if offset >= |xs| then [] else Take(limit, xs[offset..])
  }

  function RecordsOf(book: map<string, DeadLetter>, ids: seq<string>): (r: seq<DeadLetter>)
    requires forall id :: id in ids ==> id in book
    ensures |r| == |ids|
    ensures forall i :: 0 <= i < |ids| ==> r[i] == book[ids[i]]
  {
    seq(|ids|, i requires 0 <= i < |ids| => book[ids[i]])
  }

  lemma SliceMembers<T>(xs: seq<T>, offset: nat, limit: nat)
    ensures forall x :: x in Slice(xs, offset, limit) ==> x in xs
  {}

  /** `[offset, offset + limit)` of the newest-first listing. */
  function Page(book: map<string, DeadLetter>, saved: seq<string>, f: PageRequest): seq<DeadLetter> {
    var n := Normalise(f);
    var ids := NewestFirst(book, saved, n.queue);
    SliceMembers(ids, n.offset, n.limit);
    RecordsOf(book, Slice(ids, n.offset, n.limit))
  }

  /** The first `count` pages, one after the other. */
  function Pages(book: map<string, DeadLetter>, saved: seq<string>, queue: string, limit: nat,
                 count: nat): seq<DeadLetter> {
    if count == 0 then []
    else Pages(book, saved, queue, limit, count - 1) + Page(book, saved, PageRequest(queue, limit, (count - 1) * limit))
  }

  function Least(a: nat, b: nat): nat {
    if a < b then a else b
  }

  lemma PageIsSlice(book: map<string, DeadLetter>, saved: seq<string>, queue: string, limit: nat, done: nat)
    requires 1 <= limit <= MAX_PAGE_SIZE
    ensures var all := RecordsOf(book, NewestFirst(book, saved, queue));
            Page(book, saved, PageRequest(queue, limit, done)) == all[Least(done, |all|)..Least(done + limit, |all|)]
  {
    var ids := NewestFirst(book, saved, queue);
    assert Slice(ids, done, limit) == ids[Least(done, |ids|)..Least(done + limit, |ids|)];
  }

  lemma {:induction false} PagesArePrefixes(book: map<string, DeadLetter>, saved: seq<string>, queue: string,
                                            limit: nat, count: nat)
    requires 1 <= limit <= MAX_PAGE_SIZE
    ensures var all := RecordsOf(book, NewestFirst(book, saved, queue));
            Pages(book, saved, queue, limit, count) == all[..Least(count * limit, |all|)]
    decreases count
  {
    hide Page, NewestFirst;
    if count > 0 {
      var done := (count - 1) * limit;
      PagesArePrefixes(book, saved, queue, limit, count - 1);
      PageIsSlice(book, saved, queue, limit, done);
      assert count * limit == done + limit;
    }
  }

  lemma RecordsDistinct(book: map<string, DeadLetter>, ids: seq<string>)
    requires Distinct(ids) && forall id :: id in ids ==> id in book && book[id].id == id
    ensures Distinct(RecordsOf(book, ids))
    ensures forall id :: id in ids ==> book[id] in RecordsOf(book, ids)
    ensures forall r :: r in RecordsOf(book, ids) ==> r.id in ids && book[r.id] == r
  {
    var all := RecordsOf(book, ids);
    forall i | 0 <= i < |ids|
      ensures all[i] == book[ids[i]] && all[i].id == ids[i] && ids[i] in ids
    {}
  }

  /** Enough consecutive pages show every selected record exactly once, newest first. */
  lemma PagesCoverTheBook(book: map<string, DeadLetter>, saved: seq<string>, queue: string, limit: nat, count: nat)
    requires BookOk(book, saved) && 1 <= limit <= MAX_PAGE_SIZE
    requires |Selected(book, queue)| <= count * limit
    ensures var all := Pages(book, saved, queue, limit, count);
            && |all| == |Selected(book, queue)|
            && Distinct(all)
            && (forall id :: id in Selected(book, queue) ==> book[id] in all)
            && (forall r :: r in all ==> r.id in Selected(book, queue) && book[r.id] == r)
  {
    var ids := NewestFirst(book, saved, queue);
    PagesArePrefixes(book, saved, queue, limit, count);
    ListingIsSelected(book, saved, queue);
    RecordsDistinct(book, ids);
    assert Pages(book, saved, queue, limit, count) == RecordsOf(book, ids);
  }

  ghost function Selected(book: map<string, DeadLetter>, queue: string): set<string> {
    set id | id in book && OfQueue(book, queue)(id)
  }

  /** The newest-first listing is a duplicate-free listing of the selected records. */
  lemma ListingIsSelected(book: map<string, DeadLetter>, saved: seq<string>, queue: string)
    requires BookOk(book, saved)
    ensures var ids := NewestFirst(book, saved, queue);
            && Distinct(ids) && |ids| == |Selected(book, queue)|
            && (forall id :: id in ids <==> id in Selected(book, queue))
  {
    var ids := NewestFirst(book, saved, queue);
    var back := Reversed(saved);
    assert Distinct(back);
    FilterDistinct(OfQueue(book, queue), back);
    forall id
      ensures id in back <==> id in saved
    {
      if id in saved {
        var i :| 0 <= i < |saved| && saved[i] == id;
        assert back[|saved| - 1 - i] == id;
      }
    }
    DistinctSize(ids, Selected(book, queue));
  }

  /** Once a page is full, older records do not change it. */
  lemma PageComplete(ids: seq<string>, saved: seq<string>, i: nat, p: string -> bool, offset: nat, limit: nat)
    requires i <= |saved| && ids == Filter(p, Reversed(saved[i..])) && |ids| == offset + limit
    ensures Slice(Filter(p, Reversed(saved)), offset, limit) == ids[offset..]
  {
    hide Filter, Reversed;
    assert saved == saved[..i] + saved[i..];
    ReversedConcat(saved[..i], saved[i..]);
    FilterAppend(p, Reversed(saved[i..]), Reversed(saved[..i]));
  }

  // ----- Changes -----

  lemma SaveKeeps(book: map<string, DeadLetter>, saved: seq<string>, r: DeadLetter)
    requires BookOk(book, saved) && r.id !in book
    ensures BookOk(book[r.id := r], saved + [r.id])
  {
    DistinctPush(saved, r.id);
  }

  /** A saved record comes first in every listing that selects it, before what was listed already. */
  lemma SavedComesFirst(book: map<string, DeadLetter>, saved: seq<string>, r: DeadLetter, queue: string)
    requires BookOk(book, saved) && r.id !in book
    ensures NewestFirst(book[r.id := r], saved + [r.id], queue)
            == (if queue == "" || r.content.queue == queue then [r.id] else []) + NewestFirst(book, saved, queue)
  {
    hide Filter, Reversed;
    var book', back := book[r.id := r], Reversed(saved);
    ReversedPush(saved, r.id);
    FilterAppend(OfQueue(book', queue), [r.id], back);
    FilterPush(OfQueue(book', queue), [], r.id);
    assert [] + [r.id] == [r.id];
    assert Filter(OfQueue(book', queue), []) == [] by { FilterNone(OfQueue(book', queue), []); }
    forall id | id in back
      ensures OfQueue(book', queue)(id) == OfQueue(book, queue)(id)
    {
      ReversedMembers(saved, id);
    }
    FilterCong(OfQueue(book', queue), OfQueue(book, queue), back);
  }

  lemma ReversedPush<T>(xs: seq<T>, x: T)
    ensures Reversed(xs + [x]) == [x] + Reversed(xs)
  {}

  lemma ReversedMembers<T>(xs: seq<T>, x: T)
    ensures x in Reversed(xs) <==> x in xs
  {
    var back := Reversed(xs);
    if x in xs {
      var i :| 0 <= i < |xs| && xs[i] == x;
      assert back[|xs| - 1 - i] == x;
    }
    if i :| 0 <= i < |back| && back[i] == x { assert xs[|xs| - 1 - i] == x; }
  }

  lemma DeleteKeeps(book: map<string, DeadLetter>, saved: seq<string>, id: string)
    requires BookOk(book, saved)
    ensures BookOk(book - {id}, Filter(Except(id), saved))
  {
    FilterDistinct(Except(id), saved);
  }
}
