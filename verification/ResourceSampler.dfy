// The sampler's bounded queue of lifecycle events: emitted by any thread,
// copied into each batch, acknowledged once the batch's append has returned.
module ResourceSampling {
  import opened Basics

  const MAX_EVENTS: nat := 256
  const MAX_PROCESSES: nat := 512
  const MAX_CONSECUTIVE_ERRORS: nat := 5

  // ---- the books: events are known by the order they were emitted in ----

  // The queue holds events `low` to `emitted`. `batches` are the appends that
  // returned, each with the stretch of events it carried; `held` is the batch
  // being appended, and `returned` whether its append has.
  datatype Books = Books(emitted: nat, low: nat, dropped: nat, evicted: set<nat>,
                         batches: seq<(nat, nat)>, held: Option<(nat, nat)>, returned: bool)

  const EMPTY := Books(0, 0, 0, {}, [], None, false)

  datatype Step =
    | Emit
    | Copy        // the queue is copied into a batch
    | Return      // its append returns
    | Discard     // or raises, the batch on disk or not, or is not tried at all
    | Acknowledge

  predicate Enabled(b: Books, step: Step) {
    match step
    case Emit => true
    case Copy => b.held.None?
    case Return => b.held.Some? && !b.returned
    case Discard => b.held.Some? && !b.returned
    case Acknowledge => b.held.Some? && b.returned
  }

  function Next(b: Books, step: Step): Books
    requires Enabled(b, step)
  {
    match step
    case Emit =>
      if b.emitted - b.low == MAX_EVENTS then
        b.(emitted := b.emitted + 1, low := b.low + 1, dropped := b.dropped + 1, evicted := b.evicted + {b.low})
      else b.(emitted := b.emitted + 1)
    case Copy => b.(held := Some((b.low, b.emitted)))
    case Return => b.(returned := true, batches := b.batches + [b.held.value])
    case Discard => b.(held := None)
    case Acknowledge => b.(low := Max(b.low, b.held.value.1), held := None, returned := false)
  }

  predicate In(stretch: (nat, nat), event: int) {
    stretch.0 <= event < stretch.1
  }

  predicate Carried(b: Books, event: int) {
    exists k :: 0 <= k < |b.batches| && In(b.batches[k], event)
  }

  predicate QueueInv(b: Books) {
    && b.low <= b.emitted <= b.low + MAX_EVENTS
    && b.dropped == |b.evicted|
    && (forall e :: e in b.evicted ==> e < b.low)
    && (forall e :: 0 <= e < b.low ==> e in b.evicted || Carried(b, e))
  }

  // How many batches are not waiting to be acknowledged.
  function Done(b: Books): nat {
    if b.returned && b.batches != [] then |b.batches| - 1 else |b.batches|
  }

  predicate BatchInv(b: Books) {
    && (forall j, k :: 0 <= j < k < |b.batches| ==> b.batches[j].1 <= b.batches[k].0)
    && (forall k :: 0 <= k < |b.batches| ==> b.batches[k].0 <= b.batches[k].1)
    && (forall k :: 0 <= k < Done(b) ==> b.batches[k].1 <= b.low)
    && (b.held.Some? ==>
          && b.held.value.0 <= b.low && b.held.value.0 <= b.held.value.1 <= b.emitted
          && (forall k :: 0 <= k < Done(b) ==> b.batches[k].1 <= b.held.value.0))
    && (b.returned ==> b.held.Some? && b.batches != [] && b.batches[|b.batches| - 1] == b.held.value)
  }

  predicate BooksInv(b: Books) {
    QueueInv(b) && BatchInv(b)
  }

  lemma StepKeepsQueue(b: Books, step: Step)
    requires QueueInv(b) && BatchInv(b) && Enabled(b, step)
    ensures QueueInv(Next(b, step))
  {
    var c := Next(b, step);
    CarriedStays(b, step);
    if step.Acknowledge? {
      forall e | b.low <= e < c.low
        ensures Carried(c, e)
      {
        assert In(c.batches[|c.batches| - 1], e);
      }
    }
    hide Carried;
  }

  lemma StepKeepsBatches(b: Books, step: Step)
    requires QueueInv(b) && BatchInv(b) && Enabled(b, step)
    ensures BatchInv(Next(b, step))
  {
    hide Carried;
  }

  lemma CarriedStays(b: Books, step: Step)
    requires Enabled(b, step)
    ensures forall e :: Carried(b, e) ==> Carried(Next(b, step), e)
  {
    forall e | Carried(b, e)
      ensures Carried(Next(b, step), e)
    {
      var k :| 0 <= k < |b.batches| && In(b.batches[k], e);
      assert Next(b, step).batches[k] == b.batches[k];
    }
  }

  lemma StepKeepsBooks(b: Books, step: Step)
    requires BooksInv(b) && Enabled(b, step)
    ensures BooksInv(Next(b, step))
  {
    hide QueueInv, BatchInv, Next;
    StepKeepsQueue(b, step);
    StepKeepsBatches(b, step);
  }

  function NextAll(b: Books, steps: seq<Step>): Option<Books> {
    if steps == [] then Some(b)
    else
      var before := NextAll(b, steps[..|steps| - 1]);
      if before.Some? && Enabled(before.value, steps[|steps| - 1]) then Some(Next(before.value, steps[|steps| - 1]))
          else None
  }

  lemma {:induction false} StepsKeepBooks(b: Books, steps: seq<Step>)
    requires BooksInv(b) && NextAll(b, steps).Some?
    ensures BooksInv(NextAll(b, steps).value)
  {
    hide BooksInv, Next, Enabled;
    if steps != [] {
      StepsKeepBooks(b, steps[..|steps| - 1]);
      StepKeepsBooks(NextAll(b, steps[..|steps| - 1]).value, steps[|steps| - 1]);
    }
  }

  // Whatever the interleaving of emitting, copying, appends that return or
  // raise, and acknowledging: every event ever emitted is in a batch whose
  // append returned, or still queued, or one that `events_dropped` counts;
  // the queue is bounded; and no event is in two batches that returned.
  lemma DeliveredAtLeastOnce(steps: seq<Step>)
    requires NextAll(EMPTY, steps).Some?
    ensures var b := NextAll(EMPTY, steps).value;
            && (forall e :: 0 <= e < b.emitted ==> b.low <= e || Carried(b, e) || e in b.evicted)
            && |b.evicted| == b.dropped && b.emitted - b.low <= MAX_EVENTS
            && (forall j, k, e :: 0 <= j < k < |b.batches| && In(b.batches[j], e) ==> !In(b.batches[k], e))
  {
    assert BooksInv(EMPTY);
    StepsKeepBooks(EMPTY, steps);
  }

  // ---- the sampler ----

  // Two events that carry the same data are still two: what tells them apart
  // is which object they are.
  datatype Event = Event(id: nat, data: Data)

  datatype Role = Controller | WorkerRole | Descendant

  // A process under observation: its pid and creation time, and whose it is.
  datatype Tracked = Tracked(key: (nat, nat), worker: Option<string>, role: Role)

  // What the events tell of the table of tracked processes.
  datatype Told = Observed(key: (nat, nat)) | Evicted(key: (nat, nat)) | NoLongerObserved(key: (nat, nat))

  // What an event carries: news of the table, or any other.
  datatype Data = Process(told: Told) | Other(text: string)

  // What all the events emitted tell of the table.
  ghost function ToldBy(emitted: seq<Data>): seq<Told> {
    if emitted == [] then []
    else
      var last := emitted[|emitted| - 1];
      ToldBy(emitted[..|emitted| - 1]) + (if last.Process? then [last.told] else [])
  }

  lemma OneTold(emitted: seq<Data>, data: Data)
    ensures ToldBy(emitted + [data]) == ToldBy(emitted) + (if data.Process? then [data.told] else [])
  {
    assert (emitted + [data])[..|emitted|] == emitted;
  }

  function Keys(tracked: seq<Tracked>): set<(nat, nat)> {
    set t | t in tracked :: t.key
  }

  // The table as whoever follows the events knows it.
  function Replay(told: seq<Told>): set<(nat, nat)> {
    if told == [] then {}
    else
      var before := Replay(told[..|told| - 1]);
      match told[|told| - 1]
      case Observed(key) => before + {key}
      case Evicted(key) => before - {key}
      case NoLongerObserved(key) => before - {key}
  }

  // Each process once, no more than fit, and exactly those the events say.
  predicate TableInv(tracked: seq<Tracked>, told: seq<Told>) {
    && |tracked| <= MAX_PROCESSES
    && (forall i, j :: 0 <= i < j < |tracked| ==> tracked[i].key != tracked[j].key)
    && Replay(told) == Keys(tracked)
  }

  function Without(tracked: seq<Tracked>, i: nat): (r: seq<Tracked>)
    requires i < |tracked|
    ensures |r| == |tracked| - 1
  {
    tracked[..i] + tracked[i + 1..]
  }

  lemma RowAdded(tracked: seq<Tracked>, told: seq<Told>, row: Tracked)
    requires TableInv(tracked, told) && |tracked| < MAX_PROCESSES && row.key !in Keys(tracked)
    ensures TableInv(tracked + [row], told + [Observed(row.key)])
  {
    assert (told + [Observed(row.key)])[..|told|] == told;
    forall i | 0 <= i < |tracked|
      ensures tracked[i].key in Keys(tracked) && (tracked + [row])[i] == tracked[i]
    {
      assert tracked[i] in tracked;
    }
    var more := tracked + [row];
    forall key
      ensures key in Keys(more) <==> key in Keys(tracked) || key == row.key
    {
      if key in Keys(more) {
        var t :| t in more && t.key == key;
      }
      if key in Keys(tracked) {
        var t :| t in tracked && t.key == key;
        assert t in more;
      }
      assert row in more;
    }
  }

  lemma KeysWithout(tracked: seq<Tracked>, i: nat)
    requires i < |tracked| && forall j, k :: 0 <= j < k < |tracked| ==> tracked[j].key != tracked[k].key
    ensures Keys(Without(tracked, i)) == Keys(tracked) - {tracked[i].key}
  {
    var less := Without(tracked, i);
    forall key
      ensures key in Keys(less) <==> key in Keys(tracked) && key != tracked[i].key
    {
      if key in Keys(less) {
        var j :| 0 <= j < |less| && less[j].key == key;
        var k := if j < i then j else j + 1;
        assert less[j] == tracked[k] && tracked[k] in tracked;
      }
      if key in Keys(tracked) && key != tracked[i].key {
        var k :| 0 <= k < |tracked| && tracked[k].key == key;
        var j := if k < i then k else k - 1;
        assert less[j] == tracked[k] && less[j] in less;
      }
    }
  }

  lemma RowRemoved(tracked: seq<Tracked>, told: seq<Told>, i: nat, told': seq<Told>)
    requires TableInv(tracked, told) && i < |tracked|
    requires told' == told + [Evicted(tracked[i].key)] || told' == told + [NoLongerObserved(tracked[i].key)]
    ensures TableInv(Without(tracked, i), told')
    ensures Keys(Without(tracked, i)) == Keys(tracked) - {tracked[i].key}
  {
    assert told'[..|told|] == told;
    KeysWithout(tracked, i);
    hide Keys;
  }

  lemma RowUpdated(tracked: seq<Tracked>, told: seq<Told>, i: nat, row: Tracked)
    requires TableInv(tracked, told) && i < |tracked| && row.key == tracked[i].key
    ensures TableInv(tracked[i := row], told)
  {
    var t := tracked[i := row];
    forall key
      ensures key in Keys(t) <==> key in Keys(tracked)
    {
      if key in Keys(t) {
        var j :| 0 <= j < |t| && t[j].key == key;
        assert tracked[j] in tracked && tracked[j].key == key;
      }
      if key in Keys(tracked) {
        var j :| 0 <= j < |tracked| && tracked[j].key == key;
        assert t[j] in t && t[j].key == key;
      }
    }
  }

  lemma KeyOf(tracked: seq<Tracked>, i: nat)
    requires i < |tracked|
    ensures tracked[i].key in Keys(tracked)
  {
    assert tracked[i] in tracked;
  }

  lemma StillThere(tracked: seq<Tracked>, i: nat, row: Tracked)
    requires i < |tracked|
    ensures row in tracked[i := row]
    ensures forall t :: t in tracked && t !in tracked[i := row] ==> t == tracked[i]
  {
    assert tracked[i := row][i] == row;
    forall t | t in tracked && t != tracked[i]
      ensures t in tracked[i := row]
    {
      var j :| 0 <= j < |tracked| && tracked[j] == t;
      assert tracked[i := row][j] == t;
    }
  }

  lemma OthersStay(tracked: seq<Tracked>, i: nat)
    requires i < |tracked|
    ensures forall t :: t in tracked && t !in Without(tracked, i) ==> t == tracked[i]
  {
    forall t | t in tracked && t != tracked[i]
      ensures t in Without(tracked, i)
    {
      var j :| 0 <= j < |tracked| && tracked[j] == t;
      assert Without(tracked, i)[if j < i then j else j - 1] == t;
    }
  }

  lemma TableFits(tracked: seq<Tracked>, told: seq<Told>)
    requires TableInv(tracked, told)
    ensures |tracked| <= MAX_PROCESSES
  {
  }

  // How an append ends. A failed one may have reached the disk.
  datatype Outcome = Committed | Failed | FailedButDurable

  predicate Carries(batch: seq<Event>, stretch: (nat, nat)) {
    |batch| == stretch.1 - stretch.0 && forall i :: 0 <= i < |batch| ==> batch[i].id == stretch.0 + i
  }

  // The queue is the end of what was emitted, from the event `low` on.
  ghost predicate Queued(events: seq<Event>, emitted: seq<Data>, low: nat) {
    && |emitted| == low + |events|
    && forall i :: 0 <= i < |events| ==> events[i].id == low + i && events[i].data == emitted[low + i]
  }

  lemma QueueIsShort(b: Books, events: seq<Event>, emitted: seq<Data>)
    requires BooksInv(b) && Queued(events, emitted, b.low) && b.emitted == |emitted|
    ensures |events| == b.emitted - b.low <= MAX_EVENTS
  {
    hide BatchInv;
  }

  lemma QueuedMore(events: seq<Event>, emitted: seq<Data>, low: nat, data: Data)
    requires Queued(events, emitted, low)
    ensures Queued(events + [Event(|emitted|, data)], emitted + [data], low)
    ensures events != [] ==> Queued(events[1..], emitted, low + 1)
  {
  }

  class ResourceSampler {
    var events: seq<Event>
    var made: nat             // event objects made so far
    var eventsDropped: nat
    var stopped: bool
    var errors: nat
    var gaveUp: bool
    var tracked: seq<Tracked>

    ghost var books: Books
    ghost var emitted: seq<Data>  // what every event carried, in the order they were emitted

    ghost predicate Valid()
      reads this
    {
      && BooksInv(books)
      && Queued(events, emitted, books.low)
      && eventsDropped == books.dropped && made == books.emitted == |emitted|
    }

    constructor ()
      ensures Valid() && books == EMPTY && tracked == [] && TableInv(tracked, ToldBy(emitted))
    {
      events, made, eventsDropped, stopped, errors, gaveUp := [], 0, 0, false, 0, false;
      books := EMPTY;
      tracked, emitted := [], [];
    }

    method EmitEvent(data: Data)
      requires Valid()
      modifies this`events, this`made, this`emitted, this`eventsDropped, this`books
      ensures Valid() && books == Next(old(books), Emit)
      ensures |events| <= MAX_EVENTS && events != [] && events[|events| - 1] == Event(old(made), data)
      ensures emitted == old(emitted) + [data]
    {
      hide BooksInv, Queued;
      StepKeepsBooks(books, Emit);
      QueueIsShort(books, events, emitted);
      QueuedMore(events, emitted, books.low, data);
      if |events| == MAX_EVENTS {
        eventsDropped := eventsDropped + 1;
        events := events[1..];
        QueuedMore(events, emitted, books.low + 1, data);
      }
      events := events + [Event(made, data)];
      made := made + 1;
      emitted := emitted + [data];
      books := Next(books, Emit);
    }

    // Any thread may emit at any moment.
    method Others() returns (ghost steps: seq<Step>)
      requires Valid()
      modifies this`events, this`made, this`emitted, this`eventsDropped, this`books
      ensures Valid() && NextAll(old(books), steps) == Some(books)
      ensures books.held == old(books).held && books.returned == old(books).returned
      ensures old(books).emitted <= books.emitted && books.batches == old(books).batches
      ensures ToldBy(emitted) == ToldBy(old(emitted))
    {
      hide BooksInv, NextAll, ToldBy;
      steps := [];
      NoSteps(books);
      var n: nat := *;
      while n > 0
        invariant Valid() && NextAll(old(books), steps) == Some(books)
        invariant books.held == old(books).held && books.returned == old(books).returned
        invariant old(books).emitted <= books.emitted && books.batches == old(books).batches
        invariant ToldBy(emitted) == ToldBy(old(emitted))
      {
        var text: string := *;
        OneMore(old(books), steps, books, Emit);
        OneTold(emitted, Other(text));
        EmitEvent(Other(text));
        steps := steps + [Emit];
        n := n - 1;
      }
    }

    // The copy a batch carries, taken under the lock.
    method Snapshot() returns (batch: seq<Event>)
      requires Valid() && books.held.None?
      modifies this`books
      ensures Valid() && books == Next(old(books), Copy)
      ensures batch == events && Carries(batch, books.held.value)
    {
      StepKeepsBooks(books, Copy);
      hide BooksInv;
      batch := events;
      books := Next(books, Copy);
    }

    // Drop from the queue what the batch carried; by identity, as later events
    // and evictions may have come meanwhile.
    method AcknowledgeBatch(batch: seq<Event>)
      requires Valid() && books.held.Some? && books.returned
      requires Carries(batch, books.held.value)
      modifies this`events, this`books
      ensures Valid() && books == Next(old(books), Acknowledge)
    {
      StepKeepsBooks(books, Acknowledge);
      HeldIsBehind(books);
      hide BooksInv;
      var acknowledged := set e | e in batch :: e.id;
      ghost var b := books;
      assert forall id: nat :: id in acknowledged <==> b.held.value.0 <= id < b.held.value.1 by {
        forall id: nat | b.held.value.0 <= id < b.held.value.1
          ensures id in acknowledged
        {
          assert batch[id - b.held.value.0].id == id;
        }
      }
      var kept: seq<Event> := [];
      ghost var low := Max(b.low, b.held.value.1);
      for i := 0 to |events|
        invariant |kept| == Max(0, b.low + i - low)
        invariant forall k :: 0 <= k < |kept| ==> kept[k].id == low + k && kept[k].data == emitted[low + k]
      {
        if events[i].id !in acknowledged {
          kept := kept + [events[i]];
        }
      }
      events := kept;
      books := Next(books, Acknowledge);
    }

    // One sample, appended and acknowledged if nothing goes wrong; others may
    // emit at any point of it, and the session may end.
    method SampleOnce() returns (ok: bool, ghost steps: seq<Step>)
      requires Valid() && books.held.None? && !books.returned
      modifies this`events, this`made, this`emitted, this`eventsDropped, this`stopped, this`books
      ensures Valid() && NextAll(old(books), steps) == Some(books) && books.held.None? && !books.returned
      // one batch more, and all that was queued at the call is off the queue; or none
      ensures ok && !stopped ==>
                && |books.batches| == |old(books).batches| + 1
                && old(books).emitted <= books.batches[|old(books).batches|].1 <= books.low
      ensures !ok || stopped ==> books.batches == old(books).batches
      ensures ToldBy(emitted) == ToldBy(old(emitted))
    {
      hide BooksInv, NextAll, Carries, ToldBy;
      steps := Others();
      ok := *;
      if !ok {
        return;
      }
      OneMore(old(books), steps, books, Copy);
      var batch := Snapshot();
      steps := steps + [Copy];
      ghost var c := books;
      ghost var more := Others();
      Then(old(books), steps, c, more, books);
      steps := steps + more;
      var ended: bool := *;
      stopped := stopped || ended;
      var outcome: Outcome := *;
      if stopped || !outcome.Committed? {
        OneMore(old(books), steps, books, Discard);
        StepKeepsBooks(books, Discard);
        steps := steps + [Discard];
        books := Next(books, Discard);
        ok := stopped;
        return;
      }
      OneMore(old(books), steps, books, Return);
      StepKeepsBooks(books, Return);
      steps := steps + [Return];
      books := Next(books, Return);
      c := books;
      more := Others();
      Then(old(books), steps, c, more, books);
      OneMore(old(books), steps + more, books, Acknowledge);
      steps := steps + more + [Acknowledge];
      AcknowledgeBatch(batch);
    }

    // Where in the table `key` is.
    method Find(key: (nat, nat)) returns (found: Option<nat>)
      ensures found.Some? ==> found.value < |tracked| && tracked[found.value].key == key
      ensures found.None? ==> key !in Keys(tracked)
    {
      for i := 0 to |tracked|
        invariant forall k :: 0 <= k < i ==> tracked[k].key != key
      {
        if tracked[i].key == key {
          return Some(i);
        }
      }
      return None;
    }

    // The descendant tracked longest.
    method Victim() returns (found: Option<nat>)
      ensures found.Some? ==> found.value < |tracked| && tracked[found.value].role.Descendant?
      ensures forall k :: 0 <= k < (if found.Some? then found.value else |tracked|) ==> !tracked[k].role.Descendant?
    {
      for i := 0 to |tracked|
        invariant forall k :: 0 <= k < i ==> !tracked[k].role.Descendant?
      {
        if tracked[i].role.Descendant? {
          return Some(i);
        }
      }
      return None;
    }

    // Registered workers and the controller outrank descendants: they are
    // refused only where the table is full of their own kind, and never evicted.
    method Track(row: Tracked) returns (added: bool)
      requires Valid() && TableInv(tracked, ToldBy(emitted))
      modifies this`events, this`made, this`emitted, this`eventsDropped, this`books, this`tracked
      ensures Valid() && TableInv(tracked, ToldBy(emitted))
      ensures added ==> row.key !in Keys(old(tracked)) && tracked != [] && tracked[|tracked| - 1] == row
      // one descendant gives way, and only in a full table
      ensures added ==>
                || (tracked == old(tracked) + [row] && emitted == old(emitted) + [Process(Observed(row.key))])
                || (|old(tracked)| == MAX_PROCESSES
                    && exists i: nat :: i < |old(tracked)| && old(tracked)[i].role.Descendant?
                                        && tracked == Without(old(tracked), i) + [row]
                                        && emitted == old(emitted) + [Process(Evicted(old(tracked)[i].key)),
                                                                      Process(Observed(row.key))])
      ensures !added && row.key !in Keys(old(tracked)) ==>
                && tracked == old(tracked) && |tracked| == MAX_PROCESSES && emitted == old(emitted)
                && (row.role.Descendant? || forall t :: t in tracked ==> !t.role.Descendant?)
      ensures row.key in Keys(old(tracked)) ==>
              && !added && emitted == old(emitted)
              && exists i: nat :: i < |old(tracked)| && old(tracked)[i].key == row.key
                  && tracked == old(tracked)[i := row]
      ensures forall t :: t in old(tracked) && t !in tracked ==> t.role.Descendant? || t.key == row.key
    {
      hide BooksInv, TableInv, Keys, Replay, Without, ToldBy;
      var at := Find(row.key);
      if at.Some? {
        RowUpdated(tracked, ToldBy(emitted), at.value, row);
        KeyOf(tracked, at.value);
        StillThere(tracked, at.value, row);
        tracked := tracked[at.value := row];
        return false;
      }
      added := true;
      TableFits(tracked, ToldBy(emitted));
      if |tracked| >= MAX_PROCESSES {
        var victim := Victim();
        if row.role.Descendant? || victim.None? {
          return false;
        }
        var gone := Evicted(tracked[victim.value].key);
        RowRemoved(tracked, ToldBy(emitted), victim.value, ToldBy(emitted) + [gone]);
        OthersStay(tracked, victim.value);
        OneTold(emitted, Process(gone));
        tracked := Without(tracked, victim.value);
        EmitEvent(Process(gone));
      }
      RowAdded(tracked, ToldBy(emitted), row);
      OneTold(emitted, Process(Observed(row.key)));
      tracked := tracked + [row];
      EmitEvent(Process(Observed(row.key)));
    }

    // A process that is gone.
    method Forget(i: nat)
      requires Valid() && TableInv(tracked, ToldBy(emitted)) && i < |tracked|
      modifies this`events, this`made, this`emitted, this`eventsDropped, this`books, this`tracked
      ensures Valid() && TableInv(tracked, ToldBy(emitted))
              && Keys(tracked) == Keys(old(tracked)) - {old(tracked)[i].key}
      ensures tracked == Without(old(tracked), i)
      ensures emitted == old(emitted) + [Process(NoLongerObserved(old(tracked)[i].key))]
    {
      hide BooksInv, TableInv, Keys, Replay, ToldBy;
      var gone := NoLongerObserved(tracked[i].key);
      RowRemoved(tracked, ToldBy(emitted), i, ToldBy(emitted) + [gone]);
      OneTold(emitted, Process(gone));
      EmitEvent(Process(gone));
      tracked := Without(tracked, i);
    }

    // Until stopped, or until five samples in a row have failed. `turned` says
    // of each turn whether it went well.
    method Run(turns: nat) returns (ghost steps: seq<Step>, ghost turned: seq<bool>)
      requires Valid() && books.held.None? && !books.returned && !gaveUp
      modifies this`events, this`made, this`emitted, this`eventsDropped, this`stopped, this`errors, this`gaveUp,
          this`books
      ensures Valid() && NextAll(old(books), steps) == Some(books)
      ensures books.held.None? && !books.returned
      // every turn is a batch recorded or an error counted
      ensures errors == old(errors) + Failures(turned)
      ensures !stopped ==> |turned| == |books.batches| - |old(books).batches| + errors - old(errors)
      // and it gives up on five errors in a row, as soon as there are five, and only then
      ensures gaveUp <==> Streak(turned) >= MAX_CONSECUTIVE_ERRORS
      ensures forall k :: 0 <= k < |turned| ==> Streak(turned[..k]) < MAX_CONSECUTIVE_ERRORS
      ensures !stopped && !gaveUp ==> |turned| == turns
    {
      hide BooksInv, NextAll;
      var consecutive, n := 0, turns;
      steps, turned := [], [];
      NoSteps(books);
      while n > 0 && !stopped
        invariant Valid() && NextAll(old(books), steps) == Some(books) && books.held.None? && !books.returned
        invariant !gaveUp && consecutive == Streak(turned) < MAX_CONSECUTIVE_ERRORS && |turned| == turns - n
        invariant errors == old(errors) + Failures(turned)
        invariant forall k :: 0 <= k < |turned| ==> Streak(turned[..k]) < MAX_CONSECUTIVE_ERRORS
        invariant !stopped ==> |turned| == |books.batches| - |old(books).batches| + errors - old(errors)
      {
        ghost var c := books;
        var ok, more := SampleOnce();
        Then(old(books), steps, c, more, books);
        steps := steps + more;
        OneTurn(turned, ok);
        turned := turned + [ok];
        if ok {
          consecutive := 0;
        } else {
          errors := errors + 1;
          consecutive := consecutive + 1;
          if consecutive >= MAX_CONSECUTIVE_ERRORS {
            gaveUp := true;
            break;
          }
        }
        n := n - 1;
      }
    }
  }

  // How many turns failed, and how many of the last ones in a row.
  function Failures(turned: seq<bool>): nat {
    if turned == [] then 0
    else Failures(turned[..|turned| - 1]) + (if turned[|turned| - 1] then 0 else 1)
  }

  function Streak(turned: seq<bool>): nat {
    if turned == [] || turned[|turned| - 1] then 0 else Streak(turned[..|turned| - 1]) + 1
  }

  lemma OneTurn(turned: seq<bool>, ok: bool)
    ensures var all := turned + [ok];
            && Failures(all) == Failures(turned) + (if ok then 0 else 1)
            && Streak(all) == (if ok then 0 else Streak(turned) + 1)
            && all[..|turned|] == turned
            && forall k :: 0 <= k < |turned| ==> all[..k] == turned[..k]
  {
    assert (turned + [ok])[..|turned|] == turned;
  }

  lemma Then(b: Books, steps: seq<Step>, c: Books, more: seq<Step>, d: Books)
    requires NextAll(b, steps) == Some(c) && NextAll(c, more) == Some(d)
    ensures NextAll(b, steps + more) == Some(d)
  {
    ThenMore(b, steps, c, more);
  }

  lemma HeldIsBehind(b: Books)
    requires BooksInv(b) && b.held.Some?
    ensures b.held.value.0 <= b.low <= b.emitted && b.held.value.1 <= b.emitted
  {
  }

  lemma NoSteps(b: Books)
    ensures NextAll(b, []) == Some(b)
  {
  }

  lemma OneMore(b: Books, steps: seq<Step>, c: Books, step: Step)
    requires NextAll(b, steps) == Some(c) && Enabled(c, step)
    ensures NextAll(b, steps + [step]) == Some(Next(c, step))
  {
    assert (steps + [step])[..|steps|] == steps;
  }

  lemma {:induction false} ThenMore(b: Books, steps: seq<Step>, c: Books, more: seq<Step>)
    requires NextAll(b, steps) == Some(c)
    ensures NextAll(b, steps + more) == NextAll(c, more)
  {
    hide Enabled, Next;
    if more == [] {
      assert steps + more == steps;
    } else {
      ThenMore(b, steps, c, more[..|more| - 1]);
      assert (steps + more)[..|steps + more| - 1] == steps + more[..|more| - 1];
    }
  }
}
