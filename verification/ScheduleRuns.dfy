// Runs of a distributed session as its controller sees them: tests handed to
// workers, run there with any number of attempts each, and the reports of
// those attempts reaching the tracker. Ids are unique and each test belongs to
// one worker.
module ScheduleRuns {
  import opened Basics
  import opened Schedule

  // What a worker was given and has not ended, what it is inside, and how many
  // protocols it has ended.
  datatype Worker = Worker(queue: set<string>, running: Option<string>, ended: nat)

  // `spare` is nobody's yet; `begun` says which worker ran, or runs, a test.
  datatype Run = Run(dist: string, spare: set<string>, workers: map<string, Worker>, begun: map<string, string>,
                     counts: Counts)

  function SchedulerOf(r: Run): Scheduler {
    Scheduler(Some(map w | w in r.workers :: |r.workers[w].queue|), None, Some(true), Some(|r.spare|), None)
  }

  // Where a worker's last test has been counted though its protocol goes on.
  predicate Counted(c: Counts, w: string, k: Worker) {
    k.running.Some? && w in c.lastFinished && c.lastFinished[w] == k.running.value
  }

  datatype Event =
    | HandOut(w: string, ids: set<string>)
    | Steal(source: string, w: string, id: string)
    | Begin(w: string, id: string)        // a protocol's first attempt is logged as starting
    | Rerun(w: string)                    // a later attempt is
    | SetupReport(w: string)
    | TeardownReport(w: string)
    | End(w: string)                      // the scheduler is told the protocol is over

  predicate Enabled(r: Run, e: Event) {
    && e.w in r.workers
    && var k := r.workers[e.w];
       match e
       case HandOut(_, ids) => ids <= r.spare
       case Steal(source, w, id) =>
         && r.dist == "worksteal" && r.spare == {} && source in r.workers
         && |k.queue| < STEAL_MIN_PENDING < |r.workers[source].queue|
         && id in r.workers[source].queue && r.workers[source].running != Some(id)
       case Begin(_, id) => k.running.None? && id in k.queue
       case Rerun(_) => k.running.Some?
       case SetupReport(_) => k.running.Some?
       case TeardownReport(_) => k.running.Some?
       case End(_) => Counted(r.counts, e.w, k)
  }

  // The tracker hears of an attempt without its worker, and writes a record.
  ghost function Logged(r: Run, id: string): Counts {
    var c := AfterStart(r.dist, r.counts, Some(id), None);
    c.(rows := AfterRecord(c, SchedulerOf(r)))
  }

  ghost function After(r: Run, e: Event): Run
    requires Enabled(r, e)
  {
    var k := r.workers[e.w];
    match e
    case HandOut(w, ids) => r.(spare := r.spare - ids, workers := r.workers[w := k.(queue := k.queue + ids)])
    case Steal(source, w, id) =>
      var from := r.workers[source];
      r.(workers := r.workers[source := from.(queue := from.queue - {id})][w := k.(queue := k.queue + {id})])
    case Begin(w, id) =>
      r.(workers := r.workers[w := k.(running := Some(id))], begun := r.begun[id := w], counts := Logged(r, id))
    case Rerun(w) => r.(counts := Logged(r, k.running.value))
    case SetupReport(w) => r.(counts := AfterStart(r.dist, r.counts, k.running, Some(w)))
    case TeardownReport(w) => r.(counts := AfterFinish(r.counts, Some(w), k.running))
    case End(w) =>
      r.(workers := r.workers[w := Worker(k.queue - {k.running.value}, None, k.ended + 1)])
  }

  // The state a sequence of events leads to, where each can happen in turn.
  ghost function AfterAll(r: Run, events: seq<Event>): Option<Run> {
    if events == [] then Some(r)
    else
      var before := AfterAll(r, events[..|events| - 1]);
      if before.Some? && Enabled(before.value, events[|events| - 1]) then
        Some(After(before.value, events[|events| - 1]))
      else None
  }

  // ---- what every run keeps ----

  // One worker's books.
  predicate WorkerInv(begun: map<string, string>, c: Counts, w: string, k: Worker) {
    && w != ""
    && (k.running.Some? ==> k.running.value in k.queue)
    && (forall id :: id in k.queue && id in begun ==> k.running == Some(id))
    && (k.running.Some? ==> k.running.value in begun && begun[k.running.value] == w)
    && (w in c.lastFinished ==> c.lastFinished[w] in begun && begun[c.lastFinished[w]] == w)
    && Get(c.finished, w, 0) == k.ended + (if Counted(c, w, k) then 1 else 0)
    && (w in c.rerunning ==> k.running.Some? && !Counted(c, w, k))
  }

  predicate Apart(r: Run) {
    && (forall v, w :: v in r.workers && w in r.workers && v != w ==> r.workers[v].queue !! r.workers[w].queue)
    && (forall w :: w in r.workers ==> r.workers[w].queue !! r.spare)
    && (forall id :: id in r.spare ==> id !in r.begun)
  }

  predicate Inv(r: Run) {
    && r.dist in ONE_WORKER_PER_TEST
    && (forall w :: w in r.workers ==> WorkerInv(r.begun, r.counts, w, r.workers[w]))
    && (forall w :: w in r.counts.lastFinished ==> w in r.workers)
    && Apart(r)
  }

  // A test begun for the first time is nobody's last; a later attempt's is
  // that of the worker it runs on, if its last attempt has been counted.
  lemma WhoseRerun(r: Run, id: string)
    requires Inv(r)
    ensures var back := TakenBack(r.dist, r.counts, Some(id), None);
            back == if id in r.begun && r.begun[id] in r.counts.lastFinished && r.counts.lastFinished[r.begun[id]] == id
                    then (if Get(r.counts.finished, r.begun[id], 0) == 0 then None else Some(r.begun[id]))
                    else None
  {
    hide Apart;
    var last := r.counts.lastFinished;
    forall w | w in last && last[w] == id
      ensures id in r.begun && r.begun[id] == w
    {
      assert WorkerInv(r.begun, r.counts, w, r.workers[w]);
    }
    if id in r.begun && r.begun[id] in last && last[r.begun[id]] == id {
      assert IsOnly(last, id, r.begun[id]);
      assert WorkerInv(r.begun, r.counts, r.begun[id], r.workers[r.begun[id]]);
    }
  }

  // Whether the tracker's books on `w` are the same in both.
  predicate SameAt(c: Counts, d: Counts, w: string) {
    && Get(c.finished, w, 0) == Get(d.finished, w, 0)
    && (w in c.lastFinished <==> w in d.lastFinished)
    && (w in c.lastFinished && w in d.lastFinished ==> c.lastFinished[w] == d.lastFinished[w])
    && (w in c.rerunning <==> w in d.rerunning)
  }

  lemma SameBooks(begun: map<string, string>, c: Counts, d: Counts, w: string, k: Worker)
    requires WorkerInv(begun, c, w, k) && SameAt(c, d, w)
    ensures WorkerInv(begun, d, w, k)
  {
  }

  // What a start of an attempt on `w` does to the books: the last attempt's
  // finish, if it was counted, is taken back.
  lemma StartTakesBack(r: Run, w: string, worker: Option<string>)
    requires Inv(r) && w in r.workers && r.workers[w].running.Some?
    requires worker == None || worker == Some(w)
    ensures var d := AfterStart(r.dist, r.counts, r.workers[w].running, worker);
            && WorkerInv(r.begun, d, w, r.workers[w]) && !Counted(d, w, r.workers[w])
            && (forall v :: v != w ==> SameAt(r.counts, d, v))
            && d.lastFinished.Keys <= r.counts.lastFinished.Keys
            && (w in d.rerunning <==> w in r.counts.rerunning || Counted(r.counts, w, r.workers[w]))
  {
    hide Apart;
    assert WorkerInv(r.begun, r.counts, w, r.workers[w]);
    WhoseRerun(r, r.workers[w].running.value);
  }

  lemma FirstStartTakesNothing(r: Run, w: string, id: string)
    requires Inv(r) && id !in r.begun
    ensures AfterStart(r.dist, r.counts, Some(id), None) == r.counts
  {
    hide Apart, WorkerInv;
    WhoseRerun(r, id);
  }

  lemma FinishCounts(r: Run, w: string)
    requires Inv(r) && w in r.workers && r.workers[w].running.Some?
    ensures var d := AfterFinish(r.counts, Some(w), r.workers[w].running);
            && WorkerInv(r.begun, d, w, r.workers[w]) && Counted(d, w, r.workers[w])
            && (forall v :: v != w ==> SameAt(r.counts, d, v))
            && d.lastFinished.Keys <= r.counts.lastFinished.Keys + {w}
  {
    hide Apart;
    assert WorkerInv(r.begun, r.counts, w, r.workers[w]);
  }

  // An event that changes the books of one worker and nothing else.
  lemma BooksKeepInv(r: Run, d: Counts, w: string)
    requires Inv(r) && w in r.workers && WorkerInv(r.begun, d, w, r.workers[w])
    requires forall v :: v != w ==> SameAt(r.counts, d, v)
    requires d.lastFinished.Keys <= r.counts.lastFinished.Keys + {w}
    ensures Inv(r.(counts := d))
  {
    hide WorkerInv, SameAt;
    forall v | v in r.workers
      ensures WorkerInv(r.begun, d, v, r.workers[v])
    {
      if v != w {
        SameBooks(r.begun, r.counts, d, v, r.workers[v]);
      }
    }
  }

  lemma BeginKeepsInv(r: Run, w: string, id: string)
    requires Inv(r) && Enabled(r, Begin(w, id))
    ensures Inv(After(r, Begin(w, id)))
    ensures id !in r.begun && After(r, Begin(w, id)).counts.finished == r.counts.finished
  {
    assert WorkerInv(r.begun, r.counts, w, r.workers[w]);
    FirstStartTakesNothing(r, w, id);
    FirstStartKeepsInv(r, w, id, Logged(r, id));
    hide Inv, AfterStart, AfterRecord;
  }

  lemma FirstStartKeepsInv(r: Run, w: string, id: string, d: Counts)
    requires Inv(r) && w in r.workers && r.workers[w].running.None? && id in r.workers[w].queue && id !in r.begun
    requires d == r.counts.(rows := d.rows)
    ensures Inv(r.(workers := r.workers[w := r.workers[w].(running := Some(id))], begun := r.begun[id := w],
            counts := d))
  {
    hide WorkerInv, Apart;
    BegunApart(r, w, id, d);
    forall v | v in r.workers
      ensures WorkerInv(r.begun[id := w], d, v, if v == w then r.workers[w].(running := Some(id)) else r.workers[v])
    {
      BegunKeeps(r.begun, r.counts, d, v, r.workers[v], w, id);
    }
  }

  lemma BegunApart(r: Run, w: string, id: string, d: Counts)
    requires Apart(r) && w in r.workers && id in r.workers[w].queue
    ensures forall v :: v in r.workers && v != w ==> id !in r.workers[v].queue
    ensures Apart(r.(workers := r.workers[w := r.workers[w].(running := Some(id))], begun := r.begun[id := w],
            counts := d))
  {
  }

  // A first attempt of `id` on `w`, in the books of `v`.
  lemma BegunKeeps(begun: map<string, string>, c: Counts, d: Counts, v: string, k: Worker, w: string, id: string)
    requires WorkerInv(begun, c, v, k) && id !in begun && d == c.(rows := d.rows)
    ensures v == w && id in k.queue && k.running.None? ==> WorkerInv(begun[id := w], d, v, k.(running := Some(id)))
    ensures id !in k.queue ==> WorkerInv(begun[id := w], d, v, k)
  {
  }

  lemma EndKeepsInv(r: Run, w: string)
    requires Inv(r) && Enabled(r, End(w))
    ensures Inv(After(r, End(w)))
  {
    EndKeeps(r.begun, r.counts, w, r.workers[w]);
    EndedApart(r, w);
    hide WorkerInv, Apart;
  }

  lemma EndedApart(r: Run, w: string)
    requires Apart(r) && Enabled(r, End(w))
    ensures Apart(After(r, End(w)))
  {
  }

  lemma EndKeeps(begun: map<string, string>, c: Counts, w: string, k: Worker)
    requires WorkerInv(begun, c, w, k) && Counted(c, w, k)
    ensures WorkerInv(begun, c, w, Worker(k.queue - {k.running.value}, None, k.ended + 1))
  {
  }

  // A queue changed by tests nobody has begun.
  lemma QueueChanged(begun: map<string, string>, c: Counts, w: string, k: Worker, queue: set<string>)
    requires WorkerInv(begun, c, w, k)
    requires k.running.Some? ==> k.running.value in queue
    requires forall id :: id in queue && id !in k.queue ==> id !in begun
    ensures WorkerInv(begun, c, w, k.(queue := queue))
  {
  }

  lemma HandOutKeepsInv(r: Run, w: string, ids: set<string>)
    requires Inv(r) && Enabled(r, HandOut(w, ids))
    ensures Inv(After(r, HandOut(w, ids)))
  {
    QueueChanged(r.begun, r.counts, w, r.workers[w], r.workers[w].queue + ids);
    hide WorkerInv;
    assert Apart(After(r, HandOut(w, ids)));
  }

  lemma StealKeepsInv(r: Run, source: string, w: string, id: string)
    requires Inv(r) && Enabled(r, Steal(source, w, id))
    ensures Inv(After(r, Steal(source, w, id)))
  {
    var from := r.workers[source];
    assert WorkerInv(r.begun, r.counts, source, from);
    QueueChanged(r.begun, r.counts, source, from, from.queue - {id});
    QueueChanged(r.begun, r.counts, w, r.workers[w], r.workers[w].queue + {id});
    StolenApart(r, source, w, id);
    hide WorkerInv, Apart;
  }

  lemma StolenApart(r: Run, source: string, w: string, id: string)
    requires Apart(r) && Enabled(r, Steal(source, w, id))
    ensures Apart(After(r, Steal(source, w, id)))
  {
  }

  lemma EventKeepsInv(r: Run, e: Event)
    requires Inv(r) && Enabled(r, e)
    ensures Inv(After(r, e))
  {
    hide Apart, WorkerInv, SameAt, AfterStart, AfterFinish, Counted;
    match e {
      case HandOut(w, ids) => HandOutKeepsInv(r, w, ids);
      case Steal(source, w, id) => StealKeepsInv(r, source, w, id);
      case Begin(w, id) => BeginKeepsInv(r, w, id);
      case Rerun(w) =>
        StartTakesBack(r, w, None);
        LoggingKeeps(r, w);
        BooksKeepInv(r, Logged(r, r.workers[w].running.value), w);
      case SetupReport(w) =>
        StartTakesBack(r, w, Some(w));
        BooksKeepInv(r, AfterStart(r.dist, r.counts, r.workers[w].running, Some(w)), w);
      case TeardownReport(w) =>
        FinishCounts(r, w);
        BooksKeepInv(r, AfterFinish(r.counts, Some(w), r.workers[w].running), w);
      case End(w) => EndKeepsInv(r, w);
    }
  }

  // Writing a record changes no book.
  lemma LoggingKeeps(r: Run, w: string)
    requires Inv(r) && w in r.workers && r.workers[w].running.Some?
    ensures var d := Logged(r, r.workers[w].running.value);
            && WorkerInv(r.begun, d, w, r.workers[w]) && !Counted(d, w, r.workers[w])
            && (forall v :: v != w ==> SameAt(r.counts, d, v))
            && d.lastFinished.Keys <= r.counts.lastFinished.Keys
            && (w in d.rerunning <==> w in r.counts.rerunning || Counted(r.counts, w, r.workers[w]))
  {
    hide Apart, AfterStart, AfterRecord;
    StartTakesBack(r, w, None);
    var c := AfterStart(r.dist, r.counts, r.workers[w].running, None);
    var d := Logged(r, r.workers[w].running.value);
    SameBooks(r.begun, c, d, w, r.workers[w]);
    forall v | v != w
      ensures SameAt(r.counts, d, v)
    {
      assert SameAt(r.counts, c, v);
    }
  }

  // Where every run starts: queues empty, nothing counted.
  predicate Fresh(r: Run) {
    && r.dist in ONE_WORKER_PER_TEST && r.begun == map[] && r.counts == Counts(map[], map[], {}, map[])
    && (forall w :: w in r.workers ==> w != "" && r.workers[w] == Worker({}, None, 0))
  }

  lemma {:induction false} RunKeepsInv(r: Run, events: seq<Event>)
    requires Inv(r) && AfterAll(r, events).Some?
    ensures Inv(AfterAll(r, events).value)
  {
    hide Inv, After, Enabled;
    if events != [] {
      RunKeepsInv(r, events[..|events| - 1]);
      EventKeepsInv(AfterAll(r, events[..|events| - 1]).value, events[|events| - 1]);
    }
  }

  // ---- the totals ----

  // What a worker's total should be: the protocols it ended, and what it owes.
  function Share(k: Worker): nat {
    k.ended + |k.queue|
  }

  // In any run of any number of attempts, the record written as a worker's
  // attempt is logged has that worker's total exactly, and every other
  // worker's exactly or one more; what it owes is what it owes.
  lemma TotalsExact(r: Run, events: seq<Event>, e: Event, v: string)
    requires Fresh(r) && AfterAll(r, events).Some? && Enabled(AfterAll(r, events).value, e)
    requires (e.Begin? || e.Rerun?) && v in r.workers
    ensures var t := After(AfterAll(r, events).value, e);
            && v in t.workers && v in t.counts.rows && e.w in t.counts.rows
            && t.counts.rows[e.w].allotted == Share(t.workers[e.w])
            && Share(t.workers[v]) <= t.counts.rows[v].allotted <= Share(t.workers[v]) + 1
            && t.counts.rows[v].pending == |t.workers[v].queue|
            && t.counts.rows[v].completed + t.counts.rows[v].pending == t.counts.rows[v].allotted
            && (t.counts.rows[v].rerunning ==> t.workers[v].running.Some?)
  {
    var s := AfterAll(r, events).value;
    RunKeepsInv(r, events);
    SameWorkers(r, events);
    EventKeepsInv(s, e);
    RecordIsExact(s, e, v);
  }

  // What a record says of a worker the scheduler still knows.
  lemma RowRecorded(r: Run, c: Counts, v: string)
    requires v in r.workers
    ensures var rows := AfterRecord(c, SchedulerOf(r));
            var done := Get(c.finished, v, 0);
            v in rows && rows[v] == Row(done + |r.workers[v].queue|, done, |r.workers[v].queue|, v in c.rerunning)
  {
  }

  lemma LoggedRows(s: Run, e: Event, v: string)
    requires Enabled(s, e) && (e.Begin? || e.Rerun?) && v in s.workers
    ensures var t := After(s, e);
            var done := Get(t.counts.finished, v, 0);
            && v in t.workers && t.workers[v].queue == s.workers[v].queue && v in t.counts.rows
            && t.counts.rows[v] == Row(done + |t.workers[v].queue|, done, |t.workers[v].queue|, v in t.counts.rerunning)
  {
    hide AfterStart, AfterRecord, SchedulerOf;
    var id := if e.Begin? then e.id else s.workers[e.w].running.value;
    RowRecorded(s, AfterStart(s.dist, s.counts, Some(id), None), v);
  }

  lemma RecordIsExact(s: Run, e: Event, v: string)
    requires Inv(s) && Enabled(s, e) && (e.Begin? || e.Rerun?) && v in s.workers
    ensures var t := After(s, e);
            && v in t.workers && v in t.counts.rows && e.w in t.counts.rows
            && t.counts.rows[e.w].allotted == Share(t.workers[e.w])
            && Share(t.workers[v]) <= t.counts.rows[v].allotted <= Share(t.workers[v]) + 1
            && t.counts.rows[v].pending == |t.workers[v].queue|
            && t.counts.rows[v].completed + t.counts.rows[v].pending == t.counts.rows[v].allotted
            && (t.counts.rows[v].rerunning ==> t.workers[v].running.Some?)
  {
    EventKeepsInv(s, e);
    LoggedRows(s, e, v);
    LoggedRows(s, e, e.w);
    AtItsStart(s, e);
    var t := After(s, e);
    BooksSay(t, v);
    BooksSay(t, e.w);
    hide Inv, After, Counted;
  }

  lemma BooksSay(t: Run, v: string)
    requires Inv(t) && v in t.workers
    ensures Get(t.counts.finished, v, 0) == t.workers[v].ended + (if Counted(t.counts, v, t.workers[v]) then 1 else 0)
    ensures v in t.counts.rerunning ==> t.workers[v].running.Some?
  {
    hide Apart;
    assert WorkerInv(t.begun, t.counts, v, t.workers[v]);
  }

  // A worker whose attempt has just been logged has no finish counted for it.
  lemma AtItsStart(s: Run, e: Event)
    requires Inv(s) && Enabled(s, e) && (e.Begin? || e.Rerun?)
    ensures !Counted(After(s, e).counts, e.w, After(s, e).workers[e.w])
  {
    hide Apart, AfterStart, AfterRecord;
    if e.Begin? {
      BeginKeepsInv(s, e.w, e.id);
      FirstStartTakesNothing(s, e.w, e.id);
      WhoseRerun(s, e.id);
    } else {
      LoggingKeeps(s, e.w);
    }
  }

  lemma {:induction false} SameWorkers(r: Run, events: seq<Event>)
    requires AfterAll(r, events).Some?
    ensures AfterAll(r, events).value.workers.Keys == r.workers.Keys && AfterAll(r, events).value.dist == r.dist
  {
    if events != [] {
      SameWorkers(r, events[..|events| - 1]);
    }
  }

  // At any other instant of any run a total is exact or one more, and never
  // less than what the worker has been through.
  lemma AtAnyInstant(r: Run, events: seq<Event>, v: string)
    requires Fresh(r) && AfterAll(r, events).Some? && v in r.workers
    ensures var t := AfterAll(r, events).value;
            var rows := AfterRecord(t.counts, SchedulerOf(t));
            && v in t.workers && v in rows
            && Share(t.workers[v]) <= rows[v].allotted <= Share(t.workers[v]) + 1
            && (Counted(t.counts, v, t.workers[v]) <==> rows[v].allotted == Share(t.workers[v]) + 1)
            && rows[v].pending == |t.workers[v].queue|
            && (rows[v].rerunning <==> TornBefore(events, v) && !Counted(t.counts, v, t.workers[v]))
  {
    hide Inv, Fresh, After, Enabled, AfterRecord, SchedulerOf, Counted, TornBefore, Share;
    StartsRight(r);
    RunKeepsInv(r, events);
    SameWorkers(r, events);
    AnyInstant(AfterAll(r, events).value, v);
    RerunningIff(r, events, v);
  }

  // Whether an attempt of the test `v` is inside has already been torn down.
  predicate TornBefore(events: seq<Event>, v: string) {
    events != [] &&
    match events[|events| - 1]
    case TeardownReport(w) => w == v || TornBefore(events[..|events| - 1], v)
    case Begin(w, _) => w != v && TornBefore(events[..|events| - 1], v)
    case End(w) => w != v && TornBefore(events[..|events| - 1], v)
    case _ => TornBefore(events[..|events| - 1], v)
  }

  // A worker is marked as rerunning exactly while it is inside a test of which
  // it has been through an attempt before, and not between two of its attempts.
  lemma {:induction false} RerunningIff(r: Run, events: seq<Event>, v: string)
    requires Fresh(r) && AfterAll(r, events).Some? && v in r.workers
    ensures var t := AfterAll(r, events).value;
            && v in t.workers
            && (v in t.counts.rerunning <==> TornBefore(events, v) && !Counted(t.counts, v, t.workers[v]))
            && (Counted(t.counts, v, t.workers[v]) ==> TornBefore(events, v))
            && (TornBefore(events, v) ==> t.workers[v].running.Some?)
    decreases |events|
  {
    hide Inv, After, Enabled, Counted;
    if events == [] {
      NothingCounted(r, v);
    } else {
      var before, e := events[..|events| - 1], events[|events| - 1];
      RerunningIff(r, before, v);
      StartsRight(r);
      RunKeepsInv(r, before);
      MarksFollow(AfterAll(r, before).value, e, v);
    }
  }

  lemma NothingCounted(r: Run, v: string)
    requires Fresh(r) && v in r.workers
    ensures v !in r.counts.rerunning && !Counted(r.counts, v, r.workers[v])
  {
  }

  // What one event does to the mark of `v` and to whether its test is counted.
  predicate Marks(s: Run, e: Event, t: Run, v: string) {
    && v in s.workers && v in t.workers
    && var was, now := Counted(s.counts, v, s.workers[v]), Counted(t.counts, v, t.workers[v]);
       if e.w != v || e.HandOut? || e.Steal? then
         && now == was && (v in t.counts.rerunning <==> v in s.counts.rerunning)
         && t.workers[v].running == s.workers[v].running
       else match e
         case TeardownReport(_) => now && v !in t.counts.rerunning && t.workers[v].running.Some?
         case Begin(_, _) => !now && v !in t.counts.rerunning
         case End(_) => !now && v !in t.counts.rerunning
         case _ =>
           !now && (v in t.counts.rerunning <==> v in s.counts.rerunning || was) && t.workers[v].running.Some?
  }

  lemma MarksFollow(s: Run, e: Event, v: string)
    requires Inv(s) && Enabled(s, e) && v in s.workers
    ensures Marks(s, e, After(s, e), v)
  {
    hide Inv, AfterStart, AfterFinish, AfterRecord, Marks, Counted, SameAt, Enabled, WorkerInv;
    match e {
      case HandOut(_, _) => QueuesMark(s, e, v);
      case Steal(_, _, _) => QueuesMark(s, e, v);
      case Begin(_, _) => BeginningMarks(s, e, v);
      case Rerun(w) => RerunMarks(s, e, v);
      case SetupReport(w) => SetupMarks(s, e, v);
      case TeardownReport(w) => FinishMarks(s, e, v);
      case End(_) => EndMarks(s, e, v);
    }
  }

  lemma QueuesMark(s: Run, e: Event, v: string)
    requires Enabled(s, e) && (e.HandOut? || e.Steal?) && v in s.workers
    ensures Marks(s, e, After(s, e), v)
  {
  }

  lemma BeginningMarks(s: Run, e: Event, v: string)
    requires Inv(s) && Enabled(s, e) && e.Begin? && v in s.workers
    ensures Marks(s, e, After(s, e), v)
  {
    FirstBegins(s, e.w, e.id);
    FirstStartTakesNothing(s, e.w, e.id);
    NotItsLast(s, e, v);
    MarkedOnlyInside(s, v);
    hide Inv, AfterStart, AfterRecord;
  }

  lemma RerunMarks(s: Run, e: Event, v: string)
    requires Inv(s) && Enabled(s, e) && e.Rerun? && v in s.workers
    ensures Marks(s, e, After(s, e), v)
  {
    LoggingKeeps(s, e.w);
    AttemptMarks(s, e, Logged(s, s.workers[e.w].running.value), v);
    hide Inv, AfterStart, AfterRecord, Marks, SameAt, Counted, WorkerInv;
  }

  lemma SetupMarks(s: Run, e: Event, v: string)
    requires Inv(s) && Enabled(s, e) && e.SetupReport? && v in s.workers
    ensures Marks(s, e, After(s, e), v)
  {
    StartTakesBack(s, e.w, Some(e.w));
    AttemptMarks(s, e, AfterStart(s.dist, s.counts, s.workers[e.w].running, Some(e.w)), v);
    hide Inv, AfterStart, AfterRecord, Marks, SameAt, Counted, WorkerInv;
  }

  lemma FinishMarks(s: Run, e: Event, v: string)
    requires Inv(s) && Enabled(s, e) && e.TeardownReport? && v in s.workers
    ensures Marks(s, e, After(s, e), v)
  {
    FinishCounts(s, e.w);
    MarkedOnlyInside(s, e.w);
    FinishUnmarks(s.counts, e.w, s.workers[e.w].running);
    assert v != e.w ==> SameAt(s.counts, After(s, e).counts, v);
    hide Inv, AfterFinish, WorkerInv;
  }

  lemma EndMarks(s: Run, e: Event, v: string)
    requires Inv(s) && Enabled(s, e) && e.End? && v in s.workers
    ensures Marks(s, e, After(s, e), v)
  {
    MarkedOnlyInside(s, v);
    hide Inv;
  }

  lemma FirstBegins(s: Run, w: string, id: string)
    requires Inv(s) && Enabled(s, Begin(w, id))
    ensures id !in s.begun
  {
    assert WorkerInv(s.begun, s.counts, w, s.workers[w]);
  }

  lemma AttemptMarks(s: Run, e: Event, d: Counts, v: string)
    requires v in s.workers && e.w in s.workers && (e.Rerun? || e.SetupReport?) && s.workers[e.w].running.Some?
    requires !Counted(d, e.w, s.workers[e.w]) && (forall u :: u != e.w ==> SameAt(s.counts, d, u))
    requires e.w in d.rerunning <==> e.w in s.counts.rerunning || Counted(s.counts, e.w, s.workers[e.w])
    ensures Marks(s, e, s.(counts := d), v)
  {
    assert v != e.w ==> SameAt(s.counts, d, v);
  }

  lemma MarkedOnlyInside(s: Run, v: string)
    requires Inv(s) && v in s.workers
    ensures v != "" && (v in s.counts.rerunning ==> s.workers[v].running.Some? && !Counted(s.counts, v, s.workers[v]))
  {
    hide Apart;
    assert WorkerInv(s.begun, s.counts, v, s.workers[v]);
  }

  lemma FinishUnmarks(c: Counts, w: string, nodeid: Option<string>)
    requires w != ""
    ensures w !in AfterFinish(c, Some(w), nodeid).rerunning
  {
  }

  // A test begun for the first time is not the one last counted.
  lemma NotItsLast(s: Run, e: Event, v: string)
    requires Inv(s) && Enabled(s, e) && e.Begin? && v in s.workers
    ensures !(v in s.counts.lastFinished && s.counts.lastFinished[v] == e.id)
  {
    assert WorkerInv(s.begun, s.counts, v, s.workers[v]);
    assert WorkerInv(s.begun, s.counts, e.w, s.workers[e.w]);
  }

  // The loadscope family says how much it gave each worker and not what is
  // outstanding; there a total is exact at every instant.
  function GivingOf(r: Run): Scheduler {
    Scheduler(None, Some(map w | w in r.workers :: Share(r.workers[w])), Some(true), Some(|r.spare|), None)
  }

  lemma GivenIsExact(r: Run, events: seq<Event>, v: string)
    requires Fresh(r) && AfterAll(r, events).Some? && v in r.workers
    ensures var t := AfterAll(r, events).value;
            var rows := AfterRecord(t.counts, GivingOf(t));
            && v in t.workers && v in rows && rows[v].allotted == Share(t.workers[v])
            && rows[v].completed + rows[v].pending == rows[v].allotted
            && t.workers[v].ended <= rows[v].completed <= t.workers[v].ended + 1
  {
    hide Inv, Fresh, After, Enabled, AfterRecord;
    StartsRight(r);
    RunKeepsInv(r, events);
    SameWorkers(r, events);
    GivenRow(AfterAll(r, events).value, v);
  }

  lemma GivenRow(t: Run, v: string)
    requires Inv(t) && v in t.workers
    ensures var rows := AfterRecord(t.counts, GivingOf(t));
            && v in rows && rows[v].allotted == Share(t.workers[v])
            && rows[v].completed + rows[v].pending == rows[v].allotted
            && t.workers[v].ended <= rows[v].completed <= t.workers[v].ended + 1
  {
    BooksSay(t, v);
    hide Apart;
    assert WorkerInv(t.begun, t.counts, v, t.workers[v]);
    if Counted(t.counts, v, t.workers[v]) {
      assert t.workers[v].queue != {};
    }
  }

  lemma AnyInstant(t: Run, v: string)
    requires Inv(t) && v in t.workers
    ensures var rows := AfterRecord(t.counts, SchedulerOf(t));
            && v in rows
            && Share(t.workers[v]) <= rows[v].allotted <= Share(t.workers[v]) + 1
            && (Counted(t.counts, v, t.workers[v]) <==> rows[v].allotted == Share(t.workers[v]) + 1)
            && rows[v].pending == |t.workers[v].queue|
            && (rows[v].rerunning <==> v in t.counts.rerunning)
  {
    BooksSay(t, v);
    RowRecorded(t, t.counts, v);
    hide Inv, AfterRecord, SchedulerOf;
  }

  // The row of a worker the scheduler has let go of stays as it was.
  lemma KeptRow(c: Counts, s: Scheduler, w: string)
    requires w in c.rows && w !in Said(s)
    ensures w in AfterRecord(c, s) && AfterRecord(c, s)[w] == c.rows[w]
  {
  }

  // ---- no test is lost or handed out twice ----

  function Total(workers: map<string, Worker>, names: seq<string>): nat
    requires forall w :: w in names ==> w in workers
  {
    if names == [] then 0 else Total(workers, names[..|names| - 1]) + Share(workers[names[|names| - 1]])
  }

  ghost predicate Covers(names: seq<string>, workers: map<string, Worker>) {
    forall w :: w in names <==> w in workers
  }

  predicate Distinct(names: seq<string>) {
    forall i, j :: 0 <= i < j < |names| ==> names[i] != names[j]
  }

  lemma {:induction false} TotalUpdated(workers: map<string, Worker>, names: seq<string>, w: string, k: Worker)
    requires Distinct(names) && (forall v :: v in names ==> v in workers) && w in workers
    ensures Total(workers[w := k], names) ==
            Total(workers, names) + (if w in names then Share(k) - Share(workers[w]) else 0)
  {
    if names != [] {
      var v := names[|names| - 1];
      TotalUpdated(workers, names[..|names| - 1], w, k);
      assert v !in names[..|names| - 1];
      assert w in names <==> w == v || w in names[..|names| - 1];
    }
  }

  // The workers with only the source of a steal brought up to date.
  ghost function Robbed(r: Run, e: Event): map<string, Worker>
    requires Enabled(r, e)
  {
    if e.Steal? then r.workers[e.source := r.workers[e.source].(queue := r.workers[e.source].queue - {e.id})]
        else r.workers
  }

  lemma WorkersAfter(r: Run, e: Event)
    requires Enabled(r, e)
    ensures var t := After(r, e);
            && e.w in t.workers && t.workers == Robbed(r, e)[e.w := t.workers[e.w]]
            && |t.spare| == |r.spare| - (if e.HandOut? then |e.ids| else 0)
            && (e.Steal? ==> e.source in t.workers && e.source != e.w
                             && t.workers[e.source] ==
                                 r.workers[e.source].(queue := r.workers[e.source].queue - {e.id}))
  {
    hide AfterStart, AfterFinish, AfterRecord;
    if e.HandOut? {
      assert |r.spare - e.ids| == |r.spare| - |e.ids|;
    }
  }

  lemma EventConserves(r: Run, e: Event, names: seq<string>)
    requires Inv(r) && Enabled(r, e) && Distinct(names) && Covers(names, r.workers)
    ensures var t := After(r, e);
            Covers(names, t.workers) && |t.spare| + Total(t.workers, names) == |r.spare| + Total(r.workers, names)
  {
    WorkersAfter(r, e);
    ShareChange(r, e);
    var t := After(r, e);
    var middle := Robbed(r, e);
    if e.Steal? {
      TotalUpdated(r.workers, names, e.source, t.workers[e.source]);
    }
    assert Covers(names, middle) && (e.w in names) && middle[e.w] == r.workers[e.w];
    Reaches(middle, names, e.w, t.workers[e.w], r.workers, t.workers);
  }

  lemma Reaches(middle: map<string, Worker>, names: seq<string>, w: string, k: Worker, before: map<string, Worker>,
                after: map<string, Worker>)
    requires Distinct(names) && Covers(names, middle) && Covers(names, before)
    requires w in middle && w in before && middle[w] == before[w]
    requires after == middle[w := k]
    ensures Covers(names, after) && Total(after, names) == Total(middle, names) + Share(k) - Share(before[w])
  {
    TotalUpdated(middle, names, w, k);
  }

  lemma ShareChange(r: Run, e: Event)
    requires Inv(r) && Enabled(r, e)
    ensures var t := After(r, e);
            Share(t.workers[e.w]) ==
                Share(r.workers[e.w]) + (match e case HandOut(_, ids) => |ids| case Steal(_, _, _) => 1 case _ => 0)
    ensures e.Steal? ==> Share(After(r, e).workers[e.source]) == Share(r.workers[e.source]) - 1
  {
    hide AfterStart, AfterFinish, AfterRecord;
    var k := r.workers[e.w];
    assert WorkerInv(r.begun, r.counts, e.w, k);
    if e.HandOut? {
      assert |k.queue + e.ids| == |k.queue| + |e.ids|;
    }
  }

  // Whatever the run, what is nobody's yet, owed and ended adds up to the suite.
  lemma {:induction false} SuiteConserved(r: Run, events: seq<Event>, names: seq<string>)
    requires Fresh(r) && AfterAll(r, events).Some? && Distinct(names) && Covers(names, r.workers)
    ensures var t := AfterAll(r, events).value;
            Covers(names, t.workers) && |t.spare| + Total(t.workers, names) == |r.spare|
  {
    hide After, Enabled, Inv;
    if events == [] {
      NothingYet(r, names);
    } else {
      SuiteConserved(r, events[..|events| - 1], names);
      StartsRight(r);
      RunKeepsInv(r, events[..|events| - 1]);
      EventConserves(AfterAll(r, events[..|events| - 1]).value, events[|events| - 1], names);
    }
  }

  lemma StartsRight(r: Run)
    requires Fresh(r)
    ensures Inv(r)
  {
  }

  lemma {:induction false} NothingYet(r: Run, names: seq<string>)
    requires Fresh(r) && forall w :: w in names ==> w in r.workers
    ensures Total(r.workers, names) == 0
  {
    if names != [] {
      NothingYet(r, names[..|names| - 1]);
    }
  }

  // ---- when a settled total is final ----

  lemma {:induction false} AfterConcat(r: Run, a: seq<Event>, b: seq<Event>)
    requires AfterAll(r, a).Some?
    ensures AfterAll(r, a + b) == AfterAll(AfterAll(r, a).value, b)
  {
    hide After, Enabled;
    if b == [] {
      assert a + b == a;
    } else {
      AfterConcat(r, a, b[..|b| - 1]);
      assert (a + b)[..|a + b| - 1] == a + b[..|b| - 1];
    }
  }

  // No worker's total changes again, whatever happens.
  ghost predicate TotalsAreFinal(r: Run) {
    forall events: seq<Event> :: AfterAll(r, events).Some? ==> SameShares(r, AfterAll(r, events).value)
  }

  predicate SameShares(r: Run, t: Run) {
    && t.workers.Keys == r.workers.Keys
    && forall w :: w in r.workers ==> w in t.workers && Share(t.workers[w]) == Share(r.workers[w])
  }

  // Nothing left to hand out, and no way to a steal: not the mode, no queue
  // worth taking from, or nobody to give it to.
  predicate NothingToMove(r: Run) {
    r.spare == {} &&
    (|| r.dist != "worksteal"
     || (forall w :: w in r.workers ==> |r.workers[w].queue| <= STEAL_MIN_PENDING)
     || |r.workers| <= 1)
  }

  lemma StealTakesTwo(r: Run, e: Event)
    requires Enabled(r, e) && e.Steal?
    ensures |r.workers| >= 2 && r.dist == "worksteal" && |r.workers[e.source].queue| > STEAL_MIN_PENDING
  {
    assert |r.workers| == |r.workers.Keys|;
    assert |{e.source, e.w}| == 2;
    SubsetSize({e.source, e.w}, r.workers.Keys);
  }

  lemma SmallStays(r: Run, e: Event)
    requires Inv(r) && Enabled(r, e) && NothingToMove(r)
    ensures NothingToMove(After(r, e)) && SameShares(r, After(r, e))
  {
    hide WorkerInv, Apart, AfterStart, AfterFinish, AfterRecord, Share, SchedulerOf, Counted;
    ShareChange(r, e);
    WorkersAfter(r, e);
    if e.Steal? {
      StealTakesTwo(r, e);
    }
    var t := After(r, e);
    assert t.workers.Keys == r.workers.Keys;
    assert |t.workers| == |t.workers.Keys| == |r.workers|;
  }

  lemma {:induction false} NothingMoves(r: Run, events: seq<Event>)
    requires Inv(r) && NothingToMove(r) && AfterAll(r, events).Some?
    ensures var t := AfterAll(r, events).value; Inv(t) && NothingToMove(t) && SameShares(r, t)
  {
    hide Inv, NothingToMove, After, Enabled, Share;
    if events != [] {
      NothingMoves(r, events[..|events| - 1]);
      var t := AfterAll(r, events[..|events| - 1]).value;
      EventKeepsInv(t, events[|events| - 1]);
      SmallStays(t, events[|events| - 1]);
    }
  }

  lemma AfterOne(r: Run, events: seq<Event>, s: Run, e: Event)
    requires AfterAll(r, events) == Some(s) && Enabled(s, e)
    ensures AfterAll(r, events + [e]) == Some(After(s, e))
  {
    hide After, Enabled;
    assert (events + [e])[..|events|] == events;
  }

  lemma BeginsOne(r: Run, w: string) returns (e: Event)
    requires Inv(r) && w in r.workers && r.workers[w].queue != {} && r.workers[w].running.None?
    ensures Enabled(r, e)
    ensures var s := After(r, e);
            Inv(s) && OnlyDrained(r, s, w) && s.workers[w].running.Some? && s.workers[w].queue == r.workers[w].queue
  {
    hide Inv, AfterStart, AfterRecord;
    var id :| id in r.workers[w].queue;
    e := Begin(w, id);
    EventKeepsInv(r, e);
    ShareChange(r, e);
  }

  lemma TearsDown(r: Run, w: string) returns (e: Event)
    requires Inv(r) && w in r.workers && r.workers[w].running.Some?
    ensures Enabled(r, e)
    ensures var s := After(r, e);
            Inv(s) && OnlyDrained(r, s, w) && s.workers == r.workers && Counted(s.counts, w, s.workers[w])
  {
    hide Apart, WorkerInv, SameAt, AfterFinish;
    e := TeardownReport(w);
    EventKeepsInv(r, e);
    FinishCounts(r, w);
  }

  lemma Ends(r: Run, w: string) returns (e: Event)
    requires Inv(r) && w in r.workers && Counted(r.counts, w, r.workers[w])
    ensures Enabled(r, e)
    ensures var s := After(r, e); Inv(s) && OnlyDrained(r, s, w) && |s.workers[w].queue| == |r.workers[w].queue| - 1
  {
    e := End(w);
    EventKeepsInv(r, e);
    ShareChange(r, e);
    assert WorkerInv(r.begun, r.counts, w, r.workers[w]);
  }

  // A worker runs one test of its queue to its end, and nothing else happens.
  lemma OneTest(r: Run, w: string) returns (events: seq<Event>)
    requires Inv(r) && w in r.workers && r.workers[w].queue != {}
    ensures AfterAll(r, events).Some?
    ensures var t := AfterAll(r, events).value;
            Inv(t) && OnlyDrained(r, t, w) && |t.workers[w].queue| == |r.workers[w].queue| - 1
  {
    hide Inv, After, Enabled, Counted;
    var s, e := r, End(w);
    events := [];
    if s.workers[w].running.None? {
      e := BeginsOne(s, w);
      AfterOne(r, events, s, e);
      s, events := After(s, e), events + [e];
    }
    e := TearsDown(s, w);
    AfterOne(r, events, s, e);
    s, events := After(s, e), events + [e];
    e := Ends(s, w);
    AfterOne(r, events, s, e);
    s, events := After(s, e), events + [e];
  }

  // Only `w` has moved on, and its total stays.
  predicate OnlyDrained(r: Run, t: Run, w: string) {
    && t.dist == r.dist && t.spare == r.spare && t.workers.Keys == r.workers.Keys
    && (w in r.workers && w in t.workers ==> Share(t.workers[w]) == Share(r.workers[w]))
    && forall v :: v in r.workers && v != w ==> v in t.workers && t.workers[v] == r.workers[v]
  }

  lemma {:induction false} Drained(r: Run, w: string) returns (events: seq<Event>)
    requires Inv(r) && w in r.workers && r.workers[w].queue != {}
    ensures AfterAll(r, events).Some?
    ensures var t := AfterAll(r, events).value; Inv(t) && OnlyDrained(r, t, w) && |t.workers[w].queue| == 1
    decreases |r.workers[w].queue|
  {
    hide Inv, After, Enabled;
    if |r.workers[w].queue| == 1 {
      return [];
    }
    var first := OneTest(r, w);
    var t := AfterAll(r, first).value;
    var rest := Drained(t, w);
    AfterConcat(r, first, rest);
    events := first + rest;
  }

  // A worker with work worth taking and another beside it: the totals still move.
  lemma StealStillComes(r: Run, a: string, b: string)
    requires Inv(r) && r.dist == "worksteal" && r.spare == {} && a in r.workers && b in r.workers && a != b
    requires |r.workers[a].queue| > STEAL_MIN_PENDING && |r.workers[b].queue| >= STEAL_MIN_PENDING
    ensures !TotalsAreFinal(r)
  {
    hide Inv, After, Share;
    var events := Drained(r, b);
    var t := AfterAll(r, events).value;
    var id := NotRunning(t.workers[a]);
    var e := Steal(a, b, id);
    ShareChange(t, e);
    AfterOne(r, events, t, e);
    var u := AfterAll(r, events + [e]);
    ShareOf(r, t, a);
    assert !SameShares(r, u.value);
  }

  lemma ShareOf(r: Run, t: Run, a: string)
    requires a in r.workers && a in t.workers && r.workers[a] == t.workers[a]
    ensures Share(r.workers[a]) == Share(t.workers[a])
  {
  }

  lemma NotRunning(k: Worker) returns (id: string)
    requires |k.queue| > STEAL_MIN_PENDING
    ensures id in k.queue && k.running != Some(id)
  {
    var x :| x in k.queue;
    id := x;
    if k.running == Some(x) {
      assert |k.queue - {x}| == |k.queue| - 1;
      assert k.queue - {x} != {};
      var y :| y in k.queue - {x};
      id := y;
    }
  }

  // `settled` is not always the last word. Where it is, and only there, the
  // record says so: not worksteal, or no queue worth taking from, or one worker.
  lemma SettledIsFinalIff(r: Run)
    requires Inv(r) && Settled(r.dist, SchedulerOf(r), Some(|r.spare|)) == Some(true)
    ensures TotalsAreFinal(r) <==>
              || r.dist != "worksteal"
              || (forall w :: w in r.workers ==> |r.workers[w].queue| <= STEAL_MIN_PENDING)
              || |r.workers| <= 1
  {
    hide WorkerInv, Apart, AfterAll;
    if NothingToMove(r) {
      forall events: seq<Event> | AfterAll(r, events).Some?
        ensures SameShares(r, AfterAll(r, events).value)
      {
        NothingMoves(r, events);
      }
    } else {
      var a :| a in r.workers && |r.workers[a].queue| > STEAL_MIN_PENDING;
      var b := Other(r, a);
      var said := Said(SchedulerOf(r));
      assert said[a] > STEAL_MIN_PENDING && said[b] == |r.workers[b].queue|;
      StealStillComes(r, a, b);
    }
  }

  // And where nothing more can move the record does read settled; so for a run
  // of any number of workers, one that reads unsettled still has a total to change.
  lemma UnsettledStillMoves(r: Run)
    requires Inv(r) && r.workers != map[]
    ensures Says(r, true) || Says(r, false)
    ensures Says(r, false) ==> !TotalsAreFinal(r)
    ensures TotalsAreFinal(r) <==> NothingToMove(r)
  {
    hide WorkerInv, Apart, AfterAll;
    var outstanding := SchedulerOf(r).outstanding.value;
    if r.spare != {} {
      var w :| w in r.workers;
      HandOutStillComes(r, w);
    } else if Says(r, true) {
      SettledIsFinalIff(r);
    } else {
      var a, b :| a in outstanding && b in outstanding && outstanding[a] < STEAL_MIN_PENDING < outstanding[b];
      StealComesNow(r, b, a);
    }
  }

  lemma HandOutStillComes(r: Run, w: string)
    requires Inv(r) && w in r.workers && r.spare != {}
    ensures !TotalsAreFinal(r)
  {
    var e := HandOut(w, r.spare);
    ShareChange(r, e);
    OneEvent(r, e);
    hide Inv, After, Share, AfterAll;
    assert !SameShares(r, AfterAll(r, [e]).value);
  }

  lemma StealComesNow(r: Run, a: string, b: string)
    requires Inv(r) && r.dist == "worksteal" && r.spare == {} && a in r.workers && b in r.workers
    requires |r.workers[b].queue| < STEAL_MIN_PENDING < |r.workers[a].queue|
    ensures !TotalsAreFinal(r) && |r.workers| >= 2
  {
    var id := NotRunning(r.workers[a]);
    var e := Steal(a, b, id);
    StealTakesTwo(r, e);
    ShareChange(r, e);
    OneEvent(r, e);
    hide Inv, After, Share, AfterAll;
    assert !SameShares(r, AfterAll(r, [e]).value);
  }

  lemma Other(r: Run, a: string) returns (b: string)
    requires a in r.workers && |r.workers| > 1
    ensures b in r.workers && b != a
  {
    assert |r.workers| == |r.workers.Keys|;
    assert |r.workers.Keys - {a}| == |r.workers.Keys| - 1;
    assert r.workers.Keys - {a} != {};
    b :| b in r.workers.Keys - {a};
  }

  // What a record made now says of whether the totals have stopped moving.
  predicate Says(r: Run, settled: bool) {
    Settled(r.dist, SchedulerOf(r), Some(|r.spare|)) == Some(settled)
  }

  // The rest, after what has led to `s`.
  lemma Further(r: Run, events: seq<Event>, s: Run, more: seq<Event>, t: Run)
    requires AfterAll(r, events) == Some(s) && AfterAll(s, more) == Some(t)
    ensures AfterAll(r, events + more) == Some(t)
  {
    AfterConcat(r, events, more);
  }

  lemma OneEvent(s: Run, e: Event)
    requires Enabled(s, e)
    ensures AfterAll(s, [e]) == Some(After(s, e))
  {
    hide Enabled, After;
    assert [e][..0] == [];
    assert AfterAll(s, []) == Some(s);
  }

  // Two workers whose whole suite has been handed out, three tests each, and
  // no more.
  predicate ThreeEach(t: Run) {
    && t.dist == "worksteal" && t.spare == {} && t.workers.Keys == {"gw0", "gw1"}
    && |t.workers["gw0"].queue| == 3 && |t.workers["gw1"].queue| == 3
  }

  lemma HandedOut() returns (r: Run, events: seq<Event>)
    ensures Fresh(r) && AfterAll(r, events).Some? && ThreeEach(AfterAll(r, events).value)
  {
    hide AfterAll, AfterStart, AfterFinish, AfterRecord, Counted;
    var left, right := {"a", "b", "c"}, {"d", "e", "f"};
    var idle := Worker({}, None, 0);
    r := Run("worksteal", left + right, map["gw0" := idle, "gw1" := idle], map[], Counts(map[], map[], {}, map[]));
    var s := After(r, HandOut("gw0", left));
    var t := After(s, HandOut("gw1", right));
    assert s.spare == right && s.workers["gw1"].queue == {};
    assert t.workers["gw0"].queue == left && t.workers["gw1"].queue == right && t.spare == {};
    OneEvent(r, HandOut("gw0", left));
    OneEvent(s, HandOut("gw1", right));
    Further(r, [HandOut("gw0", left)], s, [HandOut("gw1", right)], t);
    events := [HandOut("gw0", left)] + [HandOut("gw1", right)];
  }

  // It is not always the last word. In a whole run of worksteal two workers
  // are handed three tests each, and the totals read settled; one runs two of
  // its tests, and they do not; and a steal then changes both.
  lemma SettledTakenBack() returns (r: Run, events: seq<Event>, drained: seq<Event>, stolen: seq<Event>)
    ensures Fresh(r) && AfterAll(r, events).Some? && Says(AfterAll(r, events).value, true)
    ensures AfterAll(r, events + drained).Some? && Says(AfterAll(r, events + drained).value, false)
    ensures AfterAll(r, events + drained + stolen).Some?
    ensures var s, t := AfterAll(r, events).value, AfterAll(r, events + drained + stolen).value;
            && t.workers.Keys == s.workers.Keys == {"gw0", "gw1"}
            && Share(t.workers["gw0"]) == Share(s.workers["gw0"]) + 1
            && Share(t.workers["gw1"]) == Share(s.workers["gw1"]) - 1
  {
    hide AfterAll, After, Enabled, Inv, Fresh;
    r, events := HandedOut();
    var s := AfterAll(r, events).value;
    StartsRight(r);
    RunKeepsInv(r, events);
    ReadsSettled(s);
    drained := Drained(s, "gw0");
    var u := AfterAll(s, drained).value;
    Further(r, events, s, drained, u);
    ReadsUnsettled(u);
    var id := NotRunning(u.workers["gw1"]);
    StealEnabled(u, id);
    stolen := [Steal("gw1", "gw0", id)];
    OneEvent(u, stolen[0]);
    Further(r, events + drained, u, stolen, After(u, stolen[0]));
    ShareChange(u, stolen[0]);
    WorkersAfter(u, stolen[0]);
  }

  lemma ReadsSettled(s: Run)
    requires ThreeEach(s)
    ensures Says(s, true)
  {
    assert Said(SchedulerOf(s)) == map["gw0" := 3, "gw1" := 3];
  }

  lemma ReadsUnsettled(u: Run)
    requires u.dist == "worksteal" && u.spare == {} && u.workers.Keys == {"gw0", "gw1"}
    requires |u.workers["gw0"].queue| == 1 && |u.workers["gw1"].queue| == 3
    ensures Says(u, false)
  {
    var said := SchedulerOf(u).outstanding.value;
    assert said["gw0"] < STEAL_MIN_PENDING < said["gw1"];
  }

  lemma StealEnabled(u: Run, id: string)
    requires u.dist == "worksteal" && u.spare == {} && u.workers.Keys == {"gw0", "gw1"}
    requires |u.workers["gw0"].queue| == 1 && |u.workers["gw1"].queue| == 3
    requires id in u.workers["gw1"].queue && u.workers["gw1"].running != Some(id)
    ensures Enabled(u, Steal("gw1", "gw0", id))
  {
  }
}
