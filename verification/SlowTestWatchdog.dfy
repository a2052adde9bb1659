// The stack left for a test that runs past a timeout: one clock per lane of a
// process of lanes, one dump of every thread, and never two dumps of a
// process within one timeout. Driven by the heartbeat's ticks.
module SlowTests {
  import opened Basics

  // `dump` is when the dump on disk was taken, where there is one.
  datatype Watch = Watch(startedAt: Option<int>, dumpedAt: Option<int>, dump: Option<int>,
                         lanes: map<string, int>, lanesDumped: map<string, int>)

  const IDLE := Watch(None, None, None, map[], map[])

  predicate Recent(at: Option<int>, now: int, timeout: int) {
    at.Some? && now - at.value < timeout
  }

  function Overdue(w: Watch, timeout: int, now: int): set<string> {
    set l | l in w.lanes && now - w.lanes[l] >= timeout
  }

  function Due(w: Watch, timeout: int, now: int): set<string> {
    set l | l in Overdue(w, timeout, now) && (l !in w.lanesDumped || now - w.lanesDumped[l] >= timeout)
  }

  function AfterStartLane(w: Watch, lane: string, now: int): Watch {
    w.(lanes := w.lanes[lane := now], lanesDumped := w.lanesDumped - {lane})
  }

  // `refused`: the file could not be removed.
  function AfterEndLane(w: Watch, timeout: int, lane: string, now: int, refused: bool): Watch {
    var v := w.(lanes := w.lanes - {lane}, lanesDumped := w.lanesDumped - {lane});
    if w.dump.Some? && Overdue(v, timeout, now) == {} && !refused then v.(dump := None) else v
  }

  predicate LanesDump(w: Watch, timeout: int, now: int) {
    Due(w, timeout, now) != {} && !Recent(w.dumpedAt, now, timeout)
  }

  function Marked(w: Watch, timeout: int, now: int): map<string, int> {
    w.lanesDumped + map l | l in Overdue(w, timeout, now) :: now
  }

  // `fails`: the dump could not be written or moved into place.
  function AfterLanesTick(w: Watch, timeout: int, now: int, fails: bool): Watch {
    if !LanesDump(w, timeout, now) then w
    else if fails then w.(dumpedAt := None, lanesDumped := Marked(w, timeout, now))
    else w.(dumpedAt := Some(now), dump := Some(now), lanesDumped := Marked(w, timeout, now))
  }

  predicate TestDumps(w: Watch, timeout: int, now: int) {
    w.startedAt.Some? && now - w.startedAt.value >= timeout && !Recent(w.dumpedAt, now, timeout)
  }

  function AfterTestTick(w: Watch, timeout: int, now: int, fails: bool): Watch {
    if !TestDumps(w, timeout, now) then w
    else if fails then w.(dumpedAt := None)
    else w.(dumpedAt := Some(now), dump := Some(now))
  }

  function AfterStartTest(w: Watch, now: int): Watch {
    w.(startedAt := Some(now), dumpedAt := None)
  }

  function AfterEndTest(w: Watch, refused: bool): Watch {
    w.(startedAt := None, dump := if refused then w.dump else None)
  }

  class SlowTestWatchdog {
    const timeout: int
    var startedAt: Option<int>
    var dumpedAt: Option<int>
    var onDisk: bool
    var lanes: map<string, int>
    var lanesDumped: map<string, int>

    ghost var dump: Option<int>

    ghost function Now(): Watch
      reads this
    {
      Watch(startedAt, dumpedAt, dump, lanes, lanesDumped)
    }

    // Whether the flag says what is on disk.
    ghost predicate Valid()
      reads this
    {
      onDisk == dump.Some?
    }

    constructor (timeout: int)
      ensures Valid() && this.timeout == timeout && Now() == IDLE
    {
      this.timeout := timeout;
      startedAt, dumpedAt, onDisk, lanes, lanesDumped := None, None, false, map[], map[];
      dump := None;
    }

    method StartTest(now: int)
      requires Valid()
      modifies this
      ensures Valid() && Now() == if timeout > 0 then AfterStartTest(old(Now()), now) else old(Now())
    {
      if timeout <= 0 {
        return;
      }
      startedAt := Some(now);
      dumpedAt := None;
    }

    method EndTest(refused: bool)
      requires Valid()
      modifies this
      ensures Valid() && Now() == if timeout > 0 then AfterEndTest(old(Now()), refused) else old(Now())
      // no stack of a test that is over is left, unless it could not be removed
      ensures timeout > 0 && !refused ==> dump == None && !onDisk
      ensures timeout > 0 ==> startedAt == None
    {
      if timeout <= 0 {
        return;
      }
      startedAt := None;
      if onDisk {
        Discard(refused);
      }
    }

    method StartLane(lane: string, now: int)
      requires Valid() && timeout > 0
      modifies this
      ensures Valid() && Now() == AfterStartLane(old(Now()), lane, now)
    {
      lanes := lanes[lane := now];
      lanesDumped := lanesDumped - {lane};
    }

    method EndLane(lane: string, now: int, refused: bool)
      requires Valid() && timeout > 0
      modifies this
      ensures Valid() && Now() == AfterEndLane(old(Now()), timeout, lane, now, refused)
      // the stack stays while another lane is past its timeout, and goes when none is
      ensures lanes == old(lanes) - {lane}
      ensures (exists l :: l in lanes && now - lanes[l] >= timeout) ==> dump == old(dump)
      ensures !(exists l :: l in lanes && now - lanes[l] >= timeout) && !refused ==> dump == None && !onDisk
    {
      lanes := lanes - {lane};
      lanesDumped := lanesDumped - {lane};
      var overdue := exists l :: l in lanes && now - lanes[l] >= timeout;
      assert overdue <==> Overdue(Now(), timeout, now) != {} by {
        if overdue {
          var l :| l in lanes && now - lanes[l] >= timeout;
          assert l in Overdue(Now(), timeout, now);
        }
      }
      if onDisk && !overdue {
        Discard(refused);
      }
    }

    method Tick(now: int, fails: bool)
      requires Valid() && timeout > 0
      modifies this
      ensures Valid()
      ensures Now() == if old(lanes) != map[] then AfterLanesTick(old(Now()), timeout, now, fails)
                       else AfterTestTick(old(Now()), timeout, now, fails)
    {
      if lanes != map[] {
        TickLanes(now, fails);
        return;
      }
      if startedAt.None? || now - startedAt.value < timeout {
        return;
      }
      if dumpedAt.Some? && now - dumpedAt.value < timeout {
        return;
      }
      dumpedAt := Some(now);
      Dump(now, fails);
    }

    method TickLanes(now: int, fails: bool)
      requires Valid() && timeout > 0
      modifies this
      ensures Valid() && Now() == AfterLanesTick(old(Now()), timeout, now, fails)
    {
      ghost var before := Now();
      var late := set l | l in lanes && now - lanes[l] >= timeout;
      var due := set l | l in late && (l !in lanesDumped || now - lanesDumped[l] >= timeout);
      assert late == Overdue(before, timeout, now) && due == Due(before, timeout, now);
      if due == {} {
        return;
      }
      if dumpedAt.Some? && now - dumpedAt.value < timeout {
        return;
      }
      dumpedAt := Some(now);
      Mark(late, now);
      Dump(now, fails);
    }

    method Mark(late: set<string>, now: int)
      modifies this`lanesDumped
      ensures lanesDumped == old(lanesDumped) + map l | l in late :: now
    {
      var left := late;
      while left != {}
        invariant left <= late
        invariant lanesDumped == old(lanesDumped) + map l | l in late - left :: now
        decreases |left|
      {
        var l :| l in left;
        left := left - {l};
        lanesDumped := lanesDumped[l := now];
      }
    }

    // Written whole beside the file and moved into place, or not at all.
    method Dump(now: int, fails: bool)
      requires Valid()
      modifies this`dumpedAt, this`onDisk, this`dump
      ensures Valid()
      ensures fails ==> dumpedAt == None && dump == old(dump)
      ensures !fails ==> dumpedAt == old(dumpedAt) && dump == Some(now)
    {
      if fails {
        dumpedAt := None;
      } else {
        onDisk := true;
        dump := Some(now);
      }
    }

    method Discard(refused: bool)
      requires Valid()
      modifies this`onDisk, this`dump
      ensures Valid() && dump == if refused then old(dump) else None
    {
      if !refused {
        onDisk := false;
        dump := None;
      }
    }
  }

  // ---- a process of lanes ----

  datatype Event = StartLane(lane: string) | EndLane(lane: string, refused: bool) | Tick(fails: bool)

  // `dumps` are the times of every dump taken; `failed` says whether one was not.
  datatype Run = Run(watch: Watch, clock: int, ticked: int, dumps: seq<int>, failed: bool)

  function Start(now: int): Run {
    Run(IDLE, now, now, [], false)
  }

  // Something happens at `now`, no later than `gap` after the last tick.
  predicate Possible(r: Run, now: int, gap: int) {
    r.clock <= now <= r.ticked + gap
  }

  function After(r: Run, e: Event, timeout: int, now: int): Run {
    match e
    case StartLane(lane) => r.(clock := now, watch := AfterStartLane(r.watch, lane, now))
    case EndLane(lane, refused) => r.(clock := now, watch := AfterEndLane(r.watch, timeout, lane, now, refused))
    case Tick(fails) =>
      var dumps := LanesDump(r.watch, timeout, now);
      Run(AfterLanesTick(r.watch, timeout, now, fails), now, now,
          if dumps && !fails then r.dumps + [now] else r.dumps, r.failed || (dumps && fails))
  }

  // A run from `r` on.
  function Onward(r: Run, events: seq<(Event, int)>, timeout: int, gap: int): Option<Run> {
    if events == [] then Some(r)
    else
      var before := Onward(r, events[..|events| - 1], timeout, gap);
      var (e, now) := events[|events| - 1];
      if before.Some? && Possible(before.value, now, gap) then Some(After(before.value, e, timeout, now)) else None
  }

  function AfterAll(start: int, events: seq<(Event, int)>, timeout: int, gap: int): Option<Run> {
    Onward(Start(start), events, timeout, gap)
  }

  // What the clock of one lane owes to the last dump of the process.
  predicate LaneInv(r: Run, timeout: int, l: string, started: int) {
    var at := r.watch.dumpedAt;
    && started <= r.clock
    && (at.Some? && at.value >= started + timeout ==> l in r.watch.lanesDumped && r.watch.dump == at)
    && (l in r.watch.lanesDumped ==>
          && started + timeout <= r.watch.lanesDumped[l] <= r.clock
          && (at.Some? ==> at.value == r.watch.lanesDumped[l])
          && (!r.failed ==> at.Some?))
    && (!r.failed && r.ticked - started >= timeout ==> Recent(at, r.ticked, timeout))
  }

  predicate Apart(dumps: seq<int>, timeout: int) {
    forall i, j :: 0 <= i < j < |dumps| ==> dumps[i] + timeout <= dumps[j]
  }

  // What the last dump taken owes to the one remembered.
  predicate DumpsInv(r: Run, timeout: int) {
    var at := r.watch.dumpedAt;
    && Apart(r.dumps, timeout)
    && (at.Some? ==> at.value <= r.clock && r.dumps != [] && r.dumps[|r.dumps| - 1] == at.value)
    && (at.None? && r.dumps != [] ==> r.dumps[|r.dumps| - 1] + timeout <= r.clock)
    && (at.None? && !r.failed ==> r.dumps == [])
    && (r.watch.dump.Some? ==> r.dumps != [] && r.watch.dump.value == r.dumps[|r.dumps| - 1])
  }

  predicate Inv(r: Run, timeout: int) {
    && r.ticked <= r.clock
    && (forall l :: l in r.watch.lanes ==> LaneInv(r, timeout, l, r.watch.lanes[l]))
    && DumpsInv(r, timeout)
  }

  lemma TickKeepsInv(r: Run, timeout: int, now: int, fails: bool)
    requires Inv(r, timeout) && timeout > 0 && r.clock <= now
    ensures Inv(After(r, Tick(fails), timeout, now), timeout)
  {
    var t := After(r, Tick(fails), timeout, now);
    forall l | l in t.watch.lanes
      ensures LaneInv(t, timeout, l, t.watch.lanes[l])
    {
      assert LaneInv(r, timeout, l, r.watch.lanes[l]);
      assert l in Overdue(r.watch, timeout, now) <==> now - r.watch.lanes[l] >= timeout;
      assert l in Due(r.watch, timeout, now) <==>
             now - r.watch.lanes[l] >= timeout
                 && (l !in r.watch.lanesDumped || now - r.watch.lanesDumped[l] >= timeout);
    }
  }

  lemma StartKeepsInv(r: Run, timeout: int, now: int, lane: string)
    requires Inv(r, timeout) && timeout > 0 && r.clock <= now
    ensures Inv(After(r, StartLane(lane), timeout, now), timeout)
  {
    var t := After(r, StartLane(lane), timeout, now);
    forall l | l in t.watch.lanes
      ensures LaneInv(t, timeout, l, t.watch.lanes[l])
    {
      if l != lane {
        assert LaneInv(r, timeout, l, r.watch.lanes[l]);
      }
    }
  }

  lemma EndKeepsInv(r: Run, timeout: int, now: int, lane: string, refused: bool)
    requires Inv(r, timeout) && timeout > 0 && r.clock <= now
    ensures Inv(After(r, EndLane(lane, refused), timeout, now), timeout)
  {
    var t := After(r, EndLane(lane, refused), timeout, now);
    forall l | l in t.watch.lanes
      ensures LaneInv(t, timeout, l, t.watch.lanes[l])
    {
      assert LaneInv(r, timeout, l, r.watch.lanes[l]);
      var v := r.watch.(lanes := r.watch.lanes - {lane}, lanesDumped := r.watch.lanesDumped - {lane});
      assert now - r.watch.lanes[l] >= timeout ==> l in Overdue(v, timeout, now);
    }
  }

  lemma StepKeepsInv(r: Run, e: Event, timeout: int, now: int)
    requires Inv(r, timeout) && timeout > 0 && r.clock <= now
    ensures Inv(After(r, e, timeout, now), timeout)
  {
    hide Inv, After;
    match e {
      case Tick(fails) => TickKeepsInv(r, timeout, now, fails);
      case StartLane(lane) => StartKeepsInv(r, timeout, now, lane);
      case EndLane(lane, refused) => EndKeepsInv(r, timeout, now, lane, refused);
    }
  }

  lemma {:induction false} OnwardKeepsInv(r: Run, events: seq<(Event, int)>, timeout: int, gap: int)
    requires timeout > 0 && Inv(r, timeout) && Onward(r, events, timeout, gap).Some?
    ensures Inv(Onward(r, events, timeout, gap).value, timeout)
    decreases |events|
  {
    hide Inv, After;
    if events != [] {
      OnwardKeepsInv(r, events[..|events| - 1], timeout, gap);
      var (e, now) := events[|events| - 1];
      StepKeepsInv(Onward(r, events[..|events| - 1], timeout, gap).value, e, timeout, now);
    }
  }

  lemma RunKeepsInv(start: int, events: seq<(Event, int)>, timeout: int, gap: int)
    requires timeout > 0 && AfterAll(start, events, timeout, gap).Some?
    ensures Inv(AfterAll(start, events, timeout, gap).value, timeout)
  {
    OnwardKeepsInv(Start(start), events, timeout, gap);
  }

  // Two dumps of a process of lanes are never less than a timeout apart,
  // whatever fails between them.
  lemma DumpsAreApart(start: int, events: seq<(Event, int)>, timeout: int, gap: int)
    requires timeout > 0 && AfterAll(start, events, timeout, gap).Some?
    ensures Apart(AfterAll(start, events, timeout, gap).value.dumps, timeout)
  {
    RunKeepsInv(start, events, timeout, gap);
  }

  // ---- the stack of a lane that stays stuck ----

  // The test of lane `stuck` neither ends nor starts in these.
  predicate Untouched(events: seq<(Event, int)>, stuck: string) {
    forall k :: 0 <= k < |events| ==>
      match events[k].0
      case StartLane(lane) => lane != stuck
      case EndLane(lane, _) => lane != stuck
      case Tick(_) => true
  }

  lemma StepKeepsDump(r: Run, e: Event, timeout: int, now: int, stuck: string)
    requires Inv(r, timeout) && timeout > 0 && r.clock <= now && Untouched([(e, now)], stuck)
    requires stuck in r.watch.lanes && now - r.watch.lanes[stuck] >= timeout && r.watch.dump.Some?
    ensures var t := After(r, e, timeout, now);
            && stuck in t.watch.lanes && t.watch.lanes[stuck] == r.watch.lanes[stuck] && t.clock == now
            && t.watch.dump.Some? && t.watch.dump.value >= r.watch.dump.value
  {
    assert [(e, now)][0].0 == e;
    if e.EndLane? {
      var v := r.watch.(lanes := r.watch.lanes - {e.lane}, lanesDumped := r.watch.lanesDumped - {e.lane});
      assert stuck in Overdue(v, timeout, now);
    }
  }

  // Over any run, however other lanes come and go and whatever fails: while a
  // lane that is past its timeout stays so, the dump is never taken away, and
  // only ever replaced by a later one.
  lemma {:induction false} KeptWhileOverdue(start: int, events: seq<(Event, int)>, more: seq<(Event, int)>,
                                            timeout: int, gap: int, stuck: string)
    requires timeout > 0 && AfterAll(start, events, timeout, gap).Some?
    requires var r := AfterAll(start, events, timeout, gap).value;
             && Onward(r, more, timeout, gap).Some? && Untouched(more, stuck)
             && stuck in r.watch.lanes && r.clock - r.watch.lanes[stuck] >= timeout && r.watch.dump.Some?
    ensures var r := AfterAll(start, events, timeout, gap).value;
            var t := Onward(r, more, timeout, gap).value;
            && stuck in t.watch.lanes && t.watch.lanes[stuck] == r.watch.lanes[stuck] && t.clock >= r.clock
            && t.watch.dump.Some? && t.watch.dump.value >= r.watch.dump.value
    decreases |more|
  {
    hide Inv, After, AfterAll;
    var r := AfterAll(start, events, timeout, gap).value;
    if more != [] {
      var (e, now) := more[|more| - 1];
      KeptWhileOverdue(start, events, more[..|more| - 1], timeout, gap, stuck);
      RunKeepsInv(start, events, timeout, gap);
      OnwardKeepsInv(r, more[..|more| - 1], timeout, gap);
      assert more[|more| - 1] == (e, now);
      StepKeepsDump(Onward(r, more[..|more| - 1], timeout, gap).value, e, timeout, now, stuck);
    }
  }

  // The dump on disk shows this lane past its timeout, and is less than a
  // timeout and a gap old.
  predicate FreshStack(w: Watch, lane: string, timeout: int, gap: int, now: int) {
    && lane in w.lanes && w.dump.Some?
    && w.dump.value >= w.lanes[lane] + timeout && now - w.dump.value < timeout + gap
  }

  // At any instant of any run in which no dump has failed, a lane whose test
  // has run for a timeout and a gap has a fresh stack exactly if the process
  // last took a dump since that test passed its timeout: what holds the lane's
  // first stack back is a dump taken for another lane before that.
  lemma FreshStackIff(start: int, events: seq<(Event, int)>, timeout: int, gap: int, now: int, lane: string)
    requires timeout > 0 && AfterAll(start, events, timeout, gap).Some?
    requires var r := AfterAll(start, events, timeout, gap).value;
             && Possible(r, now, gap) && !r.failed
             && lane in r.watch.lanes && now - r.watch.lanes[lane] >= timeout + gap
    ensures var w := AfterAll(start, events, timeout, gap).value.watch;
            && w.dumpedAt.Some?
            && (FreshStack(w, lane, timeout, gap, now) <==> w.dumpedAt.value >= w.lanes[lane] + timeout)
  {
    hide AfterAll;
    RunKeepsInv(start, events, timeout, gap);
    var r := AfterAll(start, events, timeout, gap).value;
    assert LaneInv(r, timeout, lane, r.watch.lanes[lane]);
  }

  // So after two timeouts and a gap there always is one.
  lemma StuckLaneHasAStack(start: int, events: seq<(Event, int)>, timeout: int, gap: int, now: int, lane: string)
    requires timeout > 0 && AfterAll(start, events, timeout, gap).Some?
    requires var r := AfterAll(start, events, timeout, gap).value;
             && Possible(r, now, gap) && !r.failed
             && lane in r.watch.lanes && now - r.watch.lanes[lane] >= 2 * timeout + gap
    ensures FreshStack(AfterAll(start, events, timeout, gap).value.watch, lane, timeout, gap, now)
  {
    hide AfterAll;
    RunKeepsInv(start, events, timeout, gap);
    var r := AfterAll(start, events, timeout, gap).value;
    assert LaneInv(r, timeout, lane, r.watch.lanes[lane]);
  }

  // One timeout and a gap is not enough: a dump that ended lane `a` took with
  // it still holds back the first of lane `b`.
  lemma FirstStackMayTakeTwoTimeouts() returns (events: seq<(Event, int)>)
    ensures var r := AfterAll(0, events, 10, 5);
            && r.Some? && !r.value.failed && "b" in r.value.watch.lanes
            && Possible(r.value, 20, 5) && 20 - r.value.watch.lanes["b"] >= 10 + 5
            && !FreshStack(r.value.watch, "b", 10, 5, 20)
  {
    hide AfterAll, Onward;
    var w0 := IDLE.(lanes := map["a" := 0]);
    var w1 := w0.(lanes := map["a" := 0, "b" := 5]);
    var w2 := w1.(dumpedAt := Some(10), dump := Some(10), lanesDumped := map["a" := 10]);
    var w3 := Watch(None, Some(10), None, map["b" := 5], map[]);
    assert AfterStartLane(IDLE, "a", 0) == w0 && AfterStartLane(w0, "b", 5) == w1;
    assert Overdue(w1, 10, 5) == {} && AfterLanesTick(w1, 10, 5, false) == w1;
    assert "a" in Due(w1, 10, 10) && Overdue(w1, 10, 10) == {"a"};
    assert AfterLanesTick(w1, 10, 10, false) == w2;
    assert Overdue(w3, 10, 11) == {};
    assert AfterEndLane(w2, 10, "a", 11, false) == w3;
    assert AfterLanesTick(w3, 10, 15, false) == w3 == AfterLanesTick(w3, 10, 19, false);
    Begins();
    events := Leads([], Start(0), StartLane("a"), 0, Run(w0, 0, 0, [], false));
    events := Leads(events, Run(w0, 0, 0, [], false), StartLane("b"), 5, Run(w1, 5, 0, [], false));
    events := Leads(events, Run(w1, 5, 0, [], false), Tick(false), 5, Run(w1, 5, 5, [], false));
    events := Leads(events, Run(w1, 5, 5, [], false), Tick(false), 10, Run(w2, 10, 10, [10], false));
    events := Leads(events, Run(w2, 10, 10, [10], false), EndLane("a", false), 11, Run(w3, 11, 10, [10], false));
    events := Leads(events, Run(w3, 11, 10, [10], false), Tick(false), 15, Run(w3, 15, 15, [10], false));
    events := Leads(events, Run(w3, 15, 15, [10], false), Tick(false), 19, Run(w3, 19, 19, [10], false));
  }

  lemma Begins()
    ensures AfterAll(0, [], 10, 5) == Some(Start(0))
  {
  }

  lemma Leads(events: seq<(Event, int)>, r: Run, e: Event, now: int, t: Run) returns (on: seq<(Event, int)>)
    requires AfterAll(0, events, 10, 5) == Some(r)
    requires Possible(r, now, 5) && After(r, e, 10, now) == t
    ensures on == events + [(e, now)] && AfterAll(0, on, 10, 5) == Some(t)
  {
    hide After;
    on := events + [(e, now)];
    assert on[..|events|] == events;
  }

  // ---- a worker that runs one test at a time ----

  datatype TestEvent = StartTest | EndTest(refused: bool) | TestTick(fails: bool)

  // `missed`: the last tick's dump failed.
  datatype TestRun = TestRun(watch: Watch, clock: int, ticked: int, missed: bool)

  function AfterTest(r: TestRun, e: TestEvent, timeout: int, now: int): TestRun {
    match e
    case StartTest => r.(clock := now, watch := AfterStartTest(r.watch, now))
    case EndTest(refused) => r.(clock := now, watch := AfterEndTest(r.watch, refused))
    case TestTick(fails) =>
      TestRun(AfterTestTick(r.watch, timeout, now, fails), now, now, fails && TestDumps(r.watch, timeout, now))
  }

  function AfterTests(start: int, events: seq<(TestEvent, int)>, timeout: int, gap: int): Option<TestRun> {
    if events == [] then Some(TestRun(IDLE, start, start, false))
    else
      var before := AfterTests(start, events[..|events| - 1], timeout, gap);
      var (e, now) := events[|events| - 1];
      if before.Some? && before.value.clock <= now <= before.value.ticked + gap
      then Some(AfterTest(before.value, e, timeout, now)) else None
  }

  predicate TestInv(r: TestRun, timeout: int) {
    var w := r.watch;
    && r.ticked <= r.clock
    && (w.startedAt.Some? ==>
          && w.startedAt.value <= r.clock
          && (w.dumpedAt.Some? ==> w.dump == w.dumpedAt && w.startedAt.value + timeout <= w.dumpedAt.value <= r.ticked)
          && (r.ticked - w.startedAt.value >= timeout ==> r.missed || Recent(w.dumpedAt, r.ticked, timeout)))
  }

  lemma {:induction false} TestsKeepInv(start: int, events: seq<(TestEvent, int)>, timeout: int, gap: int)
    requires timeout > 0 && AfterTests(start, events, timeout, gap).Some?
    ensures TestInv(AfterTests(start, events, timeout, gap).value, timeout)
    decreases |events|
  {
    if events != [] {
      TestsKeepInv(start, events[..|events| - 1], timeout, gap);
    }
  }

  // At any instant of any run of one test at a time, a test that has run for a
  // timeout and a gap has a dump on disk, taken with it past its timeout and
  // less than a timeout and a gap old, whatever dumps failed before: a dump
  // that fails is tried again at the next tick. Only where the last tick's own
  // dump failed may there be none.
  lemma SlowTestHasAStack(start: int, events: seq<(TestEvent, int)>, timeout: int, gap: int, now: int)
    requires timeout > 0 && AfterTests(start, events, timeout, gap).Some?
    requires var r := AfterTests(start, events, timeout, gap).value;
             && r.clock <= now <= r.ticked + gap
             && r.watch.startedAt.Some? && now - r.watch.startedAt.value >= timeout + gap
    ensures var r := AfterTests(start, events, timeout, gap).value;
            || r.missed
            || (r.watch.dump.Some? && r.watch.dump.value >= r.watch.startedAt.value + timeout
                && now - r.watch.dump.value < timeout + gap)
    ensures var r := AfterTests(start, events, timeout, gap).value;
            r.missed ==> LastTickFailed(events) && TestDumps(r.watch, timeout, now)
  {
    TestsKeepInv(start, events, timeout, gap);
    MissedIsLast(start, events, timeout, gap);
  }

  predicate LastTickFailed(events: seq<(TestEvent, int)>) {
    events != [] &&
    match events[|events| - 1].0
    case TestTick(fails) => fails
    case _ => LastTickFailed(events[..|events| - 1])
  }

  lemma {:induction false} MissedIsLast(start: int, events: seq<(TestEvent, int)>, timeout: int, gap: int)
    requires AfterTests(start, events, timeout, gap).Some?
    ensures AfterTests(start, events, timeout, gap).value.missed ==> LastTickFailed(events)
    decreases |events|
  {
    if events != [] {
      MissedIsLast(start, events[..|events| - 1], timeout, gap);
    }
  }

  // The runs above are the watchdog's own: played to it, their events leave it
  // as they say.
  method PlayTests(w: SlowTestWatchdog, start: int, events: seq<(TestEvent, int)>, gap: int)
    requires w.Valid() && w.timeout > 0 && w.Now() == IDLE && AfterTests(start, events, w.timeout, gap).Some?
    modifies w
    ensures w.Valid() && w.Now() == AfterTests(start, events, w.timeout, gap).value.watch
  {
    hide AfterTestTick, TestDumps;
    for k := 0 to |events|
      invariant w.Valid() && w.lanes == map[]
      invariant AfterTests(start, events[..k], w.timeout, gap).Some?
      invariant w.Now() == AfterTests(start, events[..k], w.timeout, gap).value.watch
    {
      TestsSoFar(start, events, w.timeout, gap, k + 1);
      assert events[..k + 1][..k] == events[..k];
      var now := events[k].1;
      TickLeavesLanes(w.Now(), w.timeout, now, false);
      TickLeavesLanes(w.Now(), w.timeout, now, true);
      match events[k].0
      case StartTest => w.StartTest(now);
      case EndTest(refused) => w.EndTest(refused);
      case TestTick(fails) => w.Tick(now, fails);
    }
    assert events[..|events|] == events;
  }

  lemma TickLeavesLanes(w: Watch, timeout: int, now: int, fails: bool)
    ensures AfterTestTick(w, timeout, now, fails).lanes == w.lanes
  {
  }

  lemma {:induction false} TestsSoFar(start: int, events: seq<(TestEvent, int)>, timeout: int, gap: int, k: nat)
    requires AfterTests(start, events, timeout, gap).Some? && k <= |events|
    ensures AfterTests(start, events[..k], timeout, gap).Some?
    decreases |events|
  {
    if k < |events| {
      TestsSoFar(start, events[..|events| - 1], timeout, gap, k);
      assert events[..|events| - 1][..k] == events[..k];
    } else {
      assert events[..k] == events;
    }
  }

  method PlayLanes(w: SlowTestWatchdog, start: int, events: seq<(Event, int)>, gap: int)
    requires w.Valid() && w.timeout > 0 && w.Now() == IDLE && AfterAll(start, events, w.timeout, gap).Some?
    modifies w
    ensures w.Valid() && w.Now() == AfterAll(start, events, w.timeout, gap).value.watch
  {
    hide AfterLanesTick, LanesDump, AfterStartLane, AfterEndLane;
    for k := 0 to |events|
      invariant w.Valid() && w.startedAt.None?
      invariant AfterAll(start, events[..k], w.timeout, gap).Some?
      invariant w.Now() == AfterAll(start, events[..k], w.timeout, gap).value.watch
    {
      LanesSoFar(start, events, w.timeout, gap, k + 1);
      assert events[..k + 1][..k] == events[..k];
      var now := events[k].1;
      NoTestIsTimed(w.Now(), events[k].0, w.timeout, now);
      match events[k].0
      case StartLane(lane) => w.StartLane(lane, now);
      case EndLane(lane, refused) => w.EndLane(lane, now, refused);
      case Tick(fails) => w.Tick(now, fails);
    }
    assert events[..|events|] == events;
  }

  lemma NoTestIsTimed(w: Watch, e: Event, timeout: int, now: int)
    requires w.startedAt.None?
    ensures match e
            case StartLane(lane) => AfterStartLane(w, lane, now).startedAt.None?
            case EndLane(lane, refused) => AfterEndLane(w, timeout, lane, now, refused).startedAt.None?
            case Tick(fails) =>
              && AfterLanesTick(w, timeout, now, fails).startedAt.None?
              && (w.lanes == map[] ==>
                    AfterLanesTick(w, timeout, now, fails) == w == AfterTestTick(w, timeout, now, fails))
  {
  }

  lemma {:induction false} LanesSoFar(start: int, events: seq<(Event, int)>, timeout: int, gap: int, k: nat)
    requires AfterAll(start, events, timeout, gap).Some? && k <= |events|
    ensures AfterAll(start, events[..k], timeout, gap).Some?
    decreases |events|
  {
    if k < |events| {
      LanesSoFar(start, events[..|events| - 1], timeout, gap, k);
      assert events[..|events| - 1][..k] == events[..k];
    } else {
      assert events[..k] == events;
    }
  }

  // ---- a dump of lanes that fails ----

  // No tick among these comes to a dump.
  predicate Untried(r: Run, events: seq<(Event, int)>, timeout: int, gap: int) {
    events == [] ||
    (&& Untried(r, events[..|events| - 1], timeout, gap)
     && var before := Onward(r, events[..|events| - 1], timeout, gap);
        var (e, now) := events[|events| - 1];
        e.Tick? && before.Some? ==> !LanesDump(before.value.watch, timeout, now))
  }

  // How things stand after a dump failed at `now`: the lanes past their timeout
  // then count as dumped then, and no others do.
  predicate MarkedAt(w: Watch, timeout: int, now: int) {
    && w.dumpedAt.None?
    && forall l :: l in w.lanes ==>
         if now - w.lanes[l] >= timeout then l in w.lanesDumped && w.lanesDumped[l] == now else l !in w.lanesDumped
  }

  lemma FailureMarks(r: Run, timeout: int, now: int)
    requires Inv(r, timeout) && timeout > 0 && r.clock <= now && LanesDump(r.watch, timeout, now)
    ensures MarkedAt(After(r, Tick(true), timeout, now).watch, timeout, now)
  {
    var w := r.watch;
    forall l | l in w.lanes
      ensures l in Overdue(w, timeout, now) <==> now - w.lanes[l] >= timeout
      ensures LaneInv(r, timeout, l, w.lanes[l])
    {
    }
  }

  lemma {:induction false} MarksStay(r: Run, events: seq<(Event, int)>, timeout: int, gap: int, now: int)
    requires timeout > 0 && MarkedAt(r.watch, timeout, now) && r.clock == now
    requires Onward(r, events, timeout, gap).Some? && Untried(r, events, timeout, gap)
    ensures var t := Onward(r, events, timeout, gap).value; MarkedAt(t.watch, timeout, now) && t.clock >= now
    decreases |events|
  {
    hide After, MarkedAt;
    if events != [] {
      var (e, at) := events[|events| - 1];
      MarksStay(r, events[..|events| - 1], timeout, gap, now);
      MarksStayOn(Onward(r, events[..|events| - 1], timeout, gap).value, e, timeout, at, now);
    }
  }

  lemma MarksStayOn(r: Run, e: Event, timeout: int, at: int, now: int)
    requires timeout > 0 && MarkedAt(r.watch, timeout, now) && now <= r.clock <= at
    requires e.Tick? ==> !LanesDump(r.watch, timeout, at)
    ensures MarkedAt(After(r, e, timeout, at).watch, timeout, now) && After(r, e, timeout, at).clock == at
  {
    hide Overdue, Due;
  }

  // At any point of any run in which a dump of lanes fails, and however lanes
  // start and end and ticks come to nothing after that: within a timeout a tick
  // tries again exactly if a lane still running has come due since. Those it
  // failed for count as dumped.
  lemma LanesRetryIffNewlyOverdue(start: int, events: seq<(Event, int)>, more: seq<(Event, int)>, timeout: int,
                                  gap: int, now: int, later: int)
    requires timeout > 0 && AfterAll(start, events, timeout, gap).Some?
    requires var r := AfterAll(start, events, timeout, gap).value;
             && Possible(r, now, gap) && LanesDump(r.watch, timeout, now)
             && var failed := After(r, Tick(true), timeout, now);
                && Onward(failed, more, timeout, gap).Some? && Untried(failed, more, timeout, gap)
                && now <= later < now + timeout
    ensures var failed := After(AfterAll(start, events, timeout, gap).value, Tick(true), timeout, now);
            var w := Onward(failed, more, timeout, gap).value.watch;
            LanesDump(w, timeout, later)
            <==> exists l :: l in w.lanes && now - w.lanes[l] < timeout <= later - w.lanes[l]
  {
    hide AfterAll, Inv, Onward, Untried;
    RunKeepsInv(start, events, timeout, gap);
    var r := AfterAll(start, events, timeout, gap).value;
    FailureMarks(r, timeout, now);
    var failed := After(r, Tick(true), timeout, now);
    MarksStay(failed, more, timeout, gap, now);
    DueIffNewlyOverdue(Onward(failed, more, timeout, gap).value.watch, timeout, now, later);
  }

  lemma DueIffNewlyOverdue(w: Watch, timeout: int, now: int, later: int)
    requires MarkedAt(w, timeout, now) && timeout > 0 && now <= later < now + timeout
    ensures LanesDump(w, timeout, later)
            <==> exists l :: l in w.lanes && now - w.lanes[l] < timeout <= later - w.lanes[l]
  {
    forall l
      ensures l in Due(w, timeout, later) <==> l in w.lanes && now - w.lanes[l] < timeout <= later - w.lanes[l]
    {
      assert l in Overdue(w, timeout, later) <==> l in w.lanes && later - w.lanes[l] >= timeout;
    }
  }

  // And it does happen that a stuck lane is left without a stack for a whole
  // timeout after its dump failed.
  lemma FailureIsNotRetried() returns (events: seq<(Event, int)>)
    ensures var r := AfterAll(0, events, 10, 5);
            && r.Some? && r.value.failed && r.value.clock == 10
            && r.value.watch.lanes == map["a" := 0] && r.value.watch.dump == None
            && forall later :: 10 <= later < 20 ==> !LanesDump(r.value.watch, 10, later)
  {
    hide AfterAll, Onward;
    var w0 := IDLE.(lanes := map["a" := 0]);
    var w1 := w0.(lanesDumped := map["a" := 10]);
    assert AfterStartLane(IDLE, "a", 0) == w0;
    assert Overdue(w0, 10, 5) == {} && AfterLanesTick(w0, 10, 5, false) == w0;
    assert "a" in Due(w0, 10, 10) && Overdue(w0, 10, 10) == {"a"};
    assert AfterLanesTick(w0, 10, 10, true) == w1;
    Begins();
    events := Leads([], Start(0), StartLane("a"), 0, Run(w0, 0, 0, [], false));
    events := Leads(events, Run(w0, 0, 0, [], false), Tick(false), 5, Run(w0, 5, 5, [], false));
    events := Leads(events, Run(w0, 5, 5, [], false), Tick(true), 10, Run(w1, 10, 10, [], true));
    forall later | 10 <= later < 20
      ensures Due(w1, 10, later) == {}
    {
    }
  }
}
