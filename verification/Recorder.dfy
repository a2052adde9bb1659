// A worker's state slot: how many tests it has started and finished, written
// at the edges of each phase, and joined by a reader with the row of the
// controller's schedule that says how many it was given.
module Recorder {
  import opened Basics

  datatype Phase = Setup | Call | Teardown

  // What the slot's file says.
  datatype State = State(testsStarted: nat, testsFinished: nat, attempt: Option<nat>, nodeid: Option<string>,
                         phase: Option<Phase>)

  // The slot: the test counted in the open protocol, which attempt of it is
  // running, the state, and the state as last written.
  datatype Slot = Slot(counted: Option<string>, attempt: nat, state: State, written: State)

  const NEW := Slot(None, 0, State(0, 0, None, None, None), State(0, 0, None, None, None))

  function AtBoundary(s: Slot): Slot {
    s.(counted := None, attempt := 0)
  }

  function AtSetup(s: Slot, nodeid: string): Slot {
    if s.counted != Some(nodeid) then
      s.(counted := Some(nodeid), attempt := 1,
         state := s.state.(testsStarted := s.state.testsStarted + 1, attempt := Some(1)))
    else
      s.(attempt := s.attempt + 1,
         state := s.state.(testsFinished := if s.state.testsFinished > 0 then s.state.testsFinished - 1 else 0,
                           attempt := Some(s.attempt + 1)))
  }

  function AtPhaseStart(s: Slot, phase: Phase, nodeid: string): Slot {
    var t := if phase.Setup? then AtSetup(s, nodeid) else s;
    var state := t.state.(nodeid := Some(nodeid), phase := Some(phase));
    t.(state := state, written := state)
  }

  function AtPhaseEnd(s: Slot, phase: Phase): Slot {
    var state := if phase.Teardown? then
                   s.state.(testsFinished := s.state.testsFinished + 1, attempt := None, nodeid := None, phase := None)
                 else s.state.(phase := None);
    s.(state := state, written := state)
  }

  class WorkerSlot {
    var counted: Option<string>
    var attempt: nat
    var state: State
    var written: State

    function Now(): Slot
      reads this
    {
      Slot(counted, attempt, state, written)
    }

    constructor ()
      ensures Now() == NEW
    {
      counted, attempt, state, written := None, 0, NEW.state, NEW.written;
    }

    method Update(nodeid: Option<string>, phase: Option<Phase>)
      modifies this`state, this`written
      ensures state == old(state).(nodeid := nodeid, phase := phase) && written == state
    {
      state := state.(nodeid := nodeid, phase := phase);
      written := state;
    }

    // Around every implementation of the protocol, a rerun plugin's included.
    method ProtocolBoundary()
      modifies this`counted, this`attempt
      ensures Now() == AtBoundary(old(Now()))
    {
      counted, attempt := None, 0;
    }

    method PhaseStart(phase: Phase, nodeid: string)
      modifies this
      ensures Now() == AtPhaseStart(old(Now()), phase, nodeid)
    {
      if phase.Setup? {
        if counted != Some(nodeid) {
          counted := Some(nodeid);
          state := state.(testsStarted := state.testsStarted + 1);
          attempt := 1;
        } else {
          attempt := attempt + 1;
          if state.testsFinished > 0 {
            state := state.(testsFinished := state.testsFinished - 1);
          }
        }
        state := state.(attempt := Some(attempt));
      }
      Update(Some(nodeid), Some(phase));
    }

    method PhaseEnd(phase: Phase)
      modifies this`state, this`written
      ensures Now() == AtPhaseEnd(old(Now()), phase)
    {
      if !phase.Teardown? {
        Update(state.nodeid, None);
        return;
      }
      state := state.(testsFinished := state.testsFinished + 1, attempt := None);
      Update(None, None);
    }
  }

  // ---- a worker's run ----

  datatype Event = Open(nodeid: string) | Starts(phase: Phase) | Ends(phase: Phase) | Close

  // Where the protocol is. A test is set up, maybe called, and torn down, and
  // all of that may be done again before its protocol closes.
  datatype Stage =
    | Outside
    | Opened(nodeid: string)
    | Inside(nodeid: string, attempt: nat, phase: Phase)
    | Between(nodeid: string, attempt: nat, phase: Phase)
    | Torn(nodeid: string, attempt: nat)

  function Follow(at: Stage, e: Event): Option<Stage> {
    match at
    case Outside => if e.Open? then Some(Opened(e.nodeid)) else None
    case Opened(nodeid) =>
      if e == Starts(Setup) then Some(Inside(nodeid, 1, Setup)) else if e.Close? then Some(Outside) else None
    case Inside(nodeid, attempt, phase) =>
      if e != Ends(phase) then None
      else if phase.Teardown? then Some(Torn(nodeid, attempt))
      else Some(Between(nodeid, attempt, phase))
    case Between(nodeid, attempt, phase) =>
      if (e == Starts(Call) && phase.Setup?) || e == Starts(Teardown) then Some(Inside(nodeid, attempt, e.phase))
      else None
    case Torn(nodeid, attempt) =>
      if e == Starts(Setup) then Some(Inside(nodeid, attempt + 1, Setup)) else if e.Close? then Some(Outside) else None
  }

  function StageAfter(events: seq<Event>): Option<Stage> {
    if events == [] then Some(Outside)
    else
      var before := StageAfter(events[..|events| - 1]);
      if before.None? then None else Follow(before.value, events[|events| - 1])
  }

  function SlotAfter(events: seq<Event>): Slot
    requires StageAfter(events).Some?
  {
    if events == [] then NEW
    else
      var s := SlotAfter(events[..|events| - 1]);
      var at := StageAfter(events[..|events| - 1]).value;
      match events[|events| - 1]
      case Open(_) => AtBoundary(s)
      case Close => AtBoundary(s)
      case Ends(phase) => AtPhaseEnd(s, phase)
      case Starts(phase) => if at.Outside? then s else AtPhaseStart(s, phase, at.nodeid)
  }

  // How many tests a run has begun: protocols that got as far as a setup.
  function Tests(events: seq<Event>): nat {
    if |events| < 2 then 0
    else
      var n := |events| - 1;
      Tests(events[..n]) + (if events[n - 1].Open? && events[n] == Starts(Setup) then 1 else 0)
  }

  // Whatever the number of attempts per test, the slot counts tests: those
  // begun, and those begun and not inside an attempt. What a reader finds in
  // the file is what the worker last knew, which attempt it is on included.
  ghost predicate CountsTests(s: Slot, at: Stage, tests: nat) {
    && s.state.testsStarted == s.written.testsStarted == tests
    && s.state.testsFinished == s.written.testsFinished
    && (if at.Inside? || at.Between? then
          && s.state.testsFinished + 1 == tests && s.counted == Some(at.nodeid)
          && s.attempt == at.attempt && s.written.attempt == Some(at.attempt) && s.written.nodeid == Some(at.nodeid)
          && s.written.phase == (if at.Inside? then Some(at.phase) else None)
        else
          && s.state.testsFinished == tests && s.written.attempt == None && s.written.nodeid == None
          && s.written.phase == None
          && (if at.Torn? then s.counted == Some(at.nodeid) && s.attempt == at.attempt && tests > 0
                else s.counted == None))
    && s.state == s.written
  }

  lemma {:induction false} SlotCountsTests(events: seq<Event>)
    requires StageAfter(events).Some?
    ensures CountsTests(SlotAfter(events), StageAfter(events).value, Tests(events))
    ensures (|events| > 0 && events[|events| - 1].Open?) <==> StageAfter(events).value.Opened?
  {
    if events != [] {
      SlotCountsTests(events[..|events| - 1]);
      OnlyOpenOpens(events);
    }
  }

  lemma OnlyOpenOpens(events: seq<Event>)
    requires events != [] && StageAfter(events).Some?
    ensures events[|events| - 1].Open? <==> StageAfter(events).value.Opened?
    ensures |events| >= 2 ==> events[..|events| - 1][|events| - 2] == events[|events| - 2]
  {
  }

  // One protocol, and no more.
  ghost predicate OneProtocol(protocol: seq<Event>) {
    protocol != [] && protocol[0].Open? && forall i :: 0 < i < |protocol| ==> !protocol[i].Open?
  }

  // What it begins: a test, where it gets as far as a setup.
  function Begun(protocol: seq<Event>): nat {
    if |protocol| > 1 && protocol[1] == Starts(Setup) then 1 else 0
  }

  lemma {:induction false} ProtocolBegins(before: seq<Event>, protocol: seq<Event>)
    requires OneProtocol(protocol)
    ensures Tests(before + protocol) == Tests(before) + Begun(protocol)
    decreases |protocol|
  {
    var n := |protocol| - 1;
    var all := before + protocol;
    assert all[..|all| - 1] == before + protocol[..n];
    if n == 0 {
      assert before + protocol[..n] == before;
    } else {
      ProtocolBegins(before, protocol[..n]);
      assert all[|all| - 2] == protocol[n - 1];
    }
  }

  // One whole protocol of any number of attempts counts one test, begun and
  // finished, from whatever was counted before; one that ends before its first
  // setup counts none.
  lemma ProtocolCountsOne(before: seq<Event>, protocol: seq<Event>)
    requires StageAfter(before) == Some(Outside) && StageAfter(before + protocol) == Some(Outside)
    requires OneProtocol(protocol)
    ensures var s, t := SlotAfter(before).written, SlotAfter(before + protocol).written;
            && t.testsStarted == s.testsStarted + Begun(protocol)
            && t.testsFinished == s.testsFinished + Begun(protocol)
            && t.testsFinished == t.testsStarted
  {
    ProtocolBegins(before, protocol);
    SlotCountsTests(before);
    SlotCountsTests(before + protocol);
  }

  // `n` attempts at one test, whether or not it is called in them.
  function Attempts(called: seq<bool>): seq<Event> {
    if called == [] then []
    else Attempts(called[..|called| - 1]) + Attempt(called[|called| - 1])
  }

  function Attempt(called: bool): seq<Event> {
    [Starts(Setup), Ends(Setup)] + (if called then [Starts(Call), Ends(Call)] else [])
    + [Starts(Teardown), Ends(Teardown)]
  }

  lemma StageOn(events: seq<Event>, e: Event, at: Stage)
    requires StageAfter(events) == Some(at)
    ensures StageAfter(events + [e]) == Follow(at, e)
  {
    assert (events + [e])[..|events|] == events;
  }

  lemma AttemptGoes(events: seq<Event>, called: bool, nodeid: string, attempt: nat)
    requires attempt >= 1
    requires StageAfter(events) == Some(if attempt == 1 then Opened(nodeid) else Torn(nodeid, attempt - 1))
    ensures StageAfter(events + Attempt(called)) == Some(Torn(nodeid, attempt))
  {
    hide StageAfter;
    var e := events;
    StageOn(e, Starts(Setup), if attempt == 1 then Opened(nodeid) else Torn(nodeid, attempt - 1));
    e := e + [Starts(Setup)];
    StageOn(e, Ends(Setup), Inside(nodeid, attempt, Setup));
    e := e + [Ends(Setup)];
    if called {
      StageOn(e, Starts(Call), Between(nodeid, attempt, Setup));
      e := e + [Starts(Call)];
      StageOn(e, Ends(Call), Inside(nodeid, attempt, Call));
      e := e + [Ends(Call)];
    }
    StageOn(e, Starts(Teardown), Between(nodeid, attempt, if called then Call else Setup));
    e := e + [Starts(Teardown)];
    StageOn(e, Ends(Teardown), Inside(nodeid, attempt, Teardown));
    e := e + [Ends(Teardown)];
    assert e == events + Attempt(called);
  }

  lemma {:induction false} AttemptsGo(events: seq<Event>, called: seq<bool>, nodeid: string)
    requires StageAfter(events) == Some(Opened(nodeid))
    ensures StageAfter(events + Attempts(called))
            == Some(if called == [] then Opened(nodeid) else Torn(nodeid, |called|))
    ensures forall i :: 0 <= i < |Attempts(called)| ==> !Attempts(called)[i].Open?
    ensures called != [] ==> Attempts(called) != [] && Attempts(called)[0] == Starts(Setup)
    decreases |called|
  {
    hide StageAfter;
    if called == [] {
      assert events + Attempts(called) == events;
    } else {
      var n := |called| - 1;
      AttemptsGo(events, called[..n], nodeid);
      AttemptGoes(events + Attempts(called[..n]), called[n], nodeid, |called|);
      assert events + Attempts(called) == events + Attempts(called[..n]) + Attempt(called[n]);
    }
  }

  // A test set up, called or not, and torn down any number of times is one
  // test, begun and finished; the protocol allows it from wherever none is open.
  lemma AnyAttemptsCountOne(before: seq<Event>, nodeid: string, called: seq<bool>)
    requires StageAfter(before) == Some(Outside) && called != []
    ensures var events := before + ([Open(nodeid)] + Attempts(called) + [Close]);
            && StageAfter(events) == Some(Outside)
            && SlotAfter(events).written.testsStarted == SlotAfter(before).written.testsStarted + 1
            && SlotAfter(events).written.testsFinished == SlotAfter(before).written.testsFinished + 1
  {
    hide StageAfter, SlotAfter, Attempts;
    var protocol := [Open(nodeid)] + Attempts(called) + [Close];
    StageOn(before, Open(nodeid), Outside);
    AttemptsGo(before + [Open(nodeid)], called, nodeid);
    StageOn(before + [Open(nodeid)] + Attempts(called), Close, Torn(nodeid, |called|));
    assert before + protocol == before + [Open(nodeid)] + Attempts(called) + [Close];
    assert protocol[1] == Attempts(called)[0];
    ProtocolCountsOne(before, protocol);
  }

  // ---- the reader's join ----

  // A field of a record something else could have written.
  datatype Json = Int(value: int) | Bool(flag: bool) | Other

  function Count(value: Json): Option<nat> {
    if value.Int? && value.value >= 0 then Some(value.value) else None
  }

  // The total a worker was given, and how much of it is running and queued.
  function Progress(allotted: Json, started: Json, finished: Json): (Option<nat>, Option<nat>, Option<nat>) {
    var total := Count(allotted);
    if total.None? then (None, None, None)
    else
      var f, s := Count(finished), Count(started);
      if f.None? || s.None? || f.value > s.value then (total, None, None)
      else
        var most := Max(total.value, s.value);
        (Some(most), Some(s.value - f.value), Some(most - s.value))
  }

  // A row is never one that cannot be true: joined with a schedule row of any
  // other instant, however late or early, what is finished, running and
  // queued adds up to the total, nothing is negative, and one test at most runs.
  lemma JoinIsPossible(events: seq<Event>, allotted: nat)
    requires StageAfter(events).Some?
    ensures var w := SlotAfter(events).written;
            var (total, running, queued) := Progress(Int(allotted), Int(w.testsStarted), Int(w.testsFinished));
            && total.Some? && running.Some? && queued.Some?
            && w.testsFinished + running.value + queued.value == total.value
            && running.value <= 1 && (running.value == 1 <==> w.nodeid.Some?)
            && total.value >= allotted && (w.testsStarted <= allotted ==> total.value == allotted)
  {
    SlotCountsTests(events);
  }

  // Over any record at all, the split is given exactly where it can be true.
  lemma SplitIffPossible(allotted: Json, started: Json, finished: Json)
    ensures var (total, running, queued) := Progress(allotted, started, finished);
            && (total.Some? <==> allotted.Int? && allotted.value >= 0)
            && (running.Some? <==> queued.Some?)
            && (running.Some? <==> total.Some? && started.Int? && finished.Int? && 0 <= finished.value <= started.value)
            && (running.Some? ==> finished.value + running.value + queued.value == total.value)
  {
  }
}
