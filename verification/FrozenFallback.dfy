// The process's one C timer, pushed forward by every tick of the heartbeat's
// thread so that it can only go off once nothing runs, and stood down when the
// heartbeat is stopped. A step is one read or write that the two threads share.
module FrozenFallback {
  import opened Basics

  const MISSED_BEATS: int := 3

  // The timer has one deadline, whoever aimed it.
  datatype Timer = Unset | Ours(deadline: int) | Another(deadline: int)

  // The heartbeat's thread: waiting for its next wake, or inside `rearm`.
  datatype Beat = Wait | ReadEnabled | SetArmed | Arm | Gone

  // `Heartbeat.stop`, and the fallback's own `stop` at its end.
  datatype Stop = SetStop | Join | ClearEnabled | ReadArmed | Cancel | ClearArmed | Stopped

  // `attempted`: whether the timer was ever about to be aimed here; `armedAt`:
  // when it last was; `foreign`: what the timer would be, had nobody here touched it.
  datatype State = State(clock: int, interval: int, timer: Timer, enabled: bool, armed: bool, stop: bool,
                         beat: Beat, stopper: Stop, joined: bool, attempted: bool, armedAt: Option<int>,
                         fired: seq<int>, foreign: Timer)

  function Start(clock: int, interval: int, enabled: bool, foreign: Timer): State {
    State(clock, interval, foreign, enabled, false, false, Wait, SetStop, false, false, None, [], foreign)
  }

  datatype Move =
    | Beats(fails: bool)      // a step of the heartbeat's thread; its arm may fail
    | Stops(patient: bool)    // a step of stop; its join is bounded, and may give up
    | Passes(ms: nat)
    | Fires                   // a deadline that has passed goes off
    | Others(timer: Timer)    // someone else aims or cancels the timer

  function BeatStep(s: State, fails: bool): State {
    match s.beat
    case Wait => s.(beat := if s.stop then Gone else ReadEnabled)
    case ReadEnabled => s.(beat := if s.enabled then SetArmed else Wait)
    case SetArmed => s.(armed := true, attempted := true, beat := Arm)
    case Arm =>
      if fails then s.(enabled := false, beat := Wait)
      else s.(timer := Ours(s.clock + MISSED_BEATS * s.interval), armedAt := Some(s.clock), beat := Wait)
    case Gone => s
  }

  function StopStep(s: State, patient: bool): State {
    match s.stopper
    case SetStop => s.(stop := true, stopper := Join)
    case Join =>
      if s.beat.Gone? then s.(joined := true, stopper := ClearEnabled)
      else if patient then s
      else s.(stopper := ClearEnabled)
    case ClearEnabled => s.(enabled := false, stopper := ReadArmed)
    case ReadArmed => s.(stopper := if s.armed then Cancel else Stopped)
    case Cancel => s.(timer := Unset, stopper := ClearArmed)
    case ClearArmed => s.(armed := false, stopper := Stopped)
    case Stopped => s
  }

  function Fired(t: Timer, clock: int): Timer {
    if !t.Unset? && t.deadline <= clock then Unset else t
  }

  function Turn(s: State, move: Move): State {
    match move
    case Beats(fails) => BeatStep(s, fails)
    case Stops(patient) => StopStep(s, patient)
    case Passes(ms) => s.(clock := s.clock + ms)
    case Fires =>
      s.(timer := Fired(s.timer, s.clock), foreign := Fired(s.foreign, s.clock),
         fired := if s.timer.Ours? && s.timer.deadline <= s.clock then s.fired + [s.clock] else s.fired)
    case Others(timer) => if timer.Ours? then s else s.(timer := timer, foreign := timer)
  }

  function Run(s: State, moves: seq<Move>): State {
    if moves == [] then s else Turn(Run(s, moves[..|moves| - 1]), moves[|moves| - 1])
  }

  // ---- what every run keeps ----

  // Before the cancel: the flag is up wherever a deadline is, or is about to be.
  predicate BeforeCancel(p: Stop) {
    !p.ClearArmed? && !p.Stopped?
  }

  predicate Inv(s: State) {
    && (s.timer.Ours? ==>
          s.attempted && s.armedAt.Some? && s.timer.deadline == s.armedAt.value + MISSED_BEATS * s.interval)
    && (s.armed || s.beat.Arm? ==> s.attempted)
    && (BeforeCancel(s.stopper) && (s.timer.Ours? || s.beat.Arm?) ==> s.armed)
    && (s.stopper.Cancel? ==> s.armed)
    && (!s.attempted ==> s.timer == s.foreign)
    && (s.joined ==> s.beat.Gone? && !s.stopper.SetStop? && !s.stopper.Join?)
    && (s.joined && !BeforeCancel(s.stopper) ==> !s.timer.Ours?)
    && (s.joined && s.stopper.Stopped? ==> !s.armed)
    && (forall k :: 0 <= k < |s.fired| ==> s.fired[k] <= s.clock)
  }

  lemma BeatKeepsInv(s: State, fails: bool)
    requires Inv(s)
    ensures Inv(BeatStep(s, fails)) && BeatStep(s, fails).interval == s.interval
  {
  }

  lemma StopKeepsInv(s: State, patient: bool)
    requires Inv(s)
    ensures Inv(StopStep(s, patient)) && StopStep(s, patient).interval == s.interval
  {
  }

  lemma TurnKeepsInv(s: State, move: Move)
    requires Inv(s)
    ensures Inv(Turn(s, move)) && Turn(s, move).interval == s.interval
  {
    hide BeatStep, StopStep;
    match move {
      case Beats(fails) => BeatKeepsInv(s, fails);
      case Stops(patient) => StopKeepsInv(s, patient);
      case _ =>
    }
  }

  lemma {:induction false} RunKeepsInv(s: State, moves: seq<Move>)
    requires Inv(s)
    ensures Inv(Run(s, moves)) && Run(s, moves).interval == s.interval
  {
    hide Inv, Turn;
    if moves != [] {
      RunKeepsInv(s, moves[..|moves| - 1]);
      TurnKeepsInv(Run(s, moves[..|moves| - 1]), moves[|moves| - 1]);
    }
  }

  lemma StartsRight(clock: int, interval: int, enabled: bool, foreign: Timer)
    requires !foreign.Ours?
    ensures Inv(Start(clock, interval, enabled, foreign))
  {
  }

  lemma {:induction false} RunConcat(s: State, a: seq<Move>, b: seq<Move>)
    ensures Run(s, a + b) == Run(Run(s, a), b)
  {
    hide Turn;
    if b == [] {
      assert a + b == a;
    } else {
      RunConcat(s, a, b[..|b| - 1]);
      assert (a + b)[..|a + b| - 1] == a + b[..|b| - 1];
    }
  }

  // ---- it goes off only on silence ----

  // Aimed at `since` or later.
  predicate Remembers(s: State, since: int) {
    s.armedAt.Some? && since <= s.armedAt.value && since <= s.clock
  }

  lemma BeatRemembers(s: State, fails: bool, since: int)
    requires Remembers(s, since)
    ensures Remembers(BeatStep(s, fails), since)
  {
  }

  lemma StopRemembers(s: State, patient: bool, since: int)
    requires Remembers(s, since)
    ensures Remembers(StopStep(s, patient), since)
  {
  }

  lemma {:induction false} RunRemembers(s: State, moves: seq<Move>, since: int)
    requires Remembers(s, since)
    ensures Remembers(Run(s, moves), since)
  {
    hide BeatStep, StopStep;
    if moves != [] {
      var t := Run(s, moves[..|moves| - 1]);
      RunRemembers(s, moves[..|moves| - 1], since);
      match moves[|moves| - 1] {
        case Beats(fails) => BeatRemembers(t, fails, since);
        case Stops(patient) => StopRemembers(t, patient, since);
        case _ =>
      }
    }
  }

  // After any tick that aimed it, and whatever happens then, it does not go
  // off until three intervals have passed.
  lemma FiresOnlyOnSilence(clock: int, interval: int, enabled: bool, foreign: Timer, before: seq<Move>,
                           after: seq<Move>)
    requires !foreign.Ours? && Run(Start(clock, interval, enabled, foreign), before).beat.Arm?
    ensures var s := Run(Start(clock, interval, enabled, foreign), before);
            var t := Run(s, [Beats(false)] + after);
            |Turn(t, Fires).fired| > |t.fired| ==> t.clock - s.clock >= MISSED_BEATS * interval
  {
    var start := Start(clock, interval, enabled, foreign);
    var s := Run(start, before);
    var armed := Turn(s, Beats(false));
    StartsRight(clock, interval, enabled, foreign);
    RunKeepsInv(start, before);
    assert [Beats(false)][..0] == [];
    RunConcat(s, [Beats(false)], after);
    RunRemembers(armed, after, s.clock);
    RunKeepsInv(s, [Beats(false)] + after);
  }

  // And on silence it does: once aimed, with nothing else happening, it goes
  // off as soon as three intervals have passed.
  lemma FiresOnSilence(s: State, ms: nat)
    requires s.beat.Arm?
    ensures var armed := Turn(s, Beats(false));
            var t := Turn(Turn(armed, Passes(ms)), Fires);
            && armed.timer == Ours(s.clock + MISSED_BEATS * s.interval) && armed.beat.Wait?
            && (ms >= MISSED_BEATS * s.interval ==> t.fired == s.fired + [s.clock + ms] && t.timer.Unset?)
            && (ms < MISSED_BEATS * s.interval ==> t.fired == s.fired && t.timer == armed.timer)
  {
  }

  // A tick of an enabled fallback ends by aiming the timer, of a disabled one
  // without; either way the thread waits for its next wake.
  lemma TickAims(s: State)
    requires s.beat.ReadEnabled?
    ensures var t := if s.enabled then Turn(Turn(Turn(s, Beats(false)), Beats(false)), Beats(false))
            else Turn(s, Beats(false));
            && t.beat.Wait?
            && t.timer == (if s.enabled then Ours(s.clock + MISSED_BEATS * s.interval) else s.timer)
  {
  }

  // A timer that could not be aimed once is not tried again.
  predicate GivenUp(s: State) {
    !s.enabled && !s.beat.SetArmed? && !s.beat.Arm?
  }

  lemma {:induction false} FailureIsFinal(s: State, moves: seq<Move>)
    requires s.beat.Arm?
    ensures var t := Run(Turn(s, Beats(true)), moves); GivenUp(t) && t.armedAt == s.armedAt
    decreases |moves|
  {
    hide Turn, GivenUp;
    if moves == [] {
      GivesUp(s);
    } else {
      FailureIsFinal(s, moves[..|moves| - 1]);
      StaysGivenUp(Run(Turn(s, Beats(true)), moves[..|moves| - 1]), moves[|moves| - 1]);
    }
  }

  lemma GivesUp(s: State)
    requires s.beat.Arm?
    ensures GivenUp(Turn(s, Beats(true))) && Turn(s, Beats(true)).armedAt == s.armedAt
  {
  }

  lemma StaysGivenUp(s: State, move: Move)
    requires GivenUp(s)
    ensures GivenUp(Turn(s, move)) && Turn(s, move).armedAt == s.armedAt
  {
  }

  // ---- it never outlives a heartbeat that joined its thread ----

  // A stop that never gives up its join has joined once it is past it, so no
  // deadline is left when it is done.
  lemma {:induction false} PatientStopJoins(clock: int, interval: int, enabled: bool, foreign: Timer, moves: seq<Move>)
    requires !foreign.Ours? && forall k :: 0 <= k < |moves| ==> moves[k] != Stops(false)
    ensures var s := Run(Start(clock, interval, enabled, foreign), moves);
            && (s.joined <==> !s.stopper.SetStop? && !s.stopper.Join?)
            && (s.stopper.Stopped? ==> !s.timer.Ours? && !s.armed)
    decreases |moves|
  {
    hide Turn;
    var start := Start(clock, interval, enabled, foreign);
    StartsRight(clock, interval, enabled, foreign);
    RunKeepsInv(start, moves);
    if moves != [] {
      PatientStopJoins(clock, interval, enabled, foreign, moves[..|moves| - 1]);
      PatientTurn(Run(start, moves[..|moves| - 1]), moves[|moves| - 1]);
    }
  }

  lemma PatientTurn(s: State, move: Move)
    requires move != Stops(false) && (s.joined <==> !s.stopper.SetStop? && !s.stopper.Join?)
    ensures var t := Turn(s, move); t.joined <==> !t.stopper.SetStop? && !t.stopper.Join?
  {
    hide BeatStep;
    if move.Beats? {
      BeatLeavesStop(s, move.fails);
    }
  }

  lemma BeatLeavesStop(s: State, fails: bool)
    ensures BeatStep(s, fails).stopper == s.stopper && BeatStep(s, fails).joined == s.joined
  {
  }

  lemma NothingOutlivesAJoin(clock: int, interval: int, enabled: bool, foreign: Timer, moves: seq<Move>)
    requires !foreign.Ours?
    ensures var s := Run(Start(clock, interval, enabled, foreign), moves);
            s.stopper.Stopped? && s.joined ==> !s.timer.Ours?
  {
    StartsRight(clock, interval, enabled, foreign);
    RunKeepsInv(Start(clock, interval, enabled, foreign), moves);
  }

  // One that never aimed the timer never touches another's.
  lemma NeverArmedNeverCancels(clock: int, interval: int, enabled: bool, foreign: Timer, moves: seq<Move>)
    requires !foreign.Ours?
    ensures var s := Run(Start(clock, interval, enabled, foreign), moves); !s.attempted ==> s.timer == s.foreign
    ensures !enabled ==> !Run(Start(clock, interval, enabled, foreign), moves).attempted
  {
    StartsRight(clock, interval, enabled, foreign);
    RunKeepsInv(Start(clock, interval, enabled, foreign), moves);
    if !enabled {
      StaysDisabled(Start(clock, interval, enabled, foreign), moves);
      assert Disabled(Run(Start(clock, interval, enabled, foreign), moves));
    }
  }

  predicate Disabled(s: State) {
    !s.enabled && !s.attempted && (s.beat.Wait? || s.beat.ReadEnabled? || s.beat.Gone?)
  }

  lemma {:induction false} StaysDisabled(s: State, moves: seq<Move>)
    requires Disabled(s)
    ensures Disabled(Run(s, moves))
  {
    hide Disabled, Turn;
    if moves != [] {
      StaysDisabled(s, moves[..|moves| - 1]);
      DisabledTurn(Run(s, moves[..|moves| - 1]), moves[|moves| - 1]);
    }
  }

  lemma DisabledTurn(s: State, move: Move)
    requires Disabled(s)
    ensures Disabled(Turn(s, move))
  {
  }

  // ---- and where it can ----

  // The tick is past the check that would have turned it back.
  predicate PastItsCheck(b: Beat) {
    b.SetArmed? || b.Arm?
  }

  // Some run from `s` leaves the timer aimed here once stop has returned.
  ghost predicate MayOutlive(s: State) {
    exists moves :: Outlives(s, moves)
  }

  ghost predicate Outlives(s: State, moves: seq<Move>) {
    Run(s, moves).stopper.Stopped? && Run(s, moves).timer.Ours?
  }

  predicate Quiet(s: State) {
    && !s.enabled && !PastItsCheck(s.beat) && !s.stopper.SetStop? && !s.stopper.Join? && !s.stopper.ClearEnabled?
    && (s.timer.Ours? ==> s.armed && BeforeCancel(s.stopper))
  }

  lemma {:induction false} QuietStays(s: State, moves: seq<Move>)
    requires Quiet(s)
    ensures Quiet(Run(s, moves))
  {
    hide Quiet, Turn;
    if moves != [] {
      QuietStays(s, moves[..|moves| - 1]);
      QuietTurn(Run(s, moves[..|moves| - 1]), moves[|moves| - 1]);
    }
  }

  lemma QuietTurn(s: State, move: Move)
    requires Quiet(s)
    ensures Quiet(Turn(s, move))
  {
  }

  // Clearing the flag does not turn every racing tick back. Once stop has
  // cleared it, a deadline may outlive stop exactly if a tick was already past
  // its check of the flag.
  lemma OutlivesIffPastItsCheck(s: State)
    requires Inv(s) && s.stopper.ReadArmed? && !s.enabled
    ensures MayOutlive(s) <==> PastItsCheck(s.beat)
  {
    if PastItsCheck(s.beat) {
      var moves := Overtaken(s);
    } else {
      forall moves
        ensures !Outlives(s, moves)
      {
        QuietStays(s, moves);
      }
    }
  }

  // And a run of the whole does come to that: the tick has passed its check
  // when stop gives up its join and clears the flag.
  lemma RaceIsReachable(clock: int, interval: int, foreign: Timer) returns (moves: seq<Move>)
    requires !foreign.Ours?
    ensures var s := Run(Start(clock, interval, true, foreign), moves);
            Inv(s) && s.stopper.ReadArmed? && !s.enabled && PastItsCheck(s.beat) && MayOutlive(s)
    ensures MayOutlive(Start(clock, interval, true, foreign))
  {
    var start := Start(clock, interval, true, foreign);
    moves := [];
    var race := [Beats(false), Beats(false), Stops(true), Stops(false), Stops(true)];
    var s := start;
    for k := 0 to |race|
      invariant moves == race[..k] && s == Run(start, moves)
      invariant k == 0 ==> s == start
      invariant k == 1 ==> s == start.(beat := ReadEnabled)
      invariant k == 2 ==> s == start.(beat := SetArmed)
      invariant k == 3 ==> s == start.(beat := SetArmed, stop := true, stopper := Join)
      invariant k == 4 ==> s == start.(beat := SetArmed, stop := true, stopper := ClearEnabled)
      invariant k == 5 ==> s == start.(beat := SetArmed, stop := true, stopper := ReadArmed, enabled := false)
    {
      assert (moves + [race[k]])[..|moves|] == moves;
      s, moves := Turn(s, race[k]), moves + [race[k]];
    }
    StartsRight(clock, interval, true, foreign);
    RunKeepsInv(start, moves);
    var rest := Overtaken(s);
    assert Outlives(s, rest);
    RunConcat(start, moves, rest);
    assert Outlives(start, moves + rest);
  }

  // Stop runs to its end, and then the tick to its.
  lemma Overtaken(s: State) returns (moves: seq<Move>)
    requires Inv(s) && s.stopper.ReadArmed? && PastItsCheck(s.beat)
    ensures Outlives(s, moves)
  {
    var t := s;
    moves := [];
    while !t.stopper.Stopped?
      invariant t == Run(s, moves) && t.beat == s.beat
      invariant t.stopper.ReadArmed? || t.stopper.Cancel? || t.stopper.ClearArmed? || t.stopper.Stopped?
      decreases if t.stopper.ReadArmed? then 3 else if t.stopper.Cancel? then 2 else if t.stopper.ClearArmed? then 1
                else 0
    {
      assert (moves + [Stops(true)])[..|moves|] == moves;
      t, moves := Turn(t, Stops(true)), moves + [Stops(true)];
    }
    if t.beat.SetArmed? {
      assert (moves + [Beats(false)])[..|moves|] == moves;
      t, moves := Turn(t, Beats(false)), moves + [Beats(false)];
    }
    assert (moves + [Beats(false)])[..|moves|] == moves;
    t, moves := Turn(t, Beats(false)), moves + [Beats(false)];
  }
}
