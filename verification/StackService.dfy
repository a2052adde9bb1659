// The live stack server: one thread claims the port and serves, and the
// session's end stops it. The two meet only in `_stop`, `_httpd` and
// `_accepting`, and in the two flags the standard library's server keeps:
// a request to shut down, and an event its accept loop sets as it leaves.
// A step is one read or write of something both threads can see.
module StackService {
  import opened Basics

  // In milliseconds.
  const ACCEPT_LOOP_TIMEOUT: nat := 5000
  const ACCEPT_LOOP_POLL: nat := 50
  const RECLAIM_TIME: nat := 5000
  const JOIN_TIMEOUT: nat := 5000

  // Where the claiming thread is: what it does next.
  datatype Claiming =
    | Construct            // construct the server, or find that it cannot be
    | SetHandle
    | ReadStop
    | Withdraw             // drop the handle of a server never served from
    | CloseUnserved

  datatype Serving =
    | Publish
    | MarkServing
    | SetAccepting
    | EnterLoop            // serve_forever clears the shut-down event
    | Accept               // one turn of its loop
    | ClearRequest         // its last two writes
    | SetShutDown

  datatype Leaving = StopServing | DropHandle | Retract | CloseServed

  // After a claim that failed.
  datatype Waiting = AskStop | WaitForStop(until: nat) | TryAgain

  datatype Claimer = Claims(c: Claiming) | Serves(v: Serving) | Leaves(l: Leaving) | Waits(w: Waiting) | Done

  // Where `stop` is.
  datatype Polling = AwaitAccepting | CheckHandle | CheckClock

  datatype Stopper =
    | SetStop
    | ReadHandle
    | Decide(seen: bool)
    | Polls(at: Polling, deadline: nat, pollEnd: nat)
    | Request
    | AwaitShutDown
    | Join
    | Joining(until: nat)
    | Returned

  // What the threads share: the service's own flags and its server's.
  datatype Flags = Flags(stop: bool, handle: bool, accepting: bool, request: bool, shutDown: bool)

  // What a reader of the run sees of the server.
  datatype Server = Server(serving: bool, published: bool, built: nat, closes: nat)

  datatype State = State(clock: nat, flags: Flags, server: Server, claimer: Claimer, stopper: Stopper,
                         gaveUpAccepting: bool, gaveUpJoining: bool)

  const START := State(0, Flags(false, false, false, false, false), Server(false, false, 0, 0),
                       Claims(Construct), SetStop, false, false)

  // How a step that the program does not decide goes.
  datatype Chance = Bound | Contended | Refused | Quiet | Raised

  // What one step of the claiming thread writes, and where it goes next.
  datatype Step = Step(flags: Flags, server: Server, claimer: Claimer)

  // ---- the claiming thread ----

  predicate ClaimerReady(s: State) {
    !s.claimer.Done? && (s.claimer.Waits? && s.claimer.w.WaitForStop? ==> s.flags.stop || s.claimer.w.until <= s.clock)
  }

  function ClaimStep(f: Flags, server: Server, at: Claiming, chance: Chance): Step {
    match at
    case Construct =>
      if chance.Bound? then Step(f, server.(built := server.built + 1), Claims(SetHandle))
      else Step(f, server, if chance.Contended? then Waits(AskStop) else Done)
    case SetHandle => Step(f.(handle := true), server, Claims(ReadStop))
    case ReadStop => Step(f, server, if f.stop then Claims(Withdraw) else Serves(Publish))
    case Withdraw => Step(f.(handle := false), server, Claims(CloseUnserved))
    case CloseUnserved => Step(f, server.(closes := server.closes + 1), Done)
  }

  function ServeStep(f: Flags, server: Server, at: Serving, chance: Chance): Step {
    match at
    case Publish => Step(f, server.(published := !chance.Raised?), Serves(MarkServing))
    case MarkServing => Step(f, server.(serving := true), Serves(SetAccepting))
    case SetAccepting => Step(f.(accepting := true), server, Serves(EnterLoop))
    case EnterLoop => Step(f.(shutDown := false), server, Serves(Accept))
    case Accept => Step(f, server, if f.request || chance.Raised? then Serves(ClearRequest) else Serves(Accept))
    case ClearRequest => Step(f.(request := false), server, Serves(SetShutDown))
    case SetShutDown => Step(f.(shutDown := true), server, Leaves(StopServing))
  }

  function LeaveStep(f: Flags, server: Server, at: Leaving): Step {
    match at
    case StopServing => Step(f, server.(serving := false), Leaves(DropHandle))
    case DropHandle => Step(f.(handle := false), server, Leaves(Retract))
    case Retract => Step(f, server.(published := false), Leaves(CloseServed))
    case CloseServed => Step(f, server.(closes := server.closes + 1), Done)
  }

  function WaitStep(f: Flags, at: Waiting, clock: nat): Claimer {
    match at
    case AskStop => if f.stop then Done else Waits(WaitForStop(clock + RECLAIM_TIME))
    case WaitForStop(_) => if f.stop then Done else Waits(TryAgain)
    case TryAgain => Claims(Construct)
  }

  function ClaimerStep(f: Flags, server: Server, at: Claimer, clock: nat, chance: Chance): Step {
    match at
    case Claims(c) => ClaimStep(f, server, c, chance)
    case Serves(v) => ServeStep(f, server, v, chance)
    case Leaves(l) => LeaveStep(f, server, l)
    case Waits(w) => Step(f, server, WaitStep(f, w, clock))
    case Done => Step(f, server, Done)
  }

  // ---- the stopping thread ----

  predicate StopperReady(s: State) {
    match s.stopper
    case Polls(at, _, pollEnd) => at.AwaitAccepting? ==> s.flags.accepting || pollEnd <= s.clock
    case AwaitShutDown => s.flags.shutDown
    case Joining(until) => s.claimer.Done? || until <= s.clock
    case Returned => false
    case _ => true
  }

  // Where `stop` goes from a step, by what it reads.
  function StopperStep(f: Flags, at: Stopper, clock: nat): Stopper {
    match at
    case SetStop => ReadHandle
    case ReadHandle => Decide(f.handle)
    case Decide(seen) =>
      if seen then Polls(AwaitAccepting, clock + ACCEPT_LOOP_TIMEOUT, clock + ACCEPT_LOOP_POLL) else Join
    case Polls(_, _, _) => PollStep(f, at, clock)
    case Request => AwaitShutDown
    case AwaitShutDown => Join
    case Join => Joining(clock + JOIN_TIMEOUT)
    case Joining(_) => Returned
    case Returned => Returned
  }

  function PollStep(f: Flags, at: Stopper, clock: nat): Stopper
    requires at.Polls?
  {
    match at.at
    case AwaitAccepting => if f.accepting then Request else at.(at := CheckHandle)
    case CheckHandle => if !f.handle then Join else at.(at := CheckClock)
    case CheckClock => if at.deadline <= clock then Join
        else Polls(AwaitAccepting, at.deadline, clock + ACCEPT_LOOP_POLL)
  }

  function StopperNext(s: State): State {
    var next := StopperStep(s.flags, s.stopper, s.clock);
    s.(flags := if s.stopper.SetStop? then s.flags.(stop := true)
                else if s.stopper.Request? then s.flags.(request := true)
                else s.flags,
       stopper := next,
       gaveUpAccepting := s.gaveUpAccepting || (s.stopper.Polls? && s.stopper.at.CheckClock? && next.Join?),
       gaveUpJoining := s.gaveUpJoining || (s.stopper.Joining? && !s.claimer.Done?))
  }

  // ---- runs ----

  // Whose turn it is. A thread that is blocked spends its turn waiting.
  datatype Move = Claim(chance: Chance) | Stop | Tick(ms: nat)

  function Turn(s: State, turn: Move): State {
    match turn
    case Claim(chance) =>
      if ClaimerReady(s) then
        var n := ClaimerStep(s.flags, s.server, s.claimer, s.clock, chance);
        s.(flags := n.flags, server := n.server, claimer := n.claimer)
      else s
    case Stop => if StopperReady(s) then StopperNext(s) else s
    case Tick(ms) => s.(clock := s.clock + ms)
  }

  function Run(s: State, turns: seq<Move>): State {
    if turns == [] then s else Turn(Run(s, turns[..|turns| - 1]), turns[|turns| - 1])
  }

  lemma {:induction false} RunConcat(s: State, a: seq<Move>, b: seq<Move>)
    ensures Run(s, a + b) == Run(Run(s, a), b)
  {
    if b == [] {
      assert a + b == a;
    } else {
      RunConcat(s, a, b[..|b| - 1]);
      assert (a + b)[..|a + b| - 1] == a + b[..|b| - 1];
    }
  }

  // ---- what every run keeps ----

  predicate InLoop(c: Claimer) {
    c.Serves? && (c.v.EnterLoop? || c.v.Accept? || c.v.ClearRequest? || c.v.SetShutDown?)
  }

  predicate ServerInv(server: Server, c: Claimer) {
    && server.built <= 1
    && (c.Waits? || c == Claims(Construct) ==> server.built == 0)
    && (!c.Waits? && c != Claims(Construct) && !c.Done? ==> server.built == 1)
    && server.closes == (if c.Done? then server.built else 0)
    && server.serving == (c == Serves(SetAccepting) || InLoop(c) || c == Leaves(StopServing))
    && (server.published ==> (c.Serves? && !c.v.Publish?) || (c.Leaves? && !c.l.CloseServed?))
  }

  predicate FlagsInv(f: Flags, c: Claimer) {
    && f.handle == (c == Claims(ReadStop) || c == Claims(Withdraw) || c.Serves? || c == Leaves(StopServing)
        || c == Leaves(DropHandle))
    && (f.accepting ==> InLoop(c) || c.Leaves? || c.Done?)
    && (InLoop(c) || c.Leaves? ==> f.accepting)
    && f.shutDown == (f.accepting && !InLoop(c))
    && (c == Claims(Withdraw) || c == Claims(CloseUnserved) ==> f.stop)
  }

  predicate StopperInv(f: Flags, c: Claimer, p: Stopper, gaveUpAccepting: bool, gaveUpJoining: bool) {
    && f.stop == !p.SetStop?
    && (p.Request? || p.AwaitShutDown? ==> f.accepting)
    && (p.AwaitShutDown? && (c == Serves(EnterLoop) || c == Serves(Accept)) ==> f.request)
    && (p == Decide(false) || ((p.Join? || p.Joining? || p.Returned?) && !gaveUpAccepting) ==> !c.Serves?)
    && (p.Returned? && !gaveUpJoining ==> c.Done?)
  }

  // How the deadlines `stop` holds stand to the clock and to each other.
  predicate Paced(clock: nat, p: Stopper) {
    && (p.Polls? ==>
          && p.pollEnd <= clock + (if p.at.AwaitAccepting? then ACCEPT_LOOP_POLL else 0)
          && p.deadline + ACCEPT_LOOP_POLL <= p.pollEnd + ACCEPT_LOOP_TIMEOUT)
    && (p.Joining? ==> p.until <= clock + JOIN_TIMEOUT)
  }

  predicate Inv(s: State) {
    && ServerInv(s.server, s.claimer) && FlagsInv(s.flags, s.claimer)
    && StopperInv(s.flags, s.claimer, s.stopper, s.gaveUpAccepting, s.gaveUpJoining)
    && Paced(s.clock, s.stopper)
  }

  lemma ClaimKeeps(f: Flags, server: Server, at: Claiming, chance: Chance)
    requires ServerInv(server, Claims(at)) && FlagsInv(f, Claims(at))
    ensures var n := ClaimStep(f, server, at, chance); ServerInv(n.server, n.claimer) && FlagsInv(n.flags, n.claimer)
  {
  }

  lemma ServeKeeps(f: Flags, server: Server, at: Serving, chance: Chance)
    requires ServerInv(server, Serves(at)) && FlagsInv(f, Serves(at))
    ensures var n := ServeStep(f, server, at, chance); ServerInv(n.server, n.claimer) && FlagsInv(n.flags, n.claimer)
  {
  }

  lemma LeaveKeeps(f: Flags, server: Server, at: Leaving)
    requires ServerInv(server, Leaves(at)) && FlagsInv(f, Leaves(at))
    ensures var n := LeaveStep(f, server, at); ServerInv(n.server, n.claimer) && FlagsInv(n.flags, n.claimer)
  {
  }

  lemma WaitKeeps(f: Flags, server: Server, at: Waiting, clock: nat)
    requires ServerInv(server, Waits(at)) && FlagsInv(f, Waits(at))
    ensures ServerInv(server, WaitStep(f, at, clock)) && FlagsInv(f, WaitStep(f, at, clock))
  {
  }

  lemma ClaimerKeepsInv(f: Flags, server: Server, c: Claimer, clock: nat, chance: Chance)
    requires ServerInv(server, c) && FlagsInv(f, c) && !c.Done?
    ensures var n := ClaimerStep(f, server, c, clock, chance);
            ServerInv(n.server, n.claimer) && FlagsInv(n.flags, n.claimer)
  {
    hide ServerInv, FlagsInv, ClaimStep, ServeStep, LeaveStep, WaitStep;
    match c {
      case Claims(at) => ClaimKeeps(f, server, at, chance);
      case Serves(at) => ServeKeeps(f, server, at, chance);
      case Leaves(at) => LeaveKeeps(f, server, at);
      case Waits(at) => WaitKeeps(f, server, at, clock);
      case Done =>
    }
  }

  lemma ClaimerKeepsStopper(f: Flags, server: Server, c: Claimer, clock: nat, chance: Chance, p: Stopper,
                            gaveUpAccepting: bool, gaveUpJoining: bool)
    requires FlagsInv(f, c) && !c.Done? && StopperInv(f, c, p, gaveUpAccepting, gaveUpJoining)
    ensures var n := ClaimerStep(f, server, c, clock, chance);
            StopperInv(n.flags, n.claimer, p, gaveUpAccepting, gaveUpJoining)
  {
  }

  lemma StopperKeepsInv(s: State)
    requires Inv(s) && StopperReady(s)
    ensures Inv(StopperNext(s))
  {
  }

  lemma TickKeepsInv(s: State, ms: nat)
    requires Inv(s)
    ensures Inv(s.(clock := s.clock + ms))
  {
  }

  lemma TurnKeepsInv(s: State, turn: Move)
    requires Inv(s)
    ensures Inv(Turn(s, turn))
  {
    hide ClaimerStep, StopperNext, ServerInv, FlagsInv, StopperInv, StopperReady, Paced;
    match turn {
      case Claim(chance) =>
        if ClaimerReady(s) {
          ClaimerKeepsInv(s.flags, s.server, s.claimer, s.clock, chance);
          ClaimerKeepsStopper(s.flags, s.server, s.claimer, s.clock, chance, s.stopper, s.gaveUpAccepting,
              s.gaveUpJoining);
        }
      case Stop =>
        if StopperReady(s) {
          StopperKeepsInv(s);
        }
      case Tick(ms) => TickKeepsInv(s, ms);
    }
  }

  lemma {:induction false} RunKeepsInv(s: State, turns: seq<Move>)
    requires Inv(s)
    ensures Inv(Run(s, turns))
  {
    hide Inv, Turn;
    if turns != [] {
      RunKeepsInv(s, turns[..|turns| - 1]);
      TurnKeepsInv(Run(s, turns[..|turns| - 1]), turns[|turns| - 1]);
    }
  }

  // ---- safety, in every interleaving ----

  // The server's own shutdown is only ever waited for once the claiming
  // thread is bound to take the step that releases the waiter, or has.
  lemma ShutDownIsReleased(turns: seq<Move>)
    ensures var s := Run(START, turns);
            s.stopper.Request? || s.stopper.AwaitShutDown? ==> s.flags.shutDown || InLoop(s.claimer)
    ensures var s := Run(START, turns);
            s.stopper.AwaitShutDown? && !s.flags.shutDown ==>
              s.claimer == Serves(ClearRequest) || s.claimer == Serves(SetShutDown) || s.flags.request
  {
    RunKeepsInv(START, turns);
  }

  // Either the claim sees the stop flag, or stop sees the handle: a stop that
  // saw no handle finds no server past its stand-down, then or later.
  lemma StopOrHandleIsSeen(turns: seq<Move>, more: seq<Move>)
    requires Run(START, turns).stopper == Decide(false)
    ensures !Run(START, turns + more).claimer.Serves?
  {
    RunKeepsInv(START, turns);
    RunConcat(START, turns, more);
    StaysDown(Run(START, turns), more);
  }

  lemma {:induction false} StaysDown(s: State, turns: seq<Move>)
    requires Inv(s) && s.flags.stop && !s.claimer.Serves?
    ensures !Run(s, turns).claimer.Serves? && Run(s, turns).flags.stop && Inv(Run(s, turns))
  {
    hide Inv, Turn;
    if turns != [] {
      StaysDown(s, turns[..|turns| - 1]);
      TurnKeepsInv(Run(s, turns[..|turns| - 1]), turns[|turns| - 1]);
      TurnStaysDown(Run(s, turns[..|turns| - 1]), turns[|turns| - 1]);
    }
  }

  lemma TurnStaysDown(s: State, turn: Move)
    requires s.flags.stop && !s.claimer.Serves?
    ensures !Turn(s, turn).claimer.Serves? && Turn(s, turn).flags.stop
  {
  }

  // At most one server is ever constructed, none is closed twice or while it
  // serves, and one that the thread is done with has been closed.
  lemma ClosedOnce(turns: seq<Move>)
    ensures var s := Run(START, turns);
            && s.server.closes <= s.server.built <= 1
            && (s.server.closes == 1 ==> !s.server.serving && !s.flags.handle && !s.server.published)
            && (s.claimer.Done? ==> s.server.closes == s.server.built)
            && (s.stopper.Returned? && !s.gaveUpJoining ==> s.claimer.Done?)
  {
    RunKeepsInv(START, turns);
  }

  // ---- what the claiming thread owes ----

  // The address could not be written down.
  predicate PublicationFailed(turns: seq<Move>) {
    turns != [] &&
    (|| PublicationFailed(turns[..|turns| - 1])
     || (Run(START, turns[..|turns| - 1]).claimer == Serves(Publish) && turns[|turns| - 1] == Claim(Raised)))
  }

  // The claim failed for good: not for want of the port, which others let go of.
  predicate ClaimRefused(turns: seq<Move>) {
    turns != [] &&
    (|| ClaimRefused(turns[..|turns| - 1])
     || (Run(START, turns[..|turns| - 1]).claimer == Claims(Construct)
         && turns[|turns| - 1].Claim? && !turns[|turns| - 1].chance.Bound? && !turns[|turns| - 1].chance.Contended?))
  }

  // From before it is said to be up until it is about to be closed.
  predicate Up(c: Claimer) {
    (c.Serves? && !c.v.Publish?) || (c.Leaves? && !c.l.CloseServed?)
  }

  // What the thread has done of what it owes to those who look for the server.
  predicate OwesInv(s: State, failed: bool, refused: bool) {
    && (s.server.published <==> Up(s.claimer) && !failed)
    && (s.server.built == 0 ==> !failed)
    && (s.claimer == Serves(Publish) || s.claimer.Claims? || s.claimer.Waits? ==> !failed && !refused)
    && (s.claimer.Done? && s.server.built == 0 ==> s.flags.stop || refused)
    && (s.claimer.Waits? && s.claimer.w.WaitForStop? ==> s.claimer.w.until <= s.clock + RECLAIM_TIME)
    && s.server.serving == (s.claimer == Serves(SetAccepting) || InLoop(s.claimer) || s.claimer == Leaves(StopServing))
  }

  lemma TurnKeepsOwed(s: State, turn: Move, failed: bool, refused: bool)
    requires Inv(s) && OwesInv(s, failed, refused)
    ensures OwesInv(Turn(s, turn), failed || (s.claimer == Serves(Publish) && turn == Claim(Raised)),
                    refused || (s.claimer == Claims(Construct) && turn.Claim? && !turn.chance.Bound?
                        && !turn.chance.Contended?))
  {
    hide StopperReady, StopperStep, StopperInv, FlagsInv, Paced;
  }

  lemma {:induction false} RunKeepsOwed(turns: seq<Move>)
    ensures OwesInv(Run(START, turns), PublicationFailed(turns), ClaimRefused(turns))
    decreases |turns|
  {
    hide Inv, Turn, OwesInv;
    NothingOwed();
    if turns != [] {
      RunKeepsOwed(turns[..|turns| - 1]);
      RunKeepsInv(START, turns[..|turns| - 1]);
      TurnKeepsOwed(Run(START, turns[..|turns| - 1]), turns[|turns| - 1], PublicationFailed(turns[..|turns| - 1]),
                    ClaimRefused(turns[..|turns| - 1]));
    }
  }

  lemma NothingOwed()
    ensures OwesInv(START, false, false) && Inv(START)
  {
  }

  // In every interleaving the address is written down exactly from before the
  // server is said to be up until before it is closed, unless writing it failed.
  lemma PublishedWhileUp(turns: seq<Move>)
    ensures var s := Run(START, turns); s.server.published <==> Up(s.claimer) && !PublicationFailed(turns)
    ensures var s := Run(START, turns);
            s.server.serving && (forall k :: 0 <= k < |turns| ==> turns[k] != Claim(Raised)) ==> s.server.published
  {
    RunKeepsOwed(turns);
    NoneFailed(turns);
  }

  lemma {:induction false} NoneFailed(turns: seq<Move>)
    ensures (forall k :: 0 <= k < |turns| ==> turns[k] != Claim(Raised)) ==> !PublicationFailed(turns)
    decreases |turns|
  {
    hide Run;
    if turns != [] {
      NoneFailed(turns[..|turns| - 1]);
    }
  }

  // A thread that ends with no server was told to stop, or was refused outright.
  lemma GivesUpOnlyWhenRefused(turns: seq<Move>)
    ensures var s := Run(START, turns);
            s.claimer.Done? && s.server.built == 0 ==> s.flags.stop || ClaimRefused(turns)
  {
    RunKeepsOwed(turns);
  }

  // And one that found the port taken tries for it again, within a reclaim
  // time, as long as it is not told to stop.
  lemma TriesAgain(turns: seq<Move>, chance: Chance)
    requires Run(START, turns).claimer.Waits? && !Run(START, turns).flags.stop
    ensures var s := Run(START, turns);
            var rest := match s.claimer.w
                        case AskStop => [Claim(chance), Tick(RECLAIM_TIME), Claim(chance), Claim(chance)]
                        case WaitForStop(_) => [Tick(RECLAIM_TIME), Claim(chance), Claim(chance)]
                        case TryAgain => [Claim(chance)];
            Run(s, rest).claimer == Claims(Construct)
  {
    RunKeepsOwed(turns);
    var s := Run(START, turns);
    match s.claimer.w {
      case AskStop =>
        Four(s, Claim(chance), Tick(RECLAIM_TIME), Claim(chance), Claim(chance));
      case WaitForStop(_) =>
        Three(s, Tick(RECLAIM_TIME), Claim(chance), Claim(chance));
      case TryAgain =>
        One(s, Claim(chance));
    }
  }

  lemma One(s: State, a: Move)
    ensures Run(s, [a]) == Turn(s, a)
  {
    assert [a][..0] == [];
    assert Run(s, []) == s;
  }

  lemma Three(s: State, a: Move, b: Move, c: Move)
    ensures Run(s, [a, b, c]) == Turn(Turn(Turn(s, a), b), c)
  {
    hide Turn;
    One(s, a);
    assert [a, b, c][..2] == [a, b] && [a, b][..1] == [a];
  }

  lemma Four(s: State, a: Move, b: Move, c: Move, d: Move)
    ensures Run(s, [a, b, c, d]) == Turn(Turn(Turn(Turn(s, a), b), c), d)
  {
    hide Turn;
    Three(s, a, b, c);
    assert [a, b, c, d][..3] == [a, b, c];
  }

  // ---- what stop gives up, and when ----

  // It found the accept loop not reached by its deadline.
  predicate TimedOutAccepting(turns: seq<Move>) {
    turns != [] &&
    (|| TimedOutAccepting(turns[..|turns| - 1])
     || (var s := Run(START, turns[..|turns| - 1]);
         turns[|turns| - 1] == Stop && s.stopper.Polls? && s.stopper.at.CheckClock? && s.stopper.deadline <= s.clock))
  }

  // The claiming thread had not ended by the end of its join.
  predicate TimedOutJoining(turns: seq<Move>) {
    turns != [] &&
    (|| TimedOutJoining(turns[..|turns| - 1])
     || (var s := Run(START, turns[..|turns| - 1]);
         turns[|turns| - 1] == Stop && s.stopper.Joining? && s.stopper.until <= s.clock && !s.claimer.Done?))
  }

  lemma {:induction false} GivesUpOnlyInTime(turns: seq<Move>)
    ensures Run(START, turns).gaveUpAccepting <==> TimedOutAccepting(turns)
    ensures Run(START, turns).gaveUpJoining <==> TimedOutJoining(turns)
    decreases |turns|
  {
    if turns != [] {
      GivesUpOnlyInTime(turns[..|turns| - 1]);
      TurnGivesUp(Run(START, turns[..|turns| - 1]), turns[|turns| - 1]);
    }
    hide Turn;
  }

  lemma TurnGivesUp(s: State, turn: Move)
    ensures Turn(s, turn).gaveUpAccepting <==>
              || s.gaveUpAccepting
              || (turn == Stop && s.stopper.Polls? && s.stopper.at.CheckClock? && s.stopper.deadline <= s.clock)
    ensures Turn(s, turn).gaveUpJoining <==>
              || s.gaveUpJoining
              || (turn == Stop && s.stopper.Joining? && s.stopper.until <= s.clock && !s.claimer.Done?)
  {
    hide ClaimerStep;
  }

  // A server has been constructed and its handle set.
  predicate PastHandle(c: Claimer) {
    !c.Waits? && c != Claims(Construct) && c != Claims(SetHandle)
  }

  predicate SawInv(s: State) {
    && (s.stopper == Decide(true) || s.stopper.Polls? ==> PastHandle(s.claimer))
    && (s.stopper.SetStop? || s.stopper.ReadHandle? || s.stopper.Decide? || s.stopper.Polls? ==> !s.gaveUpAccepting)
  }

  lemma TurnKeepsSaw(s: State, turn: Move)
    requires Inv(s) && SawInv(s)
    ensures SawInv(Turn(s, turn))
  {
    hide ServerInv, StopperInv, Paced;
  }

  lemma {:induction false} RunKeepsSaw(turns: seq<Move>)
    ensures SawInv(Run(START, turns)) && Inv(Run(START, turns))
    decreases |turns|
  {
    hide Inv, SawInv, Turn;
    NothingSaw();
    if turns != [] {
      RunKeepsSaw(turns[..|turns| - 1]);
      TurnKeepsSaw(Run(START, turns[..|turns| - 1]), turns[|turns| - 1]);
      TurnKeepsInv(Run(START, turns[..|turns| - 1]), turns[|turns| - 1]);
    }
  }

  lemma NothingSaw()
    ensures SawInv(START) && Inv(START)
  {
  }

  // Stop knows, or is about to see, that there is nobody to wait for.
  predicate Abandoned(s: State) {
    && s.flags.stop && !s.gaveUpAccepting
    && (s.stopper.Polls? ==> !s.stopper.at.CheckClock? && !s.flags.handle && PastHandle(s.claimer))
    && !s.stopper.SetStop? && !s.stopper.ReadHandle? && s.stopper != Decide(true)
  }

  lemma TurnKeepsAbandoned(s: State, turn: Move)
    requires Abandoned(s)
    ensures Abandoned(Turn(s, turn)) && (!s.stopper.Polls? ==> !Turn(s, turn).stopper.Polls?)
  {
  }

  lemma {:induction false} StaysAbandoned(s: State, turns: seq<Move>)
    requires Abandoned(s)
    ensures Abandoned(Run(s, turns)) && (!s.stopper.Polls? ==> !Run(s, turns).stopper.Polls?)
    decreases |turns|
  {
    hide Abandoned, Turn;
    if turns != [] {
      StaysAbandoned(s, turns[..|turns| - 1]);
      TurnKeepsAbandoned(Run(s, turns[..|turns| - 1]), turns[|turns| - 1]);
    }
  }

  // A stop that finds no server, or whose server stands down before it has seen
  // the clock, never times out waiting for its accept loop; and one that found
  // none to begin with does not wait for a loop at all.
  lemma NobodyToWaitFor(turns: seq<Move>, more: seq<Move>)
    requires var s := Run(START, turns);
             || s.stopper == Decide(false)
             || (s.stopper.Polls? && !s.stopper.at.CheckClock? && !s.flags.handle)
    ensures !Run(START, turns + more).gaveUpAccepting
    ensures Run(START, turns).stopper == Decide(false) ==> !Run(START, turns + more).stopper.Polls?
  {
    RunKeepsSaw(turns);
    RunConcat(START, turns, more);
    StaysAbandoned(Run(START, turns), more);
  }

  // ---- stop returns ----

  function PollsLeft(deadline: nat, pollEnd: nat): nat {
    Max(0, deadline + 2 * ACCEPT_LOOP_POLL - pollEnd) / ACCEPT_LOOP_POLL
  }

  const MOST_POLLS: nat := ACCEPT_LOOP_TIMEOUT / ACCEPT_LOOP_POLL + 1

  lemma PollsFall(deadline: nat, pollEnd: nat, clock: nat)
    requires pollEnd <= clock < deadline
    ensures PollsLeft(deadline, clock + ACCEPT_LOOP_POLL) < PollsLeft(deadline, pollEnd)
  {
  }

  lemma FewPolls(deadline: nat, pollEnd: nat)
    requires deadline + ACCEPT_LOOP_POLL <= pollEnd + ACCEPT_LOOP_TIMEOUT
    ensures PollsLeft(deadline, pollEnd) <= MOST_POLLS
  {
  }

  // How many steps `stop` may still take, however the other thread moves.
  function ToGo(p: Stopper): nat {
    match p
    case SetStop => 12 + 3 * MOST_POLLS
    case ReadHandle => 11 + 3 * MOST_POLLS
    case Decide(_) => 10 + 3 * MOST_POLLS
    case Polls(at, deadline, pollEnd) =>
      (if at.AwaitAccepting? then 9 else if at.CheckHandle? then 8 else 7) + 3 * PollsLeft(deadline, pollEnd)
    case Request => 4
    case AwaitShutDown => 3
    case Join => 2
    case Joining(_) => 1
    case Returned => 0
  }

  // How many more of its own steps the claiming thread sets the shut-down event in.
  function LoopLeft(c: Claimer): nat {
    if !c.Serves? then 0
    else match c.v
         case EnterLoop => 4
         case Accept => 3
         case ClearRequest => 2
         case SetShutDown => 1
         case _ => 0
  }

  // How long the step it is at may still be blocked: in milliseconds, or in
  // steps of the thread it waits for.
  function Blocked(s: State): nat {
    match s.stopper
    case Polls(at, _, pollEnd) => if at.AwaitAccepting? then Max(0, pollEnd - s.clock) else 0
    case Joining(until) => Max(0, until - s.clock)
    case AwaitShutDown => LoopLeft(s.claimer)
    case _ => 0
  }

  const LONGEST_BLOCK: nat := JOIN_TIMEOUT + 1

  function Rank(s: State): nat {
    ToGo(s.stopper) * LONGEST_BLOCK + Blocked(s)
  }

  lemma BlockedIsShort(s: State)
    requires Paced(s.clock, s.stopper)
    ensures Blocked(s) < LONGEST_BLOCK
  {
  }

  lemma StopperMoves(f: Flags, p: Stopper, clock: nat)
    requires Paced(clock, p) && !p.Returned?
    requires p.Polls? && p.at.AwaitAccepting? ==> f.accepting || p.pollEnd <= clock
    ensures ToGo(StopperStep(f, p, clock)) < ToGo(p)
  {
    hide PollsLeft;
    if p.Polls? && p.at.CheckClock? && clock < p.deadline {
      PollsFall(p.deadline, p.pollEnd, clock);
    }
    if p.Decide? {
      FewPolls(clock + ACCEPT_LOOP_TIMEOUT, clock + ACCEPT_LOOP_POLL);
    }
  }

  lemma FewerToGo(s: State, t: State)
    requires ToGo(t.stopper) < ToGo(s.stopper) && Blocked(t) < LONGEST_BLOCK
    ensures Rank(t) < Rank(s)
  {
    hide ToGo, Blocked;
  }

  lemma StopperFalls(s: State)
    requires Inv(s) && StopperReady(s)
    ensures Rank(Turn(s, Stop)) < Rank(s)
  {
    hide ServerInv, FlagsInv, StopperInv, Paced, StopperStep, ToGo, Blocked, Rank;
    StopperMoves(s.flags, s.stopper, s.clock);
    StopperKeepsInv(s);
    BlockedIsShort(StopperNext(s));
    FewerToGo(s, StopperNext(s));
  }

  lemma LoopFalls(f: Flags, server: Server, c: Claimer, clock: nat, chance: Chance)
    requires FlagsInv(f, c) && f.accepting && (c == Serves(EnterLoop) || c == Serves(Accept) ==> f.request)
    ensures var n := ClaimerStep(f, server, c, clock, chance);
            if LoopLeft(c) > 0 then LoopLeft(n.claimer) < LoopLeft(c) else LoopLeft(n.claimer) == 0
  {
  }

  // While `stop` waits for the accept loop to end, every turn of the claiming
  // thread brings that nearer.
  lemma ClaimerFalls(s: State, chance: Chance)
    requires Inv(s)
    ensures var t := Turn(s, Claim(chance));
            && t.stopper == s.stopper && t.clock == s.clock
            && (if s.stopper.AwaitShutDown? && Blocked(s) > 0 then Blocked(t) < Blocked(s)
                  else Blocked(t) == Blocked(s))
  {
    hide ServerInv, FlagsInv, Paced, ClaimerStep, LoopLeft;
    if s.stopper.AwaitShutDown? && ClaimerReady(s) {
      LoopFalls(s.flags, s.server, s.claimer, s.clock, chance);
    }
    NotReadyIsOut(s);
  }

  lemma NotReadyIsOut(s: State)
    ensures !ClaimerReady(s) ==> LoopLeft(s.claimer) == 0
  {
  }

  lemma TickFalls(s: State, ms: nat)
    ensures var t := Turn(s, Tick(ms));
            t.stopper == s.stopper &&
            (if (s.stopper.Polls? || s.stopper.Joining?) && Blocked(s) > 0 && ms > 0 then Blocked(t) < Blocked(s)
             else Blocked(t) <= Blocked(s))
  {
  }

  // No turn of either thread, and no passing of time, takes `stop` further
  // from its end.
  lemma TurnNeverRaises(s: State, turn: Move)
    requires Inv(s)
    ensures var t := Turn(s, turn); Rank(t) < Rank(s) || (Rank(t) == Rank(s) && t.stopper == s.stopper)
  {
    hide ServerInv, FlagsInv, StopperInv, Paced, StopperReady, ToGo, Blocked;
    match turn {
      case Claim(chance) => ClaimerFalls(s, chance);
      case Stop =>
        if StopperReady(s) {
          StopperFalls(s);
        }
      case Tick(ms) => TickFalls(s, ms);
    }
  }

  lemma {:induction false} RunNeverRaises(s: State, turns: seq<Move>)
    requires Inv(s)
    ensures var t := Run(s, turns);
            Inv(t) && (Rank(t) < Rank(s) || (Rank(t) == Rank(s) && t.stopper == s.stopper))
  {
    hide Inv, Rank, Turn;
    if turns != [] {
      var t := Run(s, turns[..|turns| - 1]);
      RunNeverRaises(s, turns[..|turns| - 1]);
      TurnKeepsInv(t, turns[|turns| - 1]);
      TurnNeverRaises(t, turns[|turns| - 1]);
    }
  }

  // The state some turn of a run finds.
  lemma Midway(s: State, turns: seq<Move>, i: nat)
    requires Inv(s) && i < |turns|
    ensures var t := Run(s, turns[..i]);
            && Inv(t) && (Rank(t) < Rank(s) || (Rank(t) == Rank(s) && t.stopper == s.stopper))
            && Rank(Run(s, turns)) <= Rank(Turn(t, turns[i]))
  {
    hide Inv, Rank, Turn;
    var t := Run(s, turns[..i]);
    var u := Turn(t, turns[i]);
    RunNeverRaises(s, turns[..i]);
    TurnKeepsInv(t, turns[i]);
    assert turns[..i + 1][..i] == turns[..i];
    assert turns == turns[..i + 1] + turns[i + 1..];
    RunConcat(s, turns[..i + 1], turns[i + 1..]);
    RunNeverRaises(u, turns[i + 1..]);
  }

  // A stretch of a run in which each thread gets a turn and time passes.
  predicate FairRound(turns: seq<Move>) {
    && (exists i :: 0 <= i < |turns| && turns[i].Stop?)
    && (exists i :: 0 <= i < |turns| && turns[i].Claim?)
    && (exists i :: 0 <= i < |turns| && turns[i].Tick? && turns[i].ms > 0)
  }

  lemma RoundMovesOn(s: State, turns: seq<Move>)
    requires Inv(s) && FairRound(turns)
    ensures Inv(Run(s, turns))
    ensures s.stopper.Returned? ==> Run(s, turns).stopper.Returned?
    ensures !s.stopper.Returned? ==> Rank(Run(s, turns)) < Rank(s)
  {
    hide Inv, Rank, Run, Turn;
    RunNeverRaises(s, turns);
    var i :| 0 <= i < |turns| && turns[i].Stop?;
    var j :| 0 <= j < |turns| && turns[j].Claim?;
    var k :| 0 <= k < |turns| && turns[k].Tick? && turns[k].ms > 0;
    Midway(s, turns, i);
    Midway(s, turns, j);
    Midway(s, turns, k);
    OneOfThree(s, Run(s, turns[..i]), Run(s, turns[..j]), Run(s, turns[..k]), turns[j].chance, turns[k].ms);
    ReturnedIsLast(s, Run(s, turns));
  }

  // Met where `s` is by `stop`'s own turn, by the claiming thread's and by a
  // tick, `stop` is moved on by one of them: it is never waiting for nothing.
  lemma OneOfThree(s: State, a: State, b: State, c: State, chance: Chance, ms: nat)
    requires Inv(a) && Inv(b) && Inv(c) && ms > 0
    requires Rank(a) < Rank(s) || (Rank(a) == Rank(s) && a.stopper == s.stopper)
    requires Rank(b) < Rank(s) || (Rank(b) == Rank(s) && b.stopper == s.stopper)
    requires Rank(c) < Rank(s) || (Rank(c) == Rank(s) && c.stopper == s.stopper)
    ensures || s.stopper.Returned?
            || Rank(Turn(a, Stop)) < Rank(s) || Rank(Turn(b, Claim(chance))) < Rank(s)
                || Rank(Turn(c, Tick(ms))) < Rank(s)
  {
    hide ServerInv, FlagsInv, StopperInv, Paced, ToGo, Blocked, Turn;
    TurnNeverRaises(a, Stop);
    TurnNeverRaises(b, Claim(chance));
    TurnNeverRaises(c, Tick(ms));
    if StopperReady(a) {
      StopperFalls(a);
    } else {
      BlockedWhereNotReady(a);
      ClaimerFalls(b, chance);
      TickFalls(c, ms);
    }
  }

  lemma BlockedWhereNotReady(s: State)
    requires Inv(s) && !StopperReady(s)
    ensures s.stopper.Returned?
            || (Blocked(s) > 0 && (s.stopper.AwaitShutDown? || s.stopper.Polls? || s.stopper.Joining?))
  {
  }

  lemma ReturnedIsLast(s: State, t: State)
    requires Rank(t) <= Rank(s)
    ensures s.stopper.Returned? ==> t.stopper.Returned?
  {
    hide PollsLeft;
  }

  const LAST_ROUND: nat := (13 + 3 * MOST_POLLS) * LONGEST_BLOCK

  function Flatten(rounds: seq<seq<Move>>): seq<Move> {
    if rounds == [] then [] else rounds[0] + Flatten(rounds[1..])
  }

  lemma {:induction false} RoundsMoveOn(s: State, rounds: seq<seq<Move>>)
    requires Inv(s) && forall r :: r in rounds ==> FairRound(r)
    ensures var t := Run(s, Flatten(rounds)); t.stopper.Returned? || Rank(t) + |rounds| <= Rank(s)
    decreases |rounds|
  {
    hide Inv, Rank, FairRound;
    if rounds != [] {
      var t := Run(s, rounds[0]);
      RoundMovesOn(s, rounds[0]);
      RoundsMoveOn(t, rounds[1..]);
      RunConcat(s, rounds[0], Flatten(rounds[1..]));
      if t.stopper.Returned? {
        ReturnedStays(t, Flatten(rounds[1..]));
      }
    }
  }

  lemma ReturnedStays(s: State, turns: seq<Move>)
    requires Inv(s) && s.stopper.Returned?
    ensures Run(s, turns).stopper.Returned?
  {
    RunNeverRaises(s, turns);
    ReturnedIsLast(s, Run(s, turns));
  }

  // From whatever moment it is called at, and however the threads are
  // scheduled, `stop` has returned after a fixed number of rounds.
  lemma StopReturns(before: seq<Move>, rounds: seq<seq<Move>>)
    requires forall r :: r in rounds ==> FairRound(r)
    requires |rounds| > LAST_ROUND
    ensures Run(START, before + Flatten(rounds)).stopper.Returned?
  {
    var s := Run(START, before);
    RunKeepsInv(START, before);
    RunConcat(START, before, Flatten(rounds));
    RoundsMoveOn(s, rounds);
    RankIsBounded(s);
  }

  lemma RankIsBounded(s: State)
    requires Inv(s)
    ensures Rank(s) <= LAST_ROUND
  {
    hide PollsLeft;
    BlockedIsShort(s);
    if s.stopper.Polls? {
      FewPolls(s.stopper.deadline, s.stopper.pollEnd);
    }
  }

  // ---- and leaves no orphan ----

  // How many of its own steps the claiming thread may still take once it has
  // been told to stop and is not serving.
  function ClaimLeft(c: Claimer): nat {
    match c
    case Claims(at) =>
      (match at case Construct => 6 case SetHandle => 5 case ReadStop => 4 case Withdraw => 3 case CloseUnserved => 2)
    case Leaves(at) =>
      (match at case StopServing => 4 case DropHandle => 3 case Retract => 2 case CloseServed => 1)
    case Waits(at) => if at.TryAgain? then 7 else 1
    case _ => 0
  }

  function ClaimTurns(turns: seq<Move>): nat {
    if turns == [] then 0
    else ClaimTurns(turns[..|turns| - 1]) + (if turns[|turns| - 1].Claim? then 1 else 0)
  }

  lemma ClaimLeftFalls(s: State, turn: Move)
    requires s.flags.stop && !s.claimer.Serves?
    ensures var t := Turn(s, turn);
            && ClaimLeft(t.claimer) <= ClaimLeft(s.claimer)
            && (turn.Claim? && ClaimLeft(s.claimer) > 0 ==> ClaimLeft(t.claimer) < ClaimLeft(s.claimer))
  {
  }

  lemma {:induction false} ClaimRunsOut(s: State, turns: seq<Move>)
    requires Inv(s) && s.flags.stop && !s.claimer.Serves?
    ensures ClaimLeft(Run(s, turns).claimer) <= Max(0, ClaimLeft(s.claimer) - ClaimTurns(turns))
  {
    hide Inv, Turn, ClaimLeft;
    if turns != [] {
      ClaimRunsOut(s, turns[..|turns| - 1]);
      StaysDown(s, turns[..|turns| - 1]);
      ClaimLeftFalls(Run(s, turns[..|turns| - 1]), turns[|turns| - 1]);
    }
  }

  // Once `stop` is past its waits without having given one up, the claiming
  // thread needs at most seven more turns to be done, its server closed once.
  lemma NoOrphan(before: seq<Move>, turns: seq<Move>)
    requires var s := Run(START, before);
             (s.stopper.Join? || s.stopper.Joining? || s.stopper.Returned?) && !s.gaveUpAccepting
    requires ClaimTurns(turns) >= 7
    ensures var t := Run(START, before + turns);
            t.claimer.Done? && t.server.closes == t.server.built && !t.server.serving && !t.server.published
  {
    var s := Run(START, before);
    RunKeepsInv(START, before);
    RunConcat(START, before, turns);
    StaysDown(s, turns);
    ClaimRunsOut(s, turns);
  }
}
