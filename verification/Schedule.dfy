// How many tests each worker was given. The controller counts the finished
// ones from reports, reads the outstanding ones off the scheduler, and adds
// the two - while a rerun plugin may run one test's phases any number of times.
module Schedule {
  import opened Basics

  const STEAL_MIN_PENDING: nat := 2
  const ONE_WORKER_PER_TEST: set<string> := {"load", "loadscope", "loadfile", "loadgroup", "worksteal", "customgroup"}

  // `allotted` is what a record calls assigned: how many tests a worker was given.
  datatype Row = Row(allotted: nat, completed: nat, pending: nat, rerunning: bool)

  // What the scheduler answers when it is asked: lengths, never the tests.
  // `outstanding` is None for the loadscope family, `given` for the others.
  datatype Scheduler = Scheduler(outstanding: Option<map<string, nat>>, given: Option<map<string, nat>>,
                                 complete: Option<bool>, unassigned: Option<nat>, collected: Option<nat>)

  datatype Record = Record(collected: Option<nat>, unassigned: Option<nat>, settled: Option<bool>,
                           rerunning: nat, workers: map<string, Row>)

  // The tracker's tables.
  datatype Counts = Counts(finished: map<string, nat>, lastFinished: map<string, string>,
                           rerunning: set<string>, rows: map<string, Row>)

  function Get<T>(m: map<string, T>, key: string, otherwise: T): T {
    if key in m then m[key] else otherwise
  }

  function Named(worker: Option<string>): bool {
    worker.Some? && worker.value != ""
  }

  // ---- what each call does ----

  function AfterFinish(c: Counts, worker: Option<string>, nodeid: Option<string>): Counts {
    if !Named(worker) then c
    else
      var w := worker.value;
      var d := c.(rerunning := c.rerunning - {w});
      if nodeid.Some? && w in c.lastFinished && c.lastFinished[w] == nodeid.value then d
      else d.(lastFinished := if nodeid.Some? then c.lastFinished[w := nodeid.value] else c.lastFinished,
              finished := c.finished[w := Get(c.finished, w, 0) + 1])
  }

  // The one worker that last finished `nodeid`, where the mode makes that an
  // answerable question and there is exactly one.
  ghost function LastFinisher(dist: string, last: map<string, string>, nodeid: string): (r: Option<string>)
    ensures r.Some? ==> IsOnly(last, nodeid, r.value) && dist in ONE_WORKER_PER_TEST
    ensures r.None? && dist in ONE_WORKER_PER_TEST ==> !exists w :: IsOnly(last, nodeid, w)
  {
    if dist in ONE_WORKER_PER_TEST && exists w :: IsOnly(last, nodeid, w) then
      var w :| IsOnly(last, nodeid, w);
      Some(w)
    else None
  }

  ghost predicate IsOnly(last: map<string, string>, nodeid: string, w: string) {
    w in last && last[w] == nodeid && forall v :: v in last && last[v] == nodeid ==> v == w
  }

  // Whose finish a start takes back, if it is a rerun's.
  ghost function TakenBack(dist: string, c: Counts, nodeid: Option<string>, worker: Option<string>): Option<string> {
    if nodeid.None? then None
    else
      var w := if worker.Some? then worker else LastFinisher(dist, c.lastFinished, nodeid.value);
      if !Named(w) || w.value !in c.lastFinished || c.lastFinished[w.value] != nodeid.value then None
      else if Get(c.finished, w.value, 0) == 0 then None
      else w
  }

  ghost function AfterStart(dist: string, c: Counts, nodeid: Option<string>, worker: Option<string>): Counts {
    var back := TakenBack(dist, c, nodeid, worker);
    if back.None? || back.value !in c.finished || c.finished[back.value] == 0 then c
    else c.(finished := c.finished[back.value := c.finished[back.value] - 1],
            lastFinished := c.lastFinished - {back.value},
            rerunning := c.rerunning + {back.value})
  }

  function RowOf(allotted: nat, completed: nat, rerunning: bool): Row {
    Row(allotted, completed, Max(0, allotted - completed), rerunning)
  }

  // What the scheduler says of each worker it still knows: how much it was
  // given, where it keeps that, or else how much it owes.
  function Said(s: Scheduler): map<string, nat> {
    if s.given.Some? then s.given.value else if s.outstanding.Some? then s.outstanding.value else map[]
  }

  function FreshRow(c: Counts, given: bool, w: string, said: nat): Row {
    var done := Get(c.finished, w, 0);
    RowOf(if given then said else done + said, done, w in c.rerunning)
  }

  // The rows as a record leaves them: fresh for every worker the scheduler
  // still knows, as they were for the rest.
  function AfterRecord(c: Counts, s: Scheduler): map<string, Row> {
    c.rows + map w | w in Said(s) :: FreshRow(c, s.given.Some?, w, Said(s)[w])
  }

  // Whether work can still be taken from one worker's queue for another.
  predicate CanSteal(outstanding: map<string, nat>) {
    && (exists w :: w in outstanding && outstanding[w] < STEAL_MIN_PENDING)
    && (exists w :: w in outstanding && outstanding[w] > STEAL_MIN_PENDING)
  }

  function Settled(dist: string, s: Scheduler, unassigned: Option<nat>): Option<bool> {
    if unassigned.None? then None
    else if unassigned.value > 0 then Some(false)
    else if dist != "worksteal" || s.outstanding.None? then Some(true)
    else Some(!CanSteal(s.outstanding.value))
  }

  class ScheduleTracker {
    const dist: string
    var finished: map<string, nat>
    var lastFinished: map<string, string>
    var rerunning: set<string>
    var rows: map<string, Row>

    function Tables(): Counts
      reads this
    {
      Counts(finished, lastFinished, rerunning, rows)
    }

    constructor (dist: string)
      ensures this.dist == dist && Tables() == Counts(map[], map[], {}, map[])
    {
      this.dist := dist;
      finished, lastFinished, rerunning, rows := map[], map[], {}, map[];
    }

    method SawATestFinish(worker: Option<string>, nodeid: Option<string>)
      modifies this
      ensures Tables() == AfterFinish(old(Tables()), worker, nodeid)
    {
      if !Named(worker) {
        return;
      }
      var w := worker.value;
      rerunning := rerunning - {w};
      if nodeid.Some? {
        if w in lastFinished && lastFinished[w] == nodeid.value {
          return;
        }
        lastFinished := lastFinished[w := nodeid.value];
      }
      finished := finished[w := Get(finished, w, 0) + 1];
    }

    method SawAWorkerGo(worker: Option<string>)
      modifies this`rerunning
      ensures rerunning == old(rerunning) - (if Named(worker) then {worker.value} else {})
    {
      if Named(worker) {
        rerunning := rerunning - {worker.value};
      }
    }

    method WorkerThatLastFinished(nodeid: string) returns (found: Option<string>)
      ensures found == LastFinisher(dist, lastFinished, nodeid)
    {
      if dist !in ONE_WORKER_PER_TEST {
        return None;
      }
      found := None;
      var names := lastFinished.Keys;
      while names != {}
        invariant names <= lastFinished.Keys
        invariant found.Some? ==> found.value in lastFinished.Keys - names && lastFinished[found.value] == nodeid
        invariant forall w :: w in lastFinished.Keys - names && lastFinished[w] == nodeid ==> found == Some(w)
        decreases |names|
      {
        var name :| name in names;
        names := names - {name};
        if lastFinished[name] == nodeid {
          if found.Some? {
            return None;
          }
          found := Some(name);
        }
      }
      if found.Some? {
        assert IsOnly(lastFinished, nodeid, found.value);
      }
    }

    method SawATestStart(nodeid: Option<string>, worker: Option<string>) returns (back: bool)
      modifies this
      ensures Tables() == AfterStart(dist, old(Tables()), nodeid, worker)
      ensures back == TakenBack(dist, old(Tables()), nodeid, worker).Some?
    {
      if nodeid.None? {
        return false;
      }
      var who := worker;
      if who.None? {
        who := WorkerThatLastFinished(nodeid.value);
      }
      if !Named(who) || who.value !in lastFinished || lastFinished[who.value] != nodeid.value {
        return false;
      }
      var counted := Get(finished, who.value, 0);
      if counted == 0 {
        return false;
      }
      finished := finished[who.value := counted - 1];
      lastFinished := lastFinished - {who.value};
      rerunning := rerunning + {who.value};
      return true;
    }

    method UpdateRows(given: bool, said: map<string, nat>)
      modifies this`rows
      ensures rows == old(rows) + map w | w in said :: FreshRow(old(Tables()), given, w, said[w])
    {
      hide FreshRow;
      var c := Tables();
      var names := said.Keys;
      while names != {}
        invariant names <= said.Keys
        invariant rows.Keys == c.rows.Keys + (said.Keys - names)
        invariant forall w :: w in said && w !in names ==> rows[w] == FreshRow(c, given, w, said[w])
        invariant forall w :: w in c.rows && (w !in said || w in names) ==> rows[w] == c.rows[w]
        decreases |names|
      {
        var w :| w in names;
        names := names - {w};
        rows := rows[w := FreshRow(c, given, w, said[w])];
      }
    }

    method MakeRecord(s: Scheduler) returns (r: Record)
      modifies this`rows
      ensures rows == AfterRecord(old(Tables()), s) && r.workers == rows && r.rerunning == |rerunning|
      ensures r.collected == s.collected
      ensures s.complete == Some(false) ==> r.unassigned == None && r.settled == Some(false)
      ensures s.complete != Some(false) ==> r.unassigned == s.unassigned && r.settled == Settled(dist, s, s.unassigned)
      // unknown where the scheduler does not say what is nobody's yet; else
      // settled where nothing is, unless a worker may be given another's test
      ensures s.complete != Some(false) && s.unassigned.None? ==> r.settled == None
      ensures s.complete != Some(false) && s.unassigned.Some? ==>
                && r.settled.Some?
                && (r.settled.value <==>
                      && s.unassigned.value == 0
                      && !(dist == "worksteal" && s.outstanding.Some?
                           && exists v, w :: v in s.outstanding.value && w in s.outstanding.value
                                             && s.outstanding.value[v] < 2 < s.outstanding.value[w]))
    {
      UpdateRows(s.given.Some?, Said(s));
      var collecting := s.complete == Some(false);
      var unassigned := if collecting then None else s.unassigned;
      var settled := if collecting then Some(false) else Settled(dist, s, unassigned);
      r := Record(s.collected, unassigned, settled, |rerunning|, rows);
    }
  }
}
