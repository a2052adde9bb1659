// Telling a lane doing slow work from one that is stuck, by the CPU its own
// thread burned against its share of what its process did.
module Stall {
  import opened Basics
  import opened Parts
  import Lanes

  const BUSY_THRESHOLD: real := 0.05
  const STALE_BEATS: real := 2.0
  const CURRENT_READING_SLACK: real := 0.5
  const SATURATED_CORES: real := 0.8
  const FAIR_SHARE_FRACTION: real := 0.25
  const RESOLVABLE_CPU_SECONDS: real := 0.05

  datatype Beat = Beat(time: real, cpu: real)

  datatype Verdict = Silent | Blocked

  // `state` is None for a worker that is busy, or not yet judged.
  datatype Assessment = Assessment(state: Option<Verdict>, rate: Option<real>, age: Option<real>,
                                   needsConfirmation: bool, low: bool)

  datatype Share = Share(processRate: real, lanes: nat, fair: real, threshold: real, resolvable: bool)

  function MinReal(a: real, b: real): real {
    if b < a then b else a
  }

  function LastTwo(beats: seq<Beat>): (r: seq<Beat>)
    ensures |r| == Min(|beats|, 2) && r == beats[|beats| - |r|..]
  {
    if |beats| <= 2 then beats else beats[|beats| - 2..]
  }

  function LastTime(beats: seq<Beat>): real {
    if beats == [] then 0.0 else beats[|beats| - 1].time
  }

  // Cores' worth of CPU between the first beat and the last.
  function CpuRate(beats: seq<Beat>): (r: Option<real>)
    ensures r.Some? <==> |beats| >= 2 && beats[0].time < beats[|beats| - 1].time
    ensures r.Some? ==>
              r.value * (beats[|beats| - 1].time - beats[0].time) == beats[|beats| - 1].cpu - beats[0].cpu
  {
    if |beats| < 2 then None
    else
      var elapsed := beats[|beats| - 1].time - beats[0].time;
      if elapsed <= 0.0 then None else Some((beats[|beats| - 1].cpu - beats[0].cpu) / elapsed)
  }

  function Since(beats: seq<Beat>, start: real): seq<Beat> {
    if beats == [] then []
    else
      var n := |beats| - 1;
      Since(beats[..n], start) + (if beats[n].time >= start then [beats[n]] else [])
  }

  function FairShare(lane: seq<Beat>, process: seq<Beat>, lanesInFlight: nat): Option<Share> {
    if lanesInFlight < 2 || |lane| < 2 then None
    else
      var window := Since(process, lane[0].time - 1.0);
      var rate := CpuRate(if |window| >= 2 then window else LastTwo(process));
      if rate.None? || rate.value < SATURATED_CORES then None
      else
        var fair := rate.value / lanesInFlight as real;
        var span := lane[|lane| - 1].time - lane[0].time;
        Some(Share(rate.value, lanesInFlight, fair, MinReal(BUSY_THRESHOLD, fair * FAIR_SHARE_FRACTION),
                   fair * span >= RESOLVABLE_CPU_SECONDS))
  }

  // The beats of the silence, or the last two.
  function Window(beats: seq<Beat>, now: real, silentFor: real): seq<Beat> {
    var recent := Since(beats, now - silentFor - 5.0);
    if recent == [] then LastTwo(beats) else recent
  }

  function FromCpu(beats: seq<Beat>, now: real, silentFor: real, age: real, process: seq<Beat>,
                   lanesInFlight: nat): Assessment {
    var window := Window(beats, now, silentFor);
    var rate := CpuRate(window);
    var share := if process == [] then None else FairShare(window, process, lanesInFlight);
    var threshold := if share.Some? then share.value.threshold else BUSY_THRESHOLD;
    if rate.Some? && rate.value > threshold then Assessment(None, rate, Some(age), false, false)
    else if rate.Some? && share.Some? then Assessment(Some(Blocked), rate, Some(age), false, !share.value.resolvable)
    else Assessment(Some(Blocked), rate, Some(age), false, rate.None?)
  }

  function Assess(beats: seq<Beat>, now: real, silentFor: real, interval: real): Assessment {
    if beats == [] then Assessment(Some(Silent), None, None, false, false)
    else
      var age := now - LastTime(beats);
      if age > STALE_BEATS * interval then Assessment(None, None, Some(age), true, false)
      else FromCpu(beats, now, silentFor, age, [], 1)
  }

  function AssessLane(beats: seq<Beat>, lane: seq<Beat>, now: real, silentFor: real, interval: real,
                      lanesInFlight: nat): Assessment {
    var first := Assess(beats, now, silentFor, interval);
    if first.state == Some(Silent) || first.needsConfirmation then first
    else FromCpu(lane, now, silentFor, if first.age.Some? then first.age.value else 0.0, beats, lanesInFlight)
  }

  // The oldest a current reading of a lane can be.
  function CurrentFloor(beats: seq<Beat>, interval: real): real {
    if |beats| >= 2 then beats[|beats| - 2].time - CURRENT_READING_SLACK
    else LastTime(beats) - interval - CURRENT_READING_SLACK
  }

  function AsBeats(readings: seq<(real, real)>): seq<Beat> {
    seq(|readings|, i requires 0 <= i < |readings| => Beat(readings[i].0, readings[i].1))
  }

  // A lane's readings as beats, or none where it has no rate of its own.
  function LaneBeats(beats: seq<Beat>, readings: seq<(real, real)>, interval: real): seq<Beat> {
    if |readings| < 2 || beats == [] then []
    else if readings[|readings| - 1].0 < CurrentFloor(beats, interval) then []
    else AsBeats(readings)
  }

  // ---- what is measured ----

  function NotBefore(start: real): Beat -> bool {
    (b: Beat) => b.time >= start
  }

  lemma {:induction false} SinceKeeps(beats: seq<Beat>, start: real)
    ensures JustThose(Since(beats, start), beats, NotBefore(start))
  {
    if beats != [] {
      var n := |beats| - 1;
      SinceKeeps(beats[..n], start);
      JustOneMore(Since(beats[..n], start), beats[..n], NotBefore(start), beats[n]);
      assert beats == beats[..n] + [beats[n]];
      assert Since(beats, start)
             == if NotBefore(start)(beats[n]) then Since(beats[..n], start) + [beats[n]] else Since(beats[..n], start);
    }
  }

  // The beats of the silence and the five seconds before it, or where there
  // are none the last two.
  lemma WindowIs(beats: seq<Beat>, now: real, silentFor: real)
    ensures (exists b :: b in beats && now - b.time <= silentFor + 5.0) ==>
              JustThose(Window(beats, now, silentFor), beats, NotBefore(now - silentFor - 5.0))
    ensures !(exists b :: b in beats && now - b.time <= silentFor + 5.0) ==>
              Window(beats, now, silentFor) == beats[Max(0, |beats| - 2)..]
  {
    hide Since, JustThose, LastTwo;
    var start := now - silentFor - 5.0;
    SinceKeeps(beats, start);
    SinceIsNone(beats, start);
  }

  lemma SinceIsNone(beats: seq<Beat>, start: real)
    ensures Since(beats, start) == [] <==> !exists b :: b in beats && b.time >= start
  {
    hide Since, InOrderOf;
    SinceKeeps(beats, start);
    var recent := Since(beats, start);
    assert recent != [] ==> multiset(recent)[recent[0]] > 0;
    if b :| b in beats && b.time >= start {
      assert NotBefore(start)(b) && multiset(recent)[b] == multiset(beats)[b] > 0;
    }
  }

  // A process's own verdict. It was silent where it wrote no beat; it has to be
  // looked at again where its last beat is more than two intervals old; else it
  // is working exactly if it burned more than a twentieth of a core.
  lemma ProcessVerdict(beats: seq<Beat>, now: real, silentFor: real, interval: real)
    ensures var verdict := Assess(beats, now, silentFor, interval);
            && (verdict.state == Some(Silent) <==> beats == [])
            && (verdict.needsConfirmation <==> beats != [] && now - beats[|beats| - 1].time > 2.0 * interval)
            && verdict.age == (if beats == [] then None else Some(now - beats[|beats| - 1].time))
            && (beats != [] && !verdict.needsConfirmation ==>
                  && verdict.rate == RateOf(beats, now, silentFor)
                  && (verdict.state == None <==> verdict.rate.Some? && verdict.rate.value > 0.05)
                  && (verdict.low <==> verdict.rate.None?))
            && (beats == [] || verdict.needsConfirmation ==> verdict.rate == None && !verdict.low)
            && (verdict.needsConfirmation ==> verdict.state == None)
  {
    hide Window, CpuRate, FairShare;
  }

  // What a lane's readings give: nothing with fewer than two of them, or where
  // the newest is older than half a second before the process's last beat but
  // one, or than an interval before its only one.
  lemma LaneBeatsAre(beats: seq<Beat>, readings: seq<(real, real)>, interval: real)
    ensures var r := LaneBeats(beats, readings, interval);
            var n := |readings| - 1;
            if && n >= 1 && beats != []
               && readings[n].0 + 0.5 >= (if |beats| == 1 then beats[0].time - interval else beats[|beats| - 2].time)
            then |r| == |readings| && forall i :: 0 <= i < |r| ==>
                r[i].time == readings[i].0 && r[i].cpu == readings[i].1
            else r == []
  {
  }

  // ---- windows depend on times alone ----

  predicate SameTimes(a: seq<Beat>, b: seq<Beat>) {
    |a| == |b| && forall i :: 0 <= i < |a| ==> a[i].time == b[i].time
  }

  lemma {:induction false} SinceSameTimes(a: seq<Beat>, b: seq<Beat>, start: real)
    requires SameTimes(a, b)
    ensures SameTimes(Since(a, start), Since(b, start))
  {
    if a != [] {
      SinceSameTimes(a[..|a| - 1], b[..|b| - 1], start);
    }
  }

  lemma WindowSameTimes(a: seq<Beat>, b: seq<Beat>, now: real, silentFor: real)
    requires SameTimes(a, b)
    ensures SameTimes(Window(a, now, silentFor), Window(b, now, silentFor))
  {
    SinceSameTimes(a, b, now - silentFor - 5.0);
  }

  lemma ShareByTimes(a: seq<Beat>, b: seq<Beat>, process: seq<Beat>, n: nat)
    requires SameTimes(a, b)
    ensures FairShare(a, process, n) == FairShare(b, process, n)
    ensures CpuRate(a).Some? <==> CpuRate(b).Some?
  {
    hide Since;
  }

  // ---- a saturated process cannot be all blocked ----

  // What a lane burned over its own window, where it was measured twice in it.
  function RateOf(lane: seq<Beat>, now: real, silentFor: real): Option<real> {
    CpuRate(Window(lane, now, silentFor))
  }

  // And its share of its process over that window, among `inFlight` lanes.
  function ShareOf(beats: seq<Beat>, lane: seq<Beat>, now: real, silentFor: real, inFlight: nat): Option<Share> {
    FairShare(Window(lane, now, silentFor), beats, inFlight)
  }

  // What the lanes burned together.
  function Burned(lanes: seq<seq<Beat>>, now: real, silentFor: real): real {
    if lanes == [] then 0.0
    else
      var rate := RateOf(lanes[|lanes| - 1], now, silentFor);
      Burned(lanes[..|lanes| - 1], now, silentFor) + (if rate.Some? then rate.value else 0.0)
  }

  // The lanes judged blocked, of those there are.
  function BlockedOf(beats: seq<Beat>, lanes: seq<seq<Beat>>, now: real, silentFor: real, interval: real, inFlight: nat)
    : seq<seq<Beat>>
  {
    if lanes == [] then []
    else
      var n := |lanes| - 1;
      BlockedOf(beats, lanes[..n], now, silentFor, interval, inFlight)
      + (if AssessLane(beats, lanes[n], now, silentFor, interval, inFlight).state == Some(Blocked)
         then [lanes[n]] else [])
  }

  // Over the window of every lane that was measured its process was saturated,
  // and burned no more than `most`. A lane in flight that has not been measured
  // twice has no window, and counts among `inFlight` all the same.
  predicate Saturated(beats: seq<Beat>, lanes: seq<seq<Beat>>, now: real, silentFor: real, inFlight: nat, most: real) {
    most >= 0.0 && forall i :: 0 <= i < |lanes| ==> SaturatedOver(beats, lanes[i], now, silentFor, inFlight, most)
  }

  predicate SaturatedOver(beats: seq<Beat>, lane: seq<Beat>, now: real, silentFor: real, inFlight: nat, most: real) {
    RateOf(lane, now, silentFor).Some? ==>
      var share := ShareOf(beats, lane, now, silentFor, inFlight);
      share.Some? && share.value.processRate <= most
  }

  predicate NotAbove(lanes: seq<seq<Beat>>, now: real, silentFor: real, threshold: real) {
    forall i :: 0 <= i < |lanes| ==>
      var rate := RateOf(lanes[i], now, silentFor); rate.Some? ==> rate.value <= threshold
  }

  lemma {:induction false} BurnedAtMost(lanes: seq<seq<Beat>>, now: real, silentFor: real, threshold: real)
    requires NotAbove(lanes, now, silentFor, threshold) && threshold >= 0.0
    ensures Burned(lanes, now, silentFor) <= |lanes| as real * threshold
  {
    hide RateOf;
    if lanes != [] {
      var n := |lanes| - 1;
      forall i | 0 <= i < n
        ensures lanes[..n][i] == lanes[i]
      {
      }
      BurnedAtMost(lanes[..n], now, silentFor, threshold);
      assert |lanes| as real * threshold == n as real * threshold + threshold;
    }
  }

  lemma QuarterAmongAll(rate: real, n: nat)
    requires n > 0
    ensures n as real * (rate / n as real * FAIR_SHARE_FRACTION) == rate * FAIR_SHARE_FRACTION
  {
    var m := n as real;
    assert m * (rate / m) == rate;
    assert m * (rate / m * FAIR_SHARE_FRACTION) == m * (rate / m) * FAIR_SHARE_FRACTION;
  }

  // The process's own beat is current: its lanes are judged one by one.
  predicate Current(beats: seq<Beat>, now: real, silentFor: real, interval: real) {
    beats != [] && !Assess(beats, now, silentFor, interval).needsConfirmation
  }

  // What the process itself burned over a lane's window.
  function ProcessRate(beats: seq<Beat>, lane: seq<Beat>, now: real, silentFor: real): Option<real> {
    var window := Window(lane, now, silentFor);
    if |window| < 2 then None
    else
      var during := Since(beats, window[0].time - 1.0);
      CpuRate(if |during| >= 2 then during else LastTwo(beats))
  }

  // A lane whose process's own beat is current, whatever its siblings. It is
  // working exactly if it was measured and burned more than a twentieth of a
  // core or, where its process was saturated and it was not alone, more than a
  // quarter of its fair share of it. That it is blocked is told with little
  // confidence where it was not measured, or where its fair share of the window
  // is under fifty milliseconds.
  lemma LaneVerdict(beats: seq<Beat>, lane: seq<Beat>, now: real, silentFor: real, interval: real, inFlight: nat)
    requires Current(beats, now, silentFor, interval)
    ensures var rate := RateOf(lane, now, silentFor);
            var whole := ProcessRate(beats, lane, now, silentFor);
            var saturated := inFlight >= 2 && whole.Some? && whole.value >= 0.8;
            var window := Window(lane, now, silentFor);
            var verdict := AssessLane(beats, lane, now, silentFor, interval, inFlight);
            && (verdict.state == None || verdict.state == Some(Blocked))
            && verdict.rate == rate && !verdict.needsConfirmation
            && verdict.age == Some(now - beats[|beats| - 1].time)
            && (verdict.state == None <==>
                  rate.Some? && (rate.value > 0.05 || (saturated && rate.value > whole.value / inFlight as real / 4.0)))
            && (verdict.low <==>
                  verdict.state != None
                  && (rate.None?
                      || (saturated && whole.value / inFlight as real
                                       * (window[|window| - 1].time - window[0].time) < 0.05)))
            && (ShareOf(beats, lane, now, silentFor, inFlight).Some? <==> saturated)
            && (saturated ==> ShareOf(beats, lane, now, silentFor, inFlight).value.processRate == whole.value)
  {
    hide Since, Window;
    if inFlight > 0 && ProcessRate(beats, lane, now, silentFor).Some? {
      Quartered(ProcessRate(beats, lane, now, silentFor).value / inFlight as real);
    }
  }

  lemma Quartered(fair: real)
    ensures fair * FAIR_SHARE_FRACTION == fair / 4.0
  {
  }

  lemma BlockedLane(beats: seq<Beat>, lane: seq<Beat>, now: real, silentFor: real, interval: real, inFlight: nat,
                    most: real)
    requires AssessLane(beats, lane, now, silentFor, interval, inFlight).state == Some(Blocked)
    requires inFlight >= 1 && SaturatedOver(beats, lane, now, silentFor, inFlight, most)
    ensures var rate := RateOf(lane, now, silentFor);
            rate.Some? ==> rate.value <= most / inFlight as real * FAIR_SHARE_FRACTION
  {
    hide Since, CpuRate, Window;
    var share := ShareOf(beats, lane, now, silentFor, inFlight);
    if share.Some? && share.value.processRate <= most {
      Divided(share.value.processRate, most, inFlight);
    }
  }

  lemma Divided(a: real, b: real, n: nat)
    requires a <= b && n > 0
    ensures a / n as real <= b / n as real
  {
  }

  lemma {:induction false} BlockedOnesAre(beats: seq<Beat>, lanes: seq<seq<Beat>>, now: real, silentFor: real,
                                          interval: real, inFlight: nat)
    ensures var blocked := BlockedOf(beats, lanes, now, silentFor, interval, inFlight);
            && |blocked| <= |lanes|
            && (forall x :: x in blocked ==>
                  x in lanes && AssessLane(beats, x, now, silentFor, interval, inFlight).state == Some(Blocked))
            && ((forall i :: 0 <= i < |lanes| ==>
                   AssessLane(beats, lanes[i], now, silentFor, interval, inFlight).state == Some(Blocked)) ==>
                  blocked == lanes)
  {
    hide AssessLane;
    if lanes != [] {
      var n := |lanes| - 1;
      BlockedOnesAre(beats, lanes[..n], now, silentFor, interval, inFlight);
      assert lanes == lanes[..n] + [lanes[n]];
    }
  }

  // Whichever of a saturated process's lanes are judged blocked, they burned
  // together at most a quarter of what it did: their part of it, among all the
  // lanes in flight, measured or not.
  lemma BlockedBurnAQuarter(beats: seq<Beat>, lanes: seq<seq<Beat>>, now: real, silentFor: real, interval: real,
                            inFlight: nat, most: real)
    requires 1 <= inFlight && |lanes| <= inFlight && Saturated(beats, lanes, now, silentFor, inFlight, most)
    ensures var blocked := BlockedOf(beats, lanes, now, silentFor, interval, inFlight);
            && Burned(blocked, now, silentFor) <= |blocked| as real * (most / inFlight as real * FAIR_SHARE_FRACTION)
            && Burned(blocked, now, silentFor) <= most * FAIR_SHARE_FRACTION
  {
    hide AssessLane, BlockedOf, Burned, RateOf, SaturatedOver;
    var blocked := BlockedOf(beats, lanes, now, silentFor, interval, inFlight);
    var threshold := most / inFlight as real * FAIR_SHARE_FRACTION;
    BlockedOnesAre(beats, lanes, now, silentFor, interval, inFlight);
    forall i | 0 <= i < |blocked|
      ensures var rate := RateOf(blocked[i], now, silentFor); rate.Some? ==> rate.value <= threshold
    {
      assert blocked[i] in lanes;
      BlockedLane(beats, blocked[i], now, silentFor, interval, inFlight, most);
    }
    Divided(0.0, most, inFlight);
    BurnedAtMost(blocked, now, silentFor, threshold);
    AtMostAQuarter(Burned(blocked, now, silentFor), |blocked|, inFlight, most);
  }

  // So where lanes of a saturated process account for more than a quarter of
  // what it burned, one of them is judged working.
  lemma SaturatedIsNotAllBlocked(beats: seq<Beat>, lanes: seq<seq<Beat>>, now: real, silentFor: real, interval: real,
                                 inFlight: nat, most: real)
    requires Current(beats, now, silentFor, interval)
    requires 1 <= inFlight && |lanes| <= inFlight && Saturated(beats, lanes, now, silentFor, inFlight, most)
    requires Burned(lanes, now, silentFor) > most * FAIR_SHARE_FRACTION
    ensures exists i ::
              0 <= i < |lanes| && AssessLane(beats, lanes[i], now, silentFor, interval, inFlight).state == None
  {
    hide AssessLane, BlockedOf, Burned, Saturated, Current;
    BlockedBurnAQuarter(beats, lanes, now, silentFor, interval, inFlight, most);
    BlockedOnesAre(beats, lanes, now, silentFor, interval, inFlight);
    forall i | 0 <= i < |lanes|
      ensures var state := AssessLane(beats, lanes[i], now, silentFor, interval, inFlight).state;
              state == None || state == Some(Blocked)
    {
      WorkingOrBlocked(beats, lanes[i], now, silentFor, interval, inFlight);
    }
  }

  lemma WorkingOrBlocked(beats: seq<Beat>, lane: seq<Beat>, now: real, silentFor: real, interval: real, inFlight: nat)
    requires Current(beats, now, silentFor, interval)
    ensures var state := AssessLane(beats, lane, now, silentFor, interval, inFlight).state;
            state == None || state == Some(Blocked)
  {
    hide Since, CpuRate, Window;
  }

  lemma ShareIsSaturated(lane: seq<Beat>, process: seq<Beat>, n: nat)
    ensures var share := FairShare(lane, process, n); share.Some? ==> share.value.processRate >= SATURATED_CORES
  {
    hide Since, CpuRate;
  }

  lemma AtMostAQuarter(burned: real, k: nat, n: nat, most: real)
    requires k <= n && n > 0 && most >= 0.0
    requires burned <= k as real * (most / n as real * FAIR_SHARE_FRACTION)
    ensures burned <= most * FAIR_SHARE_FRACTION
  {
    var part := most / n as real * FAIR_SHARE_FRACTION;
    Divided(0.0, most, n);
    QuarterAmongAll(most, n);
    Scaled(k, n, part);
  }

  lemma Scaled(k: nat, n: nat, a: real)
    requires k <= n && a >= 0.0
    ensures k as real * a <= n as real * a
  {
  }

  // ---- as the lanes' file gives them ----

  function FromFile(beats: seq<Beat>, kept: seq<Lanes.Reading>, names: seq<string>, interval: real): seq<seq<Beat>> {
    seq(|names|, i requires 0 <= i < |names| => LaneBeats(beats, Lanes.History(kept, names[i]), interval))
  }

  predicate Throughout(kept: seq<Lanes.Reading>, name: string) {
    forall i :: 0 <= i < |kept| ==> name in kept[i].used
  }

  lemma HistoriesSameTimes(kept: seq<Lanes.Reading>, a: string, b: string)
    requires Throughout(kept, a) && Throughout(kept, b)
    ensures SameTimes(AsBeats(Lanes.History(kept, a)), AsBeats(Lanes.History(kept, b)))
  {
    Lanes.SameInstants(kept, a, b);
  }

  // Lanes in flight of one process, as their file gives them. Those measured in
  // every call it keeps are judged over one window, whatever that is; so where
  // one of them is judged against a share of a saturated process they all are.
  // Lanes not measured twice change nothing but how many are in flight; lanes
  // missing from some call have windows of their own. The blocked among all of
  // these burned at most a quarter of the most their process did over them.
  lemma LanesOfOneFile(beats: seq<Beat>, kept: seq<Lanes.Reading>, names: seq<string>, now: real, silentFor: real,
                       interval: real, inFlight: nat, w: nat, most: real)
    requires w < |names| <= inFlight
    requires Throughout(kept, names[w])
    requires var share := ShareOf(beats, FromFile(beats, kept, names, interval)[w], now, silentFor, inFlight);
             share.Some? && share.value.processRate <= most
    requires forall n :: 0 <= n < |names| ==>
               || Throughout(kept, names[n])
               || |Lanes.History(kept, names[n])| < 2
               || SaturatedOver(beats, FromFile(beats, kept, names, interval)[n], now, silentFor, inFlight, most)
    ensures var lanes := FromFile(beats, kept, names, interval);
            && Saturated(beats, lanes, now, silentFor, inFlight, most)
            && Burned(BlockedOf(beats, lanes, now, silentFor, interval, inFlight), now, silentFor)
               <= most * FAIR_SHARE_FRACTION
  {
    var lanes := FromFile(beats, kept, names, interval);
    hide Window, CpuRate, FairShare, AssessLane, CurrentFloor, Lanes.History, BlockedOf, Burned, Throughout;
    ShareIsSaturated(Window(lanes[w], now, silentFor), beats, inFlight);
    forall i | 0 <= i < |lanes|
      ensures SaturatedOver(beats, lanes[i], now, silentFor, inFlight, most)
    {
      if |Lanes.History(kept, names[i])| < 2 {
        NotMeasured(now, silentFor);
      } else if Throughout(kept, names[i]) {
        HistoriesSameTimes(kept, names[i], names[w]);
        SameReadings(beats, Lanes.History(kept, names[i]), Lanes.History(kept, names[w]), interval);
        WindowSameTimes(lanes[i], lanes[w], now, silentFor);
        ShareByTimes(Window(lanes[i], now, silentFor), Window(lanes[w], now, silentFor), beats, inFlight);
      }
    }
    BlockedBurnAQuarter(beats, lanes, now, silentFor, interval, inFlight, most);
  }

  lemma NotMeasured(now: real, silentFor: real)
    ensures RateOf([], now, silentFor) == None
  {
  }

  lemma SameReadings(beats: seq<Beat>, a: seq<(real, real)>, b: seq<(real, real)>, interval: real)
    requires SameTimes(AsBeats(a), AsBeats(b))
    ensures SameTimes(LaneBeats(beats, a, interval), LaneBeats(beats, b, interval))
  {
    assert |a| == |b| && forall i :: 0 <= i < |a| ==> AsBeats(a)[i].time == a[i].0 && AsBeats(b)[i].time == b[i].0;
  }
}
