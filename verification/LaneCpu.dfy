// A process's lanes' CPU, a reading per lane at every beat, the last six kept
// in one file: one list of times, and one list per lane that stays in step
// with it, with a gap where the lane was not measured.
module Lanes {
  import opened Basics

  const LANE_CPU_READINGS: nat := 6

  datatype Ring = Ring(times: seq<real>, lanes: map<string, seq<Option<real>>>)

  // One call: when it was made, and the lanes measured then.
  datatype Reading = Reading(stamp: real, used: map<string, real>)

  // The end of `s`, as much of it as is kept.
  function Last<T>(s: seq<T>): (r: seq<T>)
    ensures |r| == Min(|s|, LANE_CPU_READINGS) && r == s[|s| - |r|..]
  {
    s[Max(0, |s| - LANE_CPU_READINGS)..]
  }

  function Value(used: map<string, real>, lane: string): Option<real> {
    if lane in used then Some(used[lane]) else None
  }

  function Gaps(n: nat): (r: seq<Option<real>>)
    ensures |r| == n
  {
    seq(n, i => None)
  }

  predicate Measured(values: seq<Option<real>>) {
    exists i :: 0 <= i < |values| && values[i].Some?
  }

  class LaneCpu {
    var times: seq<real>
    var lanes: map<string, seq<Option<real>>>
    var file: Option<Ring>

    function Now(): Ring
      reads this
    {
      Ring(times, lanes)
    }

    constructor ()
      ensures Now() == Ring([], map[]) && file == None
    {
      times, lanes, file := [], map[], None;
    }

    // `fails`: the new file could not be written or moved into place.
    method Record(stamp: real, used: map<string, real>, fails: bool)
      modifies this
      ensures Now() == AfterRecord(old(Now()), Reading(stamp, used))
      ensures file == if fails then old(file) else Some(Now())
    {
      times := times + [stamp];
      lanes := OpenLanes(lanes, used, |times| - 1);
      lanes := AppendValues(lanes, used);
      times := Last(times);
      lanes := map l | l in lanes && Measured(Last(lanes[l])) :: Last(lanes[l]);
      if !fails {
        file := Some(Now());
      }
    }
  }

  // Every lane measured has a list but those `left`.
  ghost predicate OpenedBut(lanes: map<string, seq<Option<real>>>, used: map<string, real>, before: nat,
                            left: set<string>,
                            more: map<string, seq<Option<real>>>) {
    && (forall l :: l in more <==> l in lanes || (l in used && l !in left))
    && (forall l :: l in more ==> more[l] == if l in lanes then lanes[l] else Gaps(before))
  }

  lemma NoneOpened(lanes: map<string, seq<Option<real>>>, used: map<string, real>, before: nat)
    ensures OpenedBut(lanes, used, before, used.Keys, lanes)
  {
  }

  lemma OpensOne(lanes: map<string, seq<Option<real>>>, used: map<string, real>, before: nat, left: set<string>,
                 more: map<string, seq<Option<real>>>, lane: string)
    requires OpenedBut(lanes, used, before, left, more) && lane in left && left <= used.Keys
    ensures OpenedBut(lanes, used, before, left - {lane}, if lane in more then more else more[lane := Gaps(before)])
  {
    hide Gaps;
  }

  lemma AllOpened(lanes: map<string, seq<Option<real>>>, used: map<string, real>, before: nat,
                  more: map<string, seq<Option<real>>>)
    requires OpenedBut(lanes, used, before, {}, more)
    ensures more == WithLanes(lanes, used, before)
  {
    hide Gaps;
  }

  // A list for every lane measured, of gaps so far where it had none.
  method OpenLanes(lanes: map<string, seq<Option<real>>>, used: map<string, real>, before: nat)
    returns (more: map<string, seq<Option<real>>>)
    ensures more == WithLanes(lanes, used, before)
  {
    hide Gaps, OpenedBut;
    more := lanes;
    NoneOpened(lanes, used, before);
    var left := used.Keys;
    while left != {}
      invariant left <= used.Keys
      invariant OpenedBut(lanes, used, before, left, more)
      decreases |left|
    {
      var lane :| lane in left;
      OpensOne(lanes, used, before, left, more, lane);
      left := left - {lane};
      if lane !in more {
        more := more[lane := Gaps(before)];
      }
    }
    AllOpened(lanes, used, before, more);
  }

  // The next value of every list, a gap where its lane was not measured.
  method AppendValues(lanes: map<string, seq<Option<real>>>, used: map<string, real>)
    returns (more: map<string, seq<Option<real>>>)
    ensures more == Appended(lanes, used)
  {
    hide Value;
    more := lanes;
    var left := lanes.Keys;
    while left != {}
      invariant left <= more.Keys == lanes.Keys
      invariant forall l :: l in more ==> more[l] == if l in left then lanes[l] else lanes[l] + [Value(used, l)]
      decreases |left|
    {
      var lane :| lane in left;
      left := left - {lane};
      more := more[lane := more[lane] + [Value(used, lane)]];
    }
  }

  function WithLanes(lanes: map<string, seq<Option<real>>>, used: map<string, real>, before: nat)
    : map<string, seq<Option<real>>>
  {
    map l | l in lanes.Keys + used.Keys :: if l in lanes then lanes[l] else Gaps(before)
  }

  function Appended(lanes: map<string, seq<Option<real>>>, used: map<string, real>): map<string, seq<Option<real>>> {
    map l | l in lanes :: lanes[l] + [Value(used, l)]
  }

  function AfterRecord(r: Ring, call: Reading): Ring {
    var all := Appended(WithLanes(r.lanes, call.used, |r.times|), call.used);
    Ring(Last(r.times + [call.stamp]), map l | l in all && Measured(Last(all[l])) :: Last(all[l]))
  }

  function AfterAll(calls: seq<Reading>): Ring {
    if calls == [] then Ring([], map[]) else AfterRecord(AfterAll(calls[..|calls| - 1]), calls[|calls| - 1])
  }

  // ---- what the file should hold ----

  function Stamps(calls: seq<Reading>): seq<real> {
    seq(|calls|, i requires 0 <= i < |calls| => calls[i].stamp)
  }

  function Column(calls: seq<Reading>, lane: string): seq<Option<real>> {
    seq(|calls|, i requires 0 <= i < |calls| => Value(calls[i].used, lane))
  }

  // A lane's history: when it was measured and what it read, in order.
  function History(calls: seq<Reading>, lane: string): seq<(real, real)> {
    if calls == [] then []
    else
      var call := calls[|calls| - 1];
      History(calls[..|calls| - 1], lane) + (if lane in call.used then [(call.stamp, call.used[lane])] else [])
  }

  // ---- the reader ----

  // The times and the values of one lane, put together where there is a value.
  function Paired(times: seq<real>, values: seq<Option<real>>): seq<(real, real)>
    requires |times| == |values|
  {
    if times == [] then []
    else
      var n := |times| - 1;
      Paired(times[..n], values[..n]) + (if values[n].Some? then [(times[n], values[n].value)] else [])
  }

  // `values` against the last of `times`, as many as there are of both.
  function Zipped(times: seq<real>, values: seq<Option<real>>): seq<(real, real)> {
    var tail := if 0 < |values| <= |times| then times[|times| - |values|..] else times;
    var n := Min(|tail|, |values|);
    Paired(tail[..n], values[..n])
  }

  function Read(file: Option<Ring>): map<string, seq<(real, real)>> {
    if file.None? then map[] else map l | l in file.value.lanes :: Zipped(file.value.times, file.value.lanes[l])
  }

  // ---- the ring is the history's end ----

  lemma LastOfMore<T>(s: seq<T>, x: T)
    ensures Last(Last(s) + [x]) == Last(s + [x])
  {
  }

  lemma LastOfColumns(calls: seq<Reading>, lane: string)
    ensures Last(Column(calls, lane)) == Column(Last(calls), lane) && Last(Stamps(calls)) == Stamps(Last(calls))
  {
  }

  ghost predicate Holds(r: Ring, calls: seq<Reading>) {
    && r.times == Stamps(calls)
    && (forall l :: l in r.lanes <==> Measured(Column(calls, l)))
    && (forall l :: l in r.lanes ==> r.lanes[l] == Column(calls, l))
  }

  // A lane measured in none of some calls is all gaps there, as a lane that
  // comes back is given.
  lemma Unmeasured(calls: seq<Reading>, lane: string)
    requires !Measured(Column(calls, lane))
    ensures Column(calls, lane) == Gaps(|calls|)
  {
    forall i | 0 <= i < |calls|
      ensures Column(calls, lane)[i] == None
    {
    }
  }

  lemma EveryColumn(kept: seq<Reading>, call: Reading)
    ensures var more := kept + [call];
            && Last(Stamps(kept) + [call.stamp]) == Stamps(Last(more))
            && forall l :: Last(Column(more, l)) == Column(Last(more), l)
  {
    var more := kept + [call];
    assert Stamps(more) == Stamps(kept) + [call.stamp];
    LastOfColumns(more, "");
    forall l
      ensures Last(Column(more, l)) == Column(Last(more), l)
    {
      LastOfColumns(more, l);
    }
  }

  lemma RecordHolds(r: Ring, kept: seq<Reading>, call: Reading)
    requires Holds(r, kept) && |kept| <= LANE_CPU_READINGS
    ensures Holds(AfterRecord(r, call), Last(kept + [call]))
  {
    hide Appended, WithLanes, Column, Stamps, Measured, Last;
    LaneListsHold(r, kept, call);
    EveryColumn(kept, call);
  }

  // Before the oldest is let go: every list in step with the calls.
  lemma LaneListsHold(r: Ring, kept: seq<Reading>, call: Reading)
    requires Holds(r, kept)
    ensures var all := Appended(WithLanes(r.lanes, call.used, |r.times|), call.used);
            var more := kept + [call];
            && (forall l :: l in all ==> all[l] == Column(more, l))
            && (forall l :: l !in all ==> !Measured(Column(more, l)) && !Measured(Last(Column(more, l))))
  {
    var more := kept + [call];
    forall l
      ensures Column(more, l) == Column(kept, l) + [Value(call.used, l)]
    {
    }
    forall l | l !in r.lanes
      ensures Column(kept, l) == Gaps(|kept|)
    {
      Unmeasured(kept, l);
    }
    forall l | l !in r.lanes && l !in call.used
      ensures !Measured(Column(more, l)) && !Measured(Last(Column(more, l)))
    {
      assert forall i :: 0 <= i < |more| ==> Column(more, l)[i] == None;
    }
  }

  lemma {:induction false} RingHolds(calls: seq<Reading>)
    ensures Holds(AfterAll(calls), Last(calls))
  {
    hide AfterRecord, Holds;
    if calls == [] {
      EmptyHolds();
    } else {
      var before, call := calls[..|calls| - 1], calls[|calls| - 1];
      RingHolds(before);
      RecordHolds(AfterAll(before), Last(before), call);
      LastOfMore(before, call);
      assert before + [call] == calls;
    }
  }

  lemma EmptyHolds()
    ensures Holds(AfterAll([]), Last([]))
  {
  }

  lemma {:induction false} PairedIsHistory(calls: seq<Reading>, lane: string)
    ensures Paired(Stamps(calls), Column(calls, lane)) == History(calls, lane)
  {
    if calls != [] {
      var n := |calls| - 1;
      PairedIsHistory(calls[..n], lane);
      assert Stamps(calls)[..n] == Stamps(calls[..n]) && Column(calls, lane)[..n] == Column(calls[..n], lane);
    }
  }

  lemma {:induction false} HistoryIsMeasured(calls: seq<Reading>, lane: string)
    ensures History(calls, lane) != [] <==> Measured(Column(calls, lane))
  {
    hide Measured;
    MeasuredSnoc([], None);
    assert calls == [] ==> Column(calls, lane) == [];
    if calls != [] {
      var n := |calls| - 1;
      HistoryIsMeasured(calls[..n], lane);
      assert Column(calls, lane) == Column(calls[..n], lane) + [Value(calls[n].used, lane)];
      MeasuredSnoc(Column(calls[..n], lane), Value(calls[n].used, lane));
    }
  }

  lemma MeasuredSnoc(values: seq<Option<real>>, value: Option<real>)
    ensures Measured(values + [value]) <==> Measured(values) || value.Some?
    ensures !Measured([])
  {
    if value.Some? {
      assert (values + [value])[|values|] == value;
    }
    if i :| 0 <= i < |values| && values[i].Some? {
      assert (values + [value])[i] == values[i];
    }
  }

  // However lanes come, go and come back: the file gives each lane exactly
  // what it read in the last six calls, in order, and no other lane; its newest
  // time is the last call's.
  lemma RingRefinesHistory(calls: seq<Reading>, lane: string)
    ensures var read, kept := Read(Some(AfterAll(calls))), calls[Max(0, |calls| - 6)..];
            && (lane in read <==> History(kept, lane) != [])
            && (lane in read ==> read[lane] == History(kept, lane))
    ensures var times := AfterAll(calls).times;
            && |times| == Min(|calls|, 6)
            && forall i :: 0 <= i < |times| ==> times[i] == calls[|calls| - |times| + i].stamp
  {
    hide AfterAll, History, Column, Measured, Zipped, Paired;
    RingHolds(calls);
    HistoryIsMeasured(Last(calls), lane);
    PairedIsHistory(Last(calls), lane);
    InStep(Last(calls), lane);
  }

  // A list shorter than the times is read against the last of them: the calls
  // before it count as gaps. What is longer is cut.
  lemma ShortListsAlign(times: seq<real>, values: seq<Option<real>>)
    ensures |values| <= |times| ==> Zipped(times, values) == Paired(times, Gaps(|times| - |values|) + values)
    ensures |values| > |times| ==> Zipped(times, values) == Paired(times, values[..|times|])
  {
    hide Paired, Gaps;
    var k := |times| - |values|;
    if k >= 0 {
      PairedAfterGaps(times, values);
      assert times[k..][..|values|] == times[k..] && values[..|values|] == values;
      assert values == [] ==> times[..0] == times[k..];
    } else {
      assert times[..|times|] == times;
    }
  }

  lemma {:induction false} PairedAfterGaps(times: seq<real>, values: seq<Option<real>>)
    requires |values| <= |times|
    ensures Paired(times, Gaps(|times| - |values|) + values) == Paired(times[|times| - |values|..], values)
    decreases |times|
  {
    hide Paired, Gaps;
    var k := |values| - 1;
    if values == [] {
      GapsArePaired(times);
      GapsArePaired([]);
      assert Gaps(0) == [];
      assert Gaps(|times|) + values == Gaps(|times|) && times[|times|..] == [];
    } else {
      var n := |times| - 1;
      PairedAfterGaps(times[..n], values[..k]);
      PairedSnoc(times[..n], Gaps(n - k) + values[..k], times[n], values[k]);
      PairedSnoc(times[..n][n - k..], values[..k], times[n], values[k]);
      assert Gaps(n - k) + values[..k] + [values[k]] == Gaps(n - k) + values;
      assert times[..n] + [times[n]] == times && values[..k] + [values[k]] == values;
      assert times[..n][n - k..] + [times[n]] == times[n - k..];
    }
  }

  lemma PairedSnoc(times: seq<real>, values: seq<Option<real>>, time: real, value: Option<real>)
    requires |times| == |values|
    ensures Paired(times + [time], values + [value])
            == Paired(times, values) + (if value.Some? then [(time, value.value)] else [])
  {
    assert (times + [time])[..|times|] == times && (values + [value])[..|values|] == values;
  }

  lemma {:induction false} GapsArePaired(times: seq<real>)
    ensures Paired(times, Gaps(|times|)) == []
  {
    if times != [] {
      var n := |times| - 1;
      GapsArePaired(times[..n]);
      assert Gaps(|times|)[..n] == Gaps(n);
    }
  }

  lemma InStep(calls: seq<Reading>, lane: string)
    ensures Zipped(Stamps(calls), Column(calls, lane)) == Paired(Stamps(calls), Column(calls, lane))
  {
    var times, values := Stamps(calls), Column(calls, lane);
    assert times[..|times|] == times && values[..|values|] == values;
  }

  // Lanes measured in all of the calls kept are read at the same instants.
  lemma {:induction false} SameInstants(calls: seq<Reading>, a: string, b: string)
    requires forall i :: 0 <= i < |calls| ==> a in calls[i].used && b in calls[i].used
    ensures |History(calls, a)| == |History(calls, b)| == |calls|
    ensures forall i :: 0 <= i < |calls| ==> History(calls, a)[i].0 == History(calls, b)[i].0 == calls[i].stamp
  {
    if calls != [] {
      SameInstants(calls[..|calls| - 1], a, b);
    }
  }
}
