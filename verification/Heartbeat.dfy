// The heartbeat's thread: a tick of every ticker on every wake, a beat once an
// interval, and the test it names published by the recorder as one pair, an id
// and its hash, that may change under it at any moment.
module Heartbeats {
  import opened Basics

  datatype Identity = Identity(nodeid: Option<string>, hash: Option<string>)

  // A beat as it is recorded, and as each observer is told of it.
  datatype Beat = Beat(at: int, recorded: Identity, observed: seq<Identity>)

  // A wake: when it finds whether a beat is due, and when it then reads the
  // clock for the next.
  datatype Wake = Wake(checked: int, rearmed: int)

  // The wakes of a thread started at `start`, never more than `gap` apart.
  predicate Wakes(start: int, wakes: seq<Wake>, gap: int) {
    forall i :: 0 <= i < |wakes| ==> Follows(Before(start, wakes, i), wakes[i], gap)
  }

  function Before(start: int, wakes: seq<Wake>, i: nat): int
    requires i <= |wakes|
  {
    if i == 0 then start else wakes[i - 1].rearmed
  }

  predicate Follows(before: int, wake: Wake, gap: int) {
    before <= wake.checked <= wake.rearmed <= before + gap
  }

  // Beats a full interval apart, the first a full interval from the start.
  predicate Spaced(start: int, beats: seq<Beat>, interval: int) {
    && (beats != [] ==> beats[0].at >= start + interval)
    && forall i, j :: 0 <= i < j < |beats| ==> beats[i].at + interval <= beats[j].at
  }

  // No two beats in a row, nor the start and the first, a gap more than that apart.
  ghost predicate Prompt(start: int, beats: seq<Beat>, interval: int, gap: int) {
    && (beats != [] ==> beats[0].at < start + interval + 2 * gap)
    && forall i, j :: 0 <= i < j < |beats| && j == i + 1 ==> beats[j].at < beats[i].at + interval + 2 * gap
  }

  function LastBeat(start: int, beats: seq<Beat>): int {
    if beats == [] then start else beats[|beats| - 1].at
  }

  // Every beat names an identity published from the `n`th on.
  ghost predicate Named(beats: seq<Beat>, published: seq<Identity>, n: nat) {
    n <= |published| && forall i :: 0 <= i < |beats| ==> beats[i].recorded in published[n..]
  }

  lemma NamesOneMore(beats: seq<Beat>, more: seq<Beat>, published: seq<Identity>, longer: seq<Identity>, n: nat)
    requires Named(beats, published, n) && published <= longer && n < |published|
    requires |more| == |beats| + 1 && more[..|beats|] == beats
    requires more[|beats|].recorded in longer[|published| - 1..]
    ensures Named(more, longer, n)
  {
    forall i | 0 <= i < |more|
      ensures more[i].recorded in longer[n..]
    {
      if i < |beats| {
        assert more[i] == beats[i];
        var k :| 0 <= k < |published[n..]| && published[n..][k] == beats[i].recorded;
        assert longer[n..][k] == beats[i].recorded;
      } else {
        var k :| 0 <= k < |longer[|published| - 1..]| && longer[|published| - 1..][k] == more[i].recorded;
        assert longer[n..][|published| - 1 + k - n] == more[i].recorded;
      }
    }
  }

  lemma AnotherBeat(start: int, beats: seq<Beat>, more: seq<Beat>, interval: int, gap: int)
    requires Spaced(start, beats, interval) && Prompt(start, beats, interval, gap) && interval >= 0
    requires |more| == |beats| + 1 && more[..|beats|] == beats
    requires LastBeat(start, beats) + interval <= more[|beats|].at < LastBeat(start, beats) + interval + 2 * gap
    ensures Spaced(start, more, interval) && Prompt(start, more, interval, gap)
  {
    assert forall i :: 0 <= i < |beats| ==> more[i] == beats[i];
  }

  class Heartbeat {
    const interval: int
    const hashOf: Option<string> -> Option<string>
    const observers: nat

    var identity: Identity
    var ticks: nat
    var beats: seq<Beat>

    ghost var published: seq<Identity>  // every identity there has been, in order

    // The hash published is always that of the id published with it.
    ghost predicate Valid()
      reads this
    {
      && interval >= 1 && identity.hash == hashOf(identity.nodeid)
      && published != [] && published[|published| - 1] == identity
      && forall i :: 0 <= i < |beats| ==> Truthful(beats[i])
    }

    // One measurement names one test, to the record and to every observer, by
    // an id and the hash of that id.
    predicate Truthful(b: Beat)
    {
      && b.recorded.hash == hashOf(b.recorded.nodeid)
      && |b.observed| == observers && forall k :: 0 <= k < |b.observed| ==> b.observed[k] == b.recorded
    }

    constructor (interval: int, hashOf: Option<string> -> Option<string>, observers: nat)
      requires hashOf(None) == None
      ensures Valid() && beats == [] && ticks == 0 && this.interval == Max(1, interval)
      ensures identity == Identity(None, None)
    {
      this.interval := Max(1, interval);
      this.hashOf := hashOf;
      this.observers := observers;
      identity, ticks, beats := Identity(None, None), 0, [];
      published := [Identity(None, None)];
    }

    method SetNodeid(value: Option<string>)
      requires Valid()
      modifies this`identity, this`published
      ensures Valid() && identity == Identity(value, hashOf(value))
      ensures published == if value == old(identity).nodeid then old(published) else old(published) + [identity]
    {
      if value == identity.nodeid {
        return;
      }
      identity := Identity(value, hashOf(value));
      published := published + [identity];
    }

    // The recorder's thread moves on, any number of times.
    method Others()
      requires Valid()
      modifies this`identity, this`published
      ensures Valid() && old(published) <= published
    {
      var n: nat := *;
      while n > 0
        invariant Valid() && old(published) <= published
      {
        var value: Option<string> := *;
        SetNodeid(value);
        n := n - 1;
      }
    }

    // The pair is read once; recording it, and each observer, can yield to the
    // recorder.
    method MakeBeat(now: int)
      requires Valid()
      modifies this`identity, this`beats, this`published
      ensures Valid() && |beats| == |old(beats)| + 1 && old(published) <= published
      ensures beats[..|old(beats)|] == old(beats) && beats[|old(beats)|].at == now
      // the test named is one that was running at some moment of this call
      ensures beats[|old(beats)|].recorded in published[|old(published)| - 1..]
    {
      Others();
      var seen := identity;
      var told: seq<Identity> := [];
      Others();
      while |told| < observers
        invariant Valid() && beats == old(beats) && |told| <= observers && old(published) <= published
        invariant seen in published[|old(published)| - 1..]
        invariant seen.hash == hashOf(seen.nodeid) && forall k :: 0 <= k < |told| ==> told[k] == seen
        decreases observers - |told|
      {
        told := told + [seen];
        Others();
      }
      beats := beats + [Beat(now, seen, told)];
    }

    // From its start to its stop: a tick on every wake, and beats an interval
    // apart, late by no more than the wakes are.
    method Run(start: int, wakes: seq<Wake>, gap: int)
      requires Valid() && beats == [] && gap >= 0 && Wakes(start, wakes, gap)
      modifies this`identity, this`beats, this`ticks, this`published
      ensures Valid() && ticks == old(ticks) + |wakes| && old(published) <= published
      ensures Named(beats, published, |old(published)| - 1)
      ensures Spaced(start, beats, interval) && Prompt(start, beats, interval, gap)
      ensures wakes != [] ==> wakes[|wakes| - 1].checked < LastBeat(start, beats) + interval + 2 * gap
    {
      hide Spaced, Prompt, Truthful, Named;
      var due := start + interval;
      NoBeats(start, interval, gap, published);
      for i := 0 to |wakes|
        invariant Valid() && ticks == old(ticks) + i && old(published) <= published
        invariant Named(beats, published, |old(published)| - 1)
        invariant Spaced(start, beats, interval) && Prompt(start, beats, interval, gap)
        invariant due == LastBeat(start, beats) + interval
        invariant Before(start, wakes, i) < due + gap
        invariant i > 0 ==> wakes[i - 1].checked <= wakes[i - 1].rearmed
      {
        assert Follows(Before(start, wakes, i), wakes[i], gap);
        ticks := ticks + 1;
        if wakes[i].checked >= due {
          due := wakes[i].rearmed + interval;
          ghost var before, told := beats, published;
          MakeBeat(wakes[i].rearmed);
          AnotherBeat(start, before, beats, interval, gap);
          NamesOneMore(before, beats, told, published, |old(published)| - 1);
        }
      }
    }
  }

  lemma NoBeats(start: int, interval: int, gap: int, published: seq<Identity>)
    ensures Spaced(start, [], interval) && Prompt(start, [], interval, gap)
    ensures published != [] ==> Named([], published, |published| - 1)
  {
  }
}
