// A client of the live history: one that reads a history to its end page by
// page, and one that goes on polling while the writer does.
module HistoryPolls {
  import opened Basics
  import opened HistoryFormat
  import opened HistoryWriter
  import opened HistoryReader
  import opened HistoryGuarantees

  // ---- page after page of a history that stands still ----

  // Every page there is, each asked for from where the one before left off.
  method ReadAll(h: ResourceHistory, q: Query) returns (pages: seq<Page>)
    requires h.Valid() && Admissible(q)
    ensures Following(h.codec, q, pages, Retained(h.manifest.segments, h.disk, h.log))
    ensures Together(pages) == Views(Eligible(q, Retained(h.manifest.segments, h.disk, h.log)), q.worker)
    ensures h.segments != [] && h.segments[|h.segments| - 1].bytes > 0
            && h.manifest == Current(h.segments, h.sequence) ==>
              && 1 <= h.segments[0].first <= |h.log|
              && Together(pages) == Views(Eligible(q, Entries(h.log, h.segments[0].first, |h.log|)), q.worker)
    decreases |Eligible(q, Retained(h.manifest.segments, h.disk, h.log))|
  {
    hide Standing, Told, Honoured, PageOf, Retained, Eligible, Views, TotalSize, Promises, Kept;
    ghost var es := Retained(h.manifest.segments, h.disk, h.log);
    var reply := ReadHistory(h.codec, h.manifest, h.disk, q, false, h.recs, h.log);
    PublishedIsHonoured(h);
    var page := PageIn(h.codec, reply.value);
    if page.more {
      PagesMoveOn(h.codec, q, page, es);
      var rest := ReadAll(h, q.(after := page.cursor));
      pages := [page] + rest;
      assert pages[1..] == rest;
    } else {
      pages := [page];
    }
    PaginationExact(h.codec, q, pages, es);
    if h.segments != [] && h.segments[|h.segments| - 1].bytes > 0 && h.manifest == Current(h.segments, h.sequence) {
      HistoryReadBack(h, q, pages);
    }
  }

  lemma PublishedIsHonoured(h: ResourceHistory)
    requires h.Valid()
    ensures Faithful(h.codec)
    ensures Promises(h.codec, h.manifest, h.recs, h.log) && Kept(h.codec, h.manifest.segments, h.disk, h.recs)
  {
    hide Promises, Kept, Overtaken, Coherent, Tidy, Referable, Told;
  }

  // ---- polls of a history that is being written ----

  // One poll: the moments it took, the manifest and the files it found, and its page.
  datatype Poll = Poll(span: seq<Moment>, manifest: Manifest, files: Disk, page: Page)

  // Where the next poll goes on from.
  function Reached(q: Query, polls: seq<Poll>): int {
    if polls == [] then q.after else polls[|polls| - 1].page.cursor
  }

  ghost predicate Answers(c: Codec, q: Query, p: Poll, recs: seq<Record>, log: seq<Batch>) {
    && Told(c, p.span) && Glimpsed(p.span, p.manifest, p.files)
    && Promises(c, p.manifest, recs, log)
    && PageOf(c, q, p.page, Retained(p.manifest.segments, p.files, log))
    && (p.page.cursor <= Max(q.after, p.manifest.latest) || PastEmpty(q, p.manifest, p.page.cursor))
  }

  // Polls one after another, each with the cursor of the one before, and each
  // of whatever manifest and files there were by then.
  ghost predicate Polled(c: Codec, q: Query, polls: seq<Poll>, recs: seq<Record>, log: seq<Batch>)
    decreases |polls|
  {
    polls != [] ==>
      var n := |polls| - 1;
      && Polled(c, q, polls[..n], recs, log)
      && Answers(c, q.(after := Reached(q, polls[..n])), polls[n], recs, log)
  }

  // All that the client has been given.
  function Shown(polls: seq<Poll>): seq<Entry> {
    if polls == [] then [] else Shown(polls[..|polls| - 1]) + polls[|polls| - 1].page.batches
  }

  // A sample as it was appended, in the client's view of it.
  ghost predicate Genuine(q: Query, e: Entry, log: seq<Batch>) {
    1 <= e.seqNo <= |log|
    && Wanted(q, Entry(e.seqNo, log[e.seqNo - 1])) && e == View(Entry(e.seqNo, log[e.seqNo - 1]), q.worker)
  }

  // Sample `i` was no longer to be had when poll `p` passed it: rotated out of
  // the index by the end of the poll; or it had not been written, and the
  // segment waiting for it was outside the window.
  ghost predicate OutOfReach(q: Query, p: Poll, i: nat) {
    RotatedIn(p.span, i) || PastEmpty(q, p.manifest, i)
  }

  // Sample `i`, once the client's cursor has passed it, was given to it, or is
  // outside its window, or was out of reach when it was passed.
  ghost predicate NotMissed(q: Query, polls: seq<Poll>, log: seq<Batch>, i: nat) {
    1 <= i <= |log| && q.after < i <= Reached(q, polls) ==>
      || View(Entry(i, log[i - 1]), q.worker) in Shown(polls)
      || !InWindow(q, log[i - 1].observedAt)
      || (exists k :: 0 <= k < |polls| && OutOfReach(q, polls[k], i))
  }

  lemma {:induction false} RetainedAscends(c: Codec, m: Manifest, i: nat, files: Disk, recs: seq<Record>,
                                           log: seq<Batch>)
    requires Promises(c, m, recs, log) && i <= |m.segments|
    ensures var es := Retained(m.segments[..i], files, log);
            && Ascending(es)
            && (forall e :: e in es ==> 1 <= e.seqNo <= |log| && e == Entry(e.seqNo, log[e.seqNo - 1]))
            && (forall e :: e in es ==> i > 0 && e.seqNo <= m.segments[i - 1].last)
    decreases i
  {
    hide Contiguous, Accurate, Found, Ascending;
    if i > 0 {
      var s := m.segments[i - 1];
      assert m.segments[..i][..i - 1] == m.segments[..i - 1];
      RetainedAscends(c, m, i - 1, files, recs, log);
      SegmentAt(m.segments, m.latest, i - 1);
      if i > 1 {
        SegmentAt(m.segments, m.latest, i - 2);
      }
      FoundAscends(s, files, log);
      AscendsOn(Retained(m.segments[..i - 1], files, log), Found(s, files, log), s.first);
    } else {
      AscendsOn([], [], 0);
      assert m.segments[..i] == [] && [] + [] == Retained(m.segments[..i], files, log);
    }
  }

  lemma FoundAscends(s: Segment, files: Disk, log: seq<Batch>)
    ensures var es := Found(s, files, log);
            && Ascending(es)
            && forall e :: e in es ==>
                 1 <= s.first <= e.seqNo <= s.last <= |log| && e == Entry(e.seqNo, log[e.seqNo - 1])
  {
  }

  lemma AscendsOn(a: seq<Entry>, b: seq<Entry>, first: nat)
    requires a == [] || Ascending(a)
    requires b == [] || Ascending(b)
    requires forall e :: e in a ==> e.seqNo < first
    requires forall e :: e in b ==> first <= e.seqNo
    ensures Ascending(a + b)
  {
  }

  lemma {:induction false} EligibleAscends(q: Query, es: seq<Entry>)
    requires Ascending(es)
    ensures Ascending(Eligible(q, es))
    decreases |es|
  {
    if es != [] {
      var n := |es| - 1;
      EligibleAscends(q, es[..n]);
      EligibleWanted(q, es[..n]);
      var before := Eligible(q, es[..n]);
      forall j | 0 <= j < |before|
        ensures before[j].seqNo < es[n].seqNo
      {
        assert before[j] in es[..n];
      }
    }
  }

  // A page holds what was appended, in order, between the two cursors.
  lemma PageIsGenuine(c: Codec, q: Query, p: Poll, recs: seq<Record>, log: seq<Batch>)
    requires Answers(c, q, p, recs, log)
    ensures Ascending(p.page.batches) && q.after <= p.page.cursor
    ensures forall e :: e in p.page.batches ==> Genuine(q, e, log) && q.after < e.seqNo <= p.page.cursor
  {
    hide Promises, Retained, TotalSize, Eligible, OfWorker;
    var m := p.manifest;
    var es := Retained(m.segments, p.files, log);
    assert m.segments[..|m.segments|] == m.segments;
    RetainedAscends(c, m, |m.segments|, p.files, recs, log);
    EligibleAscends(q, es);
    EligibleWanted(q, es);
    var wanted := Eligible(q, es);
    forall k | 0 <= k < |p.page.batches|
      ensures p.page.batches[k] == View(wanted[k], q.worker) && wanted[k] in es && Wanted(q, wanted[k])
    {
    }
  }

  // However the polls fall among the appends, rotations and failures of the
  // writer, the client is given each sample at most once, in order, and as it
  // was appended.
  lemma {:induction false} ShownOnce(c: Codec, q: Query, polls: seq<Poll>, recs: seq<Record>, log: seq<Batch>)
    requires Polled(c, q, polls, recs, log)
    ensures Ascending(Shown(polls)) && q.after <= Reached(q, polls)
    ensures forall e :: e in Shown(polls) ==> Genuine(q, e, log) && e.seqNo <= Reached(q, polls)
    decreases |polls|
  {
    hide Answers, View;
    if polls != [] {
      var n := |polls| - 1;
      ShownOnce(c, q, polls[..n], recs, log);
      PageIsGenuine(c, q.(after := Reached(q, polls[..n])), polls[n], recs, log);
    }
  }

  // And nothing is missed.
  lemma {:induction false} NoneMissed(c: Codec, q: Query, polls: seq<Poll>, recs: seq<Record>, log: seq<Batch>, i: nat)
    requires Polled(c, q, polls, recs, log)
    ensures NotMissed(q, polls, log, i)
    decreases |polls|
  {
    hide Answers, View, OutOfReach;
    if polls == [] || !(1 <= i <= |log| && q.after < i <= Reached(q, polls)) {
      return;
    }
    var n := |polls| - 1;
    if i <= Reached(q, polls[..n]) {
      NoneMissed(c, q, polls[..n], recs, log, i);
      if k :| 0 <= k < n && OutOfReach(q, polls[..n][k], i) {
        assert OutOfReach(q, polls[k], i);
      }
    } else {
      PageMissesNone(c, q.(after := Reached(q, polls[..n])), polls[n], recs, log, i);
      OutOfReachAnyhow(q, Reached(q, polls[..n]), polls[n], i);
    }
  }

  lemma OutOfReachAnyhow(q: Query, after: int, p: Poll, i: nat)
    ensures OutOfReach(q.(after := after), p, i) == OutOfReach(q, p, i)
  {
    assert forall at :: InWindow(q.(after := after), at) == InWindow(q, at);
  }

  lemma PageMissesNone(c: Codec, q: Query, p: Poll, recs: seq<Record>, log: seq<Batch>, i: nat)
    requires Answers(c, q, p, recs, log) && 1 <= i <= |log| && q.after < i <= p.page.cursor
    ensures || View(Entry(i, log[i - 1]), q.worker) in p.page.batches
            || !InWindow(q, log[i - 1].observedAt)
            || OutOfReach(q, p, i)
  {
    hide PageOf, View, Accurate, Retained, Told, Glimpsed, RotatedIn;
    if i <= p.manifest.latest {
      NoGap(c, q, p.span, p.manifest, p.files, recs, log, p.page, i);
    }
  }

  // What one poll comes upon, from one moment of the run until before another.
  datatype Look = Look(from: nat, until: nat, manifest: Manifest, files: Disk)

  function Span(moments: seq<Moment>, look: Look): seq<Moment> {
    if look.from <= look.until <= |moments| then moments[look.from..look.until] else []
  }

  lemma Spanned(h: ResourceHistory, look: Look)
    requires h.Valid() && Glimpsed(Span(h.Moments(), look), look.manifest, look.files)
    ensures look.from <= look.until <= |h.Moments()| && Span(h.Moments(), look) == h.Moments()[look.from..look.until]
    ensures Told(h.codec, Span(h.Moments(), look))
  {
    hide Standing, Honoured, SeenIn, GoneIn;
    RunLeads(h, look.from, look.until, look.manifest, look.files);
  }

  // A client that polls as the run goes on: none of its polls fails, each
  // sample it is given it is given once and whole, and none is missed.
  method Tail(h: ResourceHistory, q: Query, looks: seq<Look>) returns (replies: seq<Reply>, ghost polls: seq<Poll>)
    requires h.Valid() && Admissible(q)
    requires forall k :: 0 <= k < |looks| ==>
               Glimpsed(Span(h.Moments(), looks[k]), looks[k].manifest, looks[k].files)
    ensures |replies| == |polls| == |looks|
    ensures forall k :: 0 <= k < |looks| ==>
              polls[k] == Poll(Span(h.Moments(), looks[k]), looks[k].manifest, looks[k].files,
                  PageIn(h.codec, replies[k]))
    ensures Polled(h.codec, q, polls, h.recs, h.log)
    ensures Ascending(Shown(polls)) && forall e :: e in Shown(polls) ==> Genuine(q, e, h.log)
    ensures forall i: nat :: NotMissed(q, polls, h.log, i)
  {
    hide Standing, Told, Promises, PageOf, Retained, Glimpsed, Shown, Ascending, Genuine, OutOfReach, View, PastEmpty,
         NotMissed;
    replies, polls := [], [];
    var cursor := q.after;
    for k := 0 to |looks|
      invariant |replies| == |polls| == k
      invariant forall j :: 0 <= j < k ==>
                  polls[j] == Poll(Span(h.Moments(), looks[j]), looks[j].manifest, looks[j].files,
                      PageIn(h.codec, replies[j]))
      invariant Polled(h.codec, q, polls, h.recs, h.log)
      invariant cursor == Reached(q, polls) && q.after <= cursor
    {
      var asked := q.(after := cursor);
      var look := looks[k];
      Spanned(h, look);
      var r := ReadAtAnyMoment(h, look.from, look.until, look.manifest, look.files, asked, false);
      ghost var poll := Poll(Span(h.Moments(), look), look.manifest, look.files, PageIn(h.codec, r.value));
      PageIsGenuine(h.codec, asked, poll, h.recs, h.log);
      assert (polls + [poll])[..k] == polls;
      replies, polls, cursor := replies + [r.value], polls + [poll], r.value.nextAfter;
    }
    ShownOnce(h.codec, q, polls, h.recs, h.log);
    forall i: nat
      ensures NotMissed(q, polls, h.log, i)
    {
      NoneMissed(h.codec, q, polls, h.recs, h.log, i);
    }
  }
}
