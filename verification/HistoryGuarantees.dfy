// What the writer and the reader of the live history guarantee together.
module HistoryGuarantees {
  import opened Basics
  import opened HistoryFormat
  import opened HistoryWriter
  import opened HistoryReader

  // ---- retention ----

  ghost function DiskBytes(disk: Disk): nat {
    if disk == map[] then 0
    else
      var f :| f in disk;
      |disk[f]| + DiskBytes(disk - {f})
  }

  lemma {:induction false} WithoutOne(disk: Disk, f: nat)
    requires f in disk
    ensures DiskBytes(disk) == |disk[f]| + DiskBytes(disk - {f})
    decreases |disk|
  {
    var g :| g in disk && DiskBytes(disk) == |disk[g]| + DiskBytes(disk - {g});
    if f != g {
      WithoutOne(disk - {g}, f);
      WithoutOne(disk - {f}, g);
      assert disk - {g} - {f} == disk - {f} - {g};
    }
  }

  lemma {:induction false} FilesTotal(segments: seq<Segment>, disk: Disk)
    requires forall i, j :: 0 <= i < j < |segments| ==> segments[i].first != segments[j].first
    requires forall i :: 0 <= i < |segments| ==>
               segments[i].first in disk && |disk[segments[i].first]| == segments[i].bytes
    requires forall f :: f in disk ==> Listed(segments, f)
    ensures DiskBytes(disk) == Total(segments)
    decreases |segments|
  {
    if segments == [] {
      assert disk == map[];
    } else {
      var rest := segments[1..];
      assert forall i :: 0 <= i < |rest| ==> rest[i] == segments[i + 1];
      forall f | f in disk - {segments[0].first}
        ensures Listed(rest, f)
      {
        var s :| s in segments && s.first == f;
        assert s in rest;
      }
      FilesTotal(rest, disk - {segments[0].first});
      WithoutOne(disk, segments[0].first);
    }
  }

  // In a run with no failed I/O the segment files hold at most the budget, and
  // once anything has been given up, more than the budget less one segment.
  lemma RetentionBound(h: ResourceHistory)
    requires h.Valid() && h.clean
    ensures DiskBytes(h.disk) <= h.maxBytes
    ensures h.segments != [] && h.segments[0].first > 1 ==>
              DiskBytes(h.disk) > h.maxBytes - Max(MAX_LINE, h.maxBytes / 16)
  {
    hide Coherent, Honoured, Referable;
    assert Tidy(h.Contents(), h.maxBytes, h.segmentBytes, 0);
    CoherentIsContiguous(h.codec, h.Contents());
    FilesTotal(h.segments, h.disk);
  }

  // ---- reading what is there ----

  lemma EntriesJoin(log: seq<Batch>, a: nat, b: nat, d: nat)
    requires 1 <= a <= b + 1 <= d + 1 && d <= |log|
    ensures Entries(log, a, b) + Entries(log, b + 1, d) == Entries(log, a, d)
  {
  }

  lemma IndexedRange(c: Codec, m: Manifest, i: nat, recs: seq<Record>, log: seq<Batch>)
    requires Promises(c, m, recs, log) && i < |m.segments| && m.segments[i].bytes > 0
    ensures 1 <= m.segments[i].first <= m.segments[i].last <= |log|
    ensures i > 0 ==> m.segments[i - 1].last + 1 == m.segments[i].first
  {
    hide Means, Lines;
    assert m.segments[i] in m.segments;
  }

  lemma {:induction false} RetainedPrefix(c: Codec, m: Manifest, i: nat, files: Disk, recs: seq<Record>,
                                          log: seq<Batch>)
    requires Promises(c, m, recs, log) && AllFound(m.segments, files) && 1 <= i <= |m.segments|
    ensures 1 <= m.segments[0].first <= m.segments[i - 1].last <= |log|
    ensures Retained(m.segments[..i], files, log) == Entries(log, m.segments[0].first, m.segments[i - 1].last)
    decreases i
  {
    hide Promises, Entries;
    var s := m.segments[i - 1];
    assert s in m.segments;
    IndexedRange(c, m, i - 1, recs, log);
    assert m.segments[..i][..i - 1] == m.segments[..i - 1];
    assert Found(s, files, log) == Entries(log, s.first, s.last);
    if i > 1 {
      RetainedPrefix(c, m, i - 1, files, recs, log);
      EntriesJoin(log, m.segments[0].first, s.first - 1, s.last);
    } else {
      assert Retained(m.segments[..0], files, log) == [];
    }
  }

  // With every segment there, what is retained is the log from the earliest
  // sample indexed to the latest.
  lemma RetainedIsTheLog(c: Codec, m: Manifest, files: Disk, recs: seq<Record>, log: seq<Batch>)
    requires Promises(c, m, recs, log) && AllFound(m.segments, files) && m.segments != []
    ensures m.earliest.Some? && 1 <= m.earliest.value <= m.latest <= |log|
    ensures Retained(m.segments, files, log) == Entries(log, m.earliest.value, m.latest)
  {
    RetainedPrefix(c, m, |m.segments|, files, recs, log);
    assert m.segments[..|m.segments|] == m.segments;
    assert m.segments[|m.segments| - 1] in m.segments;
  }

  // Over a history that does not change between pages, following them gives
  // back exactly the samples appended and not rotated away, above the cursor
  // and inside the window: each once, in order, as they were appended.
  lemma HistoryReadBack(h: ResourceHistory, q: Query, pages: seq<Page>)
    requires h.Valid() && h.segments != [] && h.manifest == Current(h.segments, h.sequence)
    requires h.segments[|h.segments| - 1].bytes > 0
    requires Following(h.codec, q, pages, Retained(h.manifest.segments, h.disk, h.log))
    ensures 1 <= h.segments[0].first <= |h.log|
    ensures Together(pages) == Views(Eligible(q, Entries(h.log, h.segments[0].first, |h.log|)), q.worker)
  {
    IndexIsComplete(h);
    RetainedIsTheLog(h.codec, h.manifest, h.disk, h.recs, h.log);
    PaginationExact(h.codec, q, pages, Retained(h.manifest.segments, h.disk, h.log));
  }

  lemma IndexIsComplete(h: ResourceHistory)
    requires h.Valid() && h.segments != [] && h.segments[|h.segments| - 1].bytes > 0
    ensures AllFound(h.segments, h.disk)
    ensures h.manifest == Current(h.segments, h.sequence) ==> Promises(h.codec, h.manifest, h.recs, h.log)
  {
    hide Accurate, Kept, Overtaken, Tidy, Referable;
    forall s | s in h.segments
      ensures s.bytes > 0
    {
      var i :| 0 <= i < |h.segments| && h.segments[i] == s;
    }
  }

  // ---- reading while the writer goes on, whatever fails ----

  ghost predicate SeenIn(moments: seq<Moment>, file: nat, content: seq<byte>) {
    exists k :: 0 <= k < |moments| && file in moments[k].book.disk && moments[k].book.disk[file] == content
  }

  // What one read may come upon, in the moments it takes: a manifest published
  // by the first of them, and each file as it is at some moment among them,
  // each at its own, or found to be gone.
  ghost predicate Glimpsed(span: seq<Moment>, m: Manifest, files: Disk) {
    && span != [] && m in span[0].published
    && (forall f :: f in files ==> SeenIn(span, f, files[f]))
    && (forall s :: s in m.segments && s.bytes > 0 && s.first !in files ==> GoneIn(span, s.first))
  }

  ghost predicate GoneIn(span: seq<Moment>, file: nat) {
    exists k :: 0 <= k < |span| && file !in span[k].book.disk
  }

  // Sample `i` is rotated out of the index at some moment among these.
  ghost predicate RotatedIn(span: seq<Moment>, i: nat) {
    exists k :: 0 <= k < |span| && RotatedOut(span[k].book, i)
  }

  // A manifest published by one moment is honoured at every later one, in the
  // terms of the run as it now stands.
  lemma HonouredLater(c: Codec, moments: seq<Moment>, i: nat, k: nat, m: Manifest, now: Book)
    requires Told(c, moments) && i <= k < |moments| && m in moments[i].published
    requires moments[k].book.recs <= now.recs && moments[k].book.log <= now.log && |now.recs| == |now.log|
    ensures Promises(c, m, now.recs, now.log) && Kept(c, m.segments, moments[k].book.disk, now.recs)
  {
    hide Promises, Kept, Overtaken;
    assert i < k ==> Leads(moments[i], moments[k]);
    var past := moments[k].book;
    PromisedIsRecorded(c, m, past.recs, past.log);
    PromisesExtend(c, m, past.recs, past.log, now.recs, now.log);
    KeptExtends(c, m.segments, past.disk, past.recs, now.recs);
  }

  lemma ToldPart(c: Codec, moments: seq<Moment>, i: nat, j: nat)
    requires Told(c, moments) && i <= j <= |moments|
    ensures Told(c, moments[i..j])
  {
    hide Honoured;
  }

  // A reader holds a manifest of some moment and finds each file as it is at
  // some later one. Whatever has been appended, rotated away or has failed
  // meanwhile, a file still there begins with what was promised of it.
  lemma GlimpsesAreHonest(c: Codec, span: seq<Moment>, m: Manifest, files: Disk, now: Book)
    requires Told(c, span) && Glimpsed(span, m, files) && |now.recs| == |now.log|
    requires span[|span| - 1].book.recs <= now.recs && span[|span| - 1].book.log <= now.log
    ensures Promises(c, m, now.recs, now.log) && Kept(c, m.segments, files, now.recs)
  {
    hide Promises, Honoured, Lines, Means, GoneIn;
    LastLeads(c, span, now);
    HonouredLater(c, span, 0, 0, m, now);
    forall s | s in m.segments && s.bytes > 0 && s.first in files && 1 <= s.first <= s.last <= |now.recs|
      ensures s.bytes <= |files[s.first]| && files[s.first][..s.bytes] == Lines(c, Of(s, now.recs))
    {
      var k :| 0 <= k < |span| && s.first in span[k].book.disk && span[k].book.disk[s.first] == files[s.first];
      HonouredLater(c, span, 0, k, m, now);
    }
  }

  // A file that is gone is gone because all it was promised to hold has been
  // rotated out of the index, by the time the read was over; and so is what
  // comes before the earliest sample promised.
  lemma GoneIsRotated(c: Codec, span: seq<Moment>, m: Manifest, files: Disk, s: Segment, i: nat)
    requires Told(c, span) && Glimpsed(span, m, files)
    ensures s in m.segments && s.bytes > 0 && s.first !in files && i <= s.last ==> RotatedIn(span, i)
    ensures m.segments != [] && i < m.segments[0].first ==> RotatedIn(span, i)
  {
    hide Promises, Kept, Overtaken;
    LastingThroughout(c, span, m);
    if s in m.segments && s.bytes > 0 && s.first !in files && i <= s.last {
      var k :| 0 <= k < |span| && s.first !in span[k].book.disk;
      assert Lasting(m, span[k].book);
      assert RotatedOut(span[k].book, i);
    }
    if m.segments != [] && i < m.segments[0].first {
      assert Lasting(m, span[0].book);
      assert RotatedOut(span[0].book, i);
    }
  }

  lemma LastingThroughout(c: Codec, span: seq<Moment>, m: Manifest)
    requires Told(c, span) && span != [] && m in span[0].published
    ensures forall k :: 0 <= k < |span| ==> Lasting(m, span[k].book)
  {
    hide Promises, Kept, Overtaken, Lasting;
    forall k | 0 <= k < |span|
      ensures Lasting(m, span[k].book)
    {
      assert k > 0 ==> Leads(span[0], span[k]);
    }
  }

  lemma LastLeads(c: Codec, moments: seq<Moment>, now: Book)
    requires Told(c, moments) && moments != []
    requires moments[|moments| - 1].book.recs <= now.recs && moments[|moments| - 1].book.log <= now.log
    ensures forall k :: 0 <= k < |moments| ==> moments[k].book.recs <= now.recs && moments[k].book.log <= now.log
  {
    hide Honoured;
    forall k | 0 <= k < |moments|
      ensures moments[k].book.recs <= now.recs && moments[k].book.log <= now.log
    {
      assert k < |moments| - 1 ==> Leads(moments[k], moments[|moments| - 1]);
    }
  }

  // The calls of a run, and what goes wrong in each.
  datatype Call = Appending(batch: Batch, fault: Fault) | Publishing

  // Any run of the writer at all.
  method Drive(h: ResourceHistory, calls: seq<Call>)
    requires h.Valid()
    requires forall x :: x in calls && x.Appending? ==> ReferenceFits(h.codec, x.batch.files, h.sequence + |calls|)
    modifies h
    ensures h.Valid() && old(h.Moments()) <= h.Moments() && |h.Moments()| >= |old(h.Moments())| + |calls|
    ensures old(h.recs) <= h.recs && old(h.log) <= h.log && old(h.published) <= h.published
  {
    hide Standing, Told;
    for k := 0 to |calls|
      invariant h.Valid() && old(h.Moments()) <= h.Moments() && |h.Moments()| >= |old(h.Moments())| + k
      invariant old(h.recs) <= h.recs && old(h.log) <= h.log && old(h.published) <= h.published
      invariant h.sequence <= old(h.sequence) + k
    {
      match calls[k]
      case Appending(batch, fault) =>
        FitsEarlier(h.codec, batch.files, h.sequence + 1, old(h.sequence) + |calls|);
        var _ := h.Append(batch, fault);
      case Publishing =>
        h.Publish();
    }
  }

  lemma FitsEarlier(c: Codec, files: Option<Json>, n: nat, m: nat)
    requires ReferenceFits(c, files, m) && n <= m
    ensures ReferenceFits(c, files, n)
  {
    DigitsMonotone(n, m);
  }

  // A page read while the writer goes on, from moment `i` until before moment `j`.
  method ReadAtAnyMoment(h: ResourceHistory, ghost i: nat, ghost j: nat, m: Manifest, files: Disk, q: Query,
                         latest: bool)
    returns (r: Result<Reply, ReadError>)
    requires h.Valid() && i <= j <= |h.Moments()| && Glimpsed(h.Moments()[i..j], m, files)
    ensures r.Success? <==> Admissible(q)
    ensures r.Success? ==>
              && Promises(h.codec, m, h.recs, h.log)
              && PageOf(h.codec, Asked(q, latest, m), PageIn(h.codec, r.value), Retained(m.segments, files, h.log))
              && (|| r.value.nextAfter <= Max(Asked(q, latest, m).after, m.latest)
                  || PastEmpty(Asked(q, latest, m), m, r.value.nextAfter))
  {
    hide Standing, Told, Promises, Kept, PageOf, Retained, Glimpsed;
    IsRecorded(h);
    RunLeads(h, i, j, m, files);
    GlimpsesAreHonest(h.codec, h.Moments()[i..j], m, files, h.Contents());
    r := ReadHistory(h.codec, m, files, q, latest, h.recs, h.log);
  }

  // What a read comes upon is part of the run.
  lemma RunLeads(h: ResourceHistory, i: nat, j: nat, m: Manifest, files: Disk)
    requires h.Valid() && i <= j <= |h.Moments()| && Glimpsed(h.Moments()[i..j], m, files)
    ensures Told(h.codec, h.Moments()[i..j]) && h.Moments()[i..j] != []
    ensures var last := h.Moments()[i..j][|h.Moments()[i..j]| - 1].book;
            last.recs <= h.recs && last.log <= h.log
  {
    hide Standing, Honoured, SeenIn, GoneIn;
    ToldPart(h.codec, h.Moments(), i, j);
    LastLeads(h.codec, h.Moments(), h.Contents());
  }

  lemma IsRecorded(h: ResourceHistory)
    requires h.Valid()
    ensures |h.recs| == |h.log| && Faithful(h.codec)
  {
    hide Honoured, Tidy, Referable, Told;
  }

  // With every segment there, asking for the latest gives the newest sample
  // published and no other, unless it is outside the window or already had.
  lemma LatestIsNewest(c: Codec, q: Query, m: Manifest, files: Disk, recs: seq<Record>, log: seq<Batch>, p: Page)
    requires Promises(c, m, recs, log) && AllFound(m.segments, files) && m.segments != [] && q.limit >= 1
    requires PageOf(c, Asked(q, true, m), p, Retained(m.segments, files, log))
    ensures 1 <= m.latest <= |log| && !p.more
    ensures p.batches == if q.after < m.latest && InWindow(q, log[m.latest - 1].observedAt)
                         then [View(Entry(m.latest, log[m.latest - 1]), q.worker)] else []
  {
    hide View, TotalSize, Promises, Retained, Eligible, Entries, InWindow;
    RetainedIsTheLog(c, m, files, recs, log);
    NewestAlone(Asked(q, true, m), log, m.earliest.value, m.latest);
    AsksTheSame(q, true, m);
    var wanted := Eligible(Asked(q, true, m), Entries(log, m.earliest.value, m.latest));
    assert wanted[..|wanted|] == wanted;
  }

  lemma {:induction false} NewestAlone(q: Query, log: seq<Batch>, a: nat, b: nat)
    requires 1 <= a <= b <= |log| && q.after >= b - 1
    ensures Eligible(q, Entries(log, a, b))
            == if q.after < b && InWindow(q, log[b - 1].observedAt) then [Entry(b, log[b - 1])] else []
  {
    var es := Entries(log, a, b);
    NothingAbove(q, es[..|es| - 1]);
  }

  lemma {:induction false} NothingAbove(q: Query, es: seq<Entry>)
    requires forall e :: e in es ==> e.seqNo <= q.after
    ensures Eligible(q, es) == []
    decreases |es|
  {
    if es != [] {
      assert es[|es| - 1] in es;
      NothingAbove(q, es[..|es| - 1]);
    }
  }

  // No gap: a sample the cursor has passed was returned, or is outside the
  // window, or was rotated out of the index by the time the read was over.
  lemma NoGap(c: Codec, q: Query, span: seq<Moment>, m: Manifest, files: Disk, recs: seq<Record>, log: seq<Batch>,
              p: Page, i: nat)
    requires Told(c, span) && Glimpsed(span, m, files)
    requires Promises(c, m, recs, log) && PageOf(c, q, p, Retained(m.segments, files, log))
    requires 1 <= i <= m.latest && q.after < i <= p.cursor
    ensures || View(Entry(i, log[i - 1]), q.worker) in p.batches
            || !InWindow(q, log[i - 1].observedAt)
            || RotatedIn(span, i)
  {
    hide Told, Glimpsed, PageOf, Retained, Accurate, RotatedIn, View;
    if i < m.segments[0].first {
      GoneIsRotated(c, span, m, files, m.segments[0], i);
    } else {
      var k := SegmentOf(m.segments, m.latest, i);
      if m.segments[k].first !in files {
        GoneIsRotated(c, span, m, files, m.segments[k], i);
      } else {
        NotSkipped(c, q, m, files, recs, log, p, i, k);
      }
    }
  }

  // Nor is any sample skipped of a segment whose file was found.
  lemma NotSkipped(c: Codec, q: Query, m: Manifest, files: Disk, recs: seq<Record>, log: seq<Batch>, p: Page, i: nat,
                   k: nat)
    requires Promises(c, m, recs, log) && PageOf(c, q, p, Retained(m.segments, files, log))
    requires 1 <= i <= |log| && q.after < i <= p.cursor
    requires k < |m.segments| && m.segments[k].bytes > 0 && m.segments[k].first in files
    requires m.segments[k].first <= i <= m.segments[k].last
    ensures || View(Entry(i, log[i - 1]), q.worker) in p.batches
            || !InWindow(q, log[i - 1].observedAt)
  {
    hide Promises, PageOf, Retained, Found, View;
    var e := Entry(i, log[i - 1]);
    var s := m.segments[k];
    IndexedRange(c, m, k, recs, log);
    if Wanted(q, e) {
      FoundAt(s, files, log, i);
      FoundIsRetained(m.segments, files, log, k);
      PassedMeansReturned(c, q, p, Retained(m.segments, files, log), e);
    }
  }

  lemma FoundAt(s: Segment, files: Disk, log: seq<Batch>, i: nat)
    requires s.bytes > 0 && s.first in files && 1 <= s.first <= i <= s.last <= |log|
    ensures Entry(i, log[i - 1]) in Found(s, files, log)
  {
    assert Found(s, files, log)[i - s.first] == Entry(i, log[i - 1]);
  }

  lemma PassedMeansReturned(c: Codec, q: Query, p: Page, es: seq<Entry>, e: Entry)
    requires PageOf(c, q, p, es) && e in es && Wanted(q, e) && e.seqNo <= p.cursor
    ensures View(e, q.worker) in p.batches
  {
    hide TotalSize, View;
    EligibleWanted(q, es);
    var w :| 0 <= w < |Eligible(q, es)| && Eligible(q, es)[w] == e;
    assert p.batches[w] == View(e, q.worker);
  }

  lemma {:induction false} FoundIsRetained(segments: seq<Segment>, files: Disk, log: seq<Batch>, k: nat)
    requires k < |segments|
    ensures forall e :: e in Found(segments[k], files, log) ==> e in Retained(segments, files, log)
    decreases |segments|
  {
    if k < |segments| - 1 {
      FoundIsRetained(segments[..|segments| - 1], files, log, k);
    }
  }

  // The segment a sequence number falls in.
  lemma {:induction false} SegmentOf(segments: seq<Segment>, latest: nat, i: nat) returns (k: nat)
    requires Contiguous(segments, latest) && segments != [] && segments[0].first <= i <= latest
    ensures k < |segments| && segments[k].first <= i <= segments[k].last && segments[k].bytes > 0
  {
    k := 0;
    while segments[k].last < i
      invariant k < |segments| && segments[k].first <= i
      decreases |segments| - k
    {
      k := k + 1;
    }
  }
}
