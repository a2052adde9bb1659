// The writer of the live resource history: a byte-budgeted log of numbered
// segments under a small manifest, kept readable through failed writes.
module HistoryWriter {
  import opened Basics
  import opened HistoryFormat

  // A segment's line in the manifest. The file is named by its first sequence number.
  datatype Segment = Segment(first: nat, last: nat, bytes: nat, from: int, to: int)

  datatype Manifest = Manifest(segments: seq<Segment>, latest: nat, earliest: Option<nat>, historyBytes: nat)

  // The segment files, by the name's number.
  type Disk = map<nat, seq<byte>>

  // Where one call of Append meets an I/O failure, if it does. A short write
  // leaves the first `kept` bytes of the record in the file, after it was cut
  // back to what is known to be good.
  datatype Fault =
    | NoFault
    | UnlinkFails(removed: nat)
    | OpenFails
    | WriteFails(kept: nat)
    | PublishFails

  datatype Outcome =
    | Committed
    | RunFinished    // FileNotFoundError
    | TooLarge       // ValueError
    | IoError(recorded: bool)

  function Total(segments: seq<Segment>): nat {
    if segments == [] then 0 else segments[0].bytes + Total(segments[1..])
  }

  lemma {:induction false} TotalSnoc(xs: seq<Segment>, x: Segment)
    ensures Total(xs + [x]) == Total(xs) + x.bytes
  {
    if xs == [] {
      assert xs + [x] == [x] && [x][1..] == [];
    } else {
      assert (xs + [x])[1..] == xs[1..] + [x];
      TotalSnoc(xs[1..], x);
    }
  }

  // ---- what a manifest promises ----

  // The records of a segment. A segment nothing has been written to has none.
  function Of<T>(s: Segment, all: seq<T>): seq<T>
    requires s.bytes > 0 ==> 1 <= s.first <= s.last + 1 && s.last <= |all|
  {
    if s.bytes == 0 then [] else all[s.first - 1..s.last]
  }

  // The segments cover 1.. or some later number up to `latest` without a gap;
  // only the last may be empty, and is then waiting for the next number.
  ghost predicate Contiguous(segments: seq<Segment>, latest: nat) {
    && (segments == [] ==> latest == 0)
    && (forall i :: 0 <= i < |segments| ==> 1 <= segments[i].first <= segments[i].last)
    && (forall i, j :: 0 <= i < j < |segments| ==>
          && segments[i].bytes > 0 && segments[i].last < segments[j].first
          && (j == i + 1 ==> segments[i].last + 1 == segments[j].first))
    && (segments != [] ==>
          var s := segments[|segments| - 1];
          if s.bytes > 0 then s.last == latest else s.first == s.last == latest + 1)
  }

  lemma SegmentAt(segments: seq<Segment>, latest: nat, i: nat)
    requires Contiguous(segments, latest) && i < |segments|
    ensures 1 <= segments[i].first <= segments[i].last
    ensures if segments[i].bytes > 0 then segments[i].last <= latest
            else segments[i].first == segments[i].last == latest + 1
    ensures i > 0 ==> segments[i - 1].last < segments[i].first
  {
    assert i < |segments| - 1 ==> segments[i].last < segments[|segments| - 1].first;
  }

  // A segment says true things of the samples it covers, and is readable on its own.
  ghost predicate Accurate(c: Codec, s: Segment, recs: seq<Record>, log: seq<Batch>) {
    s.bytes > 0 ==>
      && 1 <= s.first <= s.last <= |recs| == |log|
      && s.bytes == |Lines(c, Of(s, recs))|
      && Means(Of(s, recs), Entries(log, s.first, s.last))
      && (forall i :: s.first - 1 <= i < s.last ==>
            && s.from <= log[i].observedAt <= s.to
            && c.size(Entry(i + 1, log[i])) < MAX_LINE)
      && (forall i :: s.first - 1 <= i < s.last ==> |c.encode(recs[i])| <= MAX_LINE)
  }

  ghost predicate Promises(c: Codec, m: Manifest, recs: seq<Record>, log: seq<Batch>) {
    && Contiguous(m.segments, m.latest)
    && m.latest <= |recs| == |log|
    && (forall s :: s in m.segments ==> Accurate(c, s, recs, log))
    && m.earliest == (if m.segments == [] then None else Some(m.segments[0].first))
    && m.historyBytes == Total(m.segments)
  }

  // Every promised segment that still has a file starts with exactly the promised records.
  ghost predicate Kept(c: Codec, segments: seq<Segment>, disk: Disk, recs: seq<Record>) {
    forall s :: s in segments && s.bytes > 0 && s.first in disk && 1 <= s.first <= s.last <= |recs| ==>
      s.bytes <= |disk[s.first]| && disk[s.first][..s.bytes] == Lines(c, Of(s, recs))
  }

  lemma AccurateExtends(c: Codec, s: Segment, recs: seq<Record>, log: seq<Batch>, more: seq<Record>, longer: seq<Batch>)
    requires Accurate(c, s, recs, log) && recs <= more && log <= longer && |more| == |longer|
    ensures Accurate(c, s, more, longer)
  {
    if s.bytes > 0 {
      assert Of(s, more) == Of(s, recs);
      assert Entries(longer, s.first, s.last) == Entries(log, s.first, s.last);
    }
  }

  lemma PromisesExtend(c: Codec, m: Manifest, recs: seq<Record>, log: seq<Batch>, more: seq<Record>, longer: seq<Batch>)
    requires Promises(c, m, recs, log) && recs <= more && log <= longer && |more| == |longer|
    ensures Promises(c, m, more, longer)
  {
    hide Accurate;
    forall s | s in m.segments
      ensures Accurate(c, s, more, longer)
    {
      AccurateExtends(c, s, recs, log, more, longer);
    }
  }

  // A segment with one more record.
  function Extended(s: Segment, seqNo: nat, observedAt: int, length: nat): Segment {
    Segment(s.first, seqNo, s.bytes + length, Min(s.from, observedAt), Max(s.to, observedAt))
  }

  // `r` is a line for the sample `x`, which comes next after `log`, and can be
  // read behind what segment `t` holds.
  ghost predicate Follows(c: Codec, t: Segment, recs: seq<Record>, log: seq<Batch>, r: Record, x: Batch) {
    && |recs| == |log| && r.seqNo == |log| + 1
    && 1 <= t.first && (if t.bytes > 0 then t.last == |log| else t.first == |log| + 1)
    && Accurate(c, t, recs, log)
    && 0 < |c.encode(r)| <= MAX_LINE && c.size(Entry(r.seqNo, x)) < MAX_LINE
    && (r.reference.Some? ==> t.bytes > 0)
    && Expand(r, Held(Of(t, recs))) == Some(Entry(r.seqNo, x))
  }

  lemma FollowsNumber(c: Codec, t: Segment, recs: seq<Record>, log: seq<Batch>, r: Record, x: Batch)
    requires Follows(c, t, recs, log, r, x)
    ensures r.seqNo == |log| + 1
  {
  }

  lemma ExtendedContents(c: Codec, t: Segment, recs: seq<Record>, log: seq<Batch>, r: Record, x: Batch)
    requires Follows(c, t, recs, log, r, x)
    ensures var s := Extended(t, r.seqNo, x.observedAt, |c.encode(r)|);
            && Of(s, recs + [r]) == Of(t, recs) + [r]
            && Lines(c, Of(s, recs + [r])) == Lines(c, Of(t, recs)) + c.encode(r)
            && Means(Of(s, recs + [r]), Entries(log + [x], s.first, s.last))
  {
    hide Expand, Held, Lines;
    var s := Extended(t, r.seqNo, x.observedAt, |c.encode(r)|);
    var es := if t.bytes == 0 then [] else Entries(log, t.first, t.last);
    assert Of(s, recs + [r]) == Of(t, recs) + [r];
    assert Entries(log + [x], s.first, s.last) == es + [Entry(r.seqNo, x)];
    MeansSnoc(Of(t, recs), es, r, Entry(r.seqNo, x));
    LinesSnoc(c, Of(t, recs), r);
  }

  lemma AccurateExtended(c: Codec, t: Segment, recs: seq<Record>, log: seq<Batch>, r: Record, x: Batch)
    requires Follows(c, t, recs, log, r, x)
    ensures var s := Extended(t, r.seqNo, x.observedAt, |c.encode(r)|);
            && Accurate(c, s, recs + [r], log + [x])
            && Of(s, recs + [r]) == Of(t, recs) + [r]
            && Lines(c, Of(s, recs + [r])) == Lines(c, Of(t, recs)) + c.encode(r)
  {
    hide Expand, Means, Held;
    ExtendedContents(c, t, recs, log, r, x);
  }

  // The writer's records as a reader could find them: what is indexed, what is
  // on disk, and (for the proof) every line and sample recorded so far.
  datatype Book = Book(segments: seq<Segment>, disk: Disk, recs: seq<Record>, log: seq<Batch>)

  // No manifest promises more of the last segment than has been written to it.
  ghost predicate Overtaken(m: Manifest, b: Book) {
    forall s :: s in m.segments && s.bytes > 0 ==>
      && s.first <= |b.log|
      && (b.segments != [] ==>
            var t := b.segments[|b.segments| - 1];
            s.first <= t.first && (s.first == t.first ==> s.bytes <= t.bytes))
  }

  // What holds of the writer's records whatever has failed.
  ghost predicate Coherent(c: Codec, b: Book) {
    && |b.log| == |b.recs|
    && Contiguous(b.segments, |b.log|)
    && (forall s :: s in b.segments ==> Accurate(c, s, b.recs, b.log))
    && (forall s :: s in b.segments && s.bytes > 0 ==> s.first in b.disk)
    && Kept(c, b.segments, b.disk, b.recs)
  }

  // The snapshot a compact record would name is the one a reader of the last
  // segment holds.
  ghost predicate Referable(b: Book, filesSnapshot: Option<Json>, filesSequence: Option<nat>) {
    filesSequence.Some? ==>
      && filesSnapshot.Some? && filesSequence.value <= |b.log|
      && (b.segments != [] ==>
            var s := b.segments[|b.segments| - 1];
            s.bytes > 0 && 1 <= s.first <= s.last <= |b.recs| ==>
              Held(Of(s, b.recs)) == Some((filesSequence.value, filesSnapshot.value)))
  }

  // Sample `i` has been rotated out of the index.
  ghost predicate RotatedOut(b: Book, i: nat) {
    b.segments != [] && i < b.segments[0].first
  }

  // The file of segment `s` is there, and the index still covers all of `s`.
  ghost predicate StillThere(s: Segment, b: Book) {
    s.first in b.disk && forall t :: t in b.segments && t.first == s.first ==> s.last <= t.last
  }

  // What a manifest indexes stays on disk until it is rotated out of the index.
  ghost predicate Lasting(m: Manifest, b: Book) {
    && (m.segments != [] ==> b.segments != [] && m.segments[0].first <= b.segments[0].first)
    && (forall s :: s in m.segments && s.bytes > 0 ==> StillThere(s, b) || RotatedOut(b, s.last))
  }

  // Every manifest ever published is still honoured.
  ghost predicate Honoured(c: Codec, published: set<Manifest>, b: Book) {
    forall m :: m in published ==>
      && Promises(c, m, b.recs, b.log) && Kept(c, m.segments, b.disk, b.recs)
      && Overtaken(m, b) && Lasting(m, b)
  }

  ghost predicate Sized(segments: seq<Segment>, maxBytes: nat, segmentBytes: nat) {
    && Total(segments) <= maxBytes
    && forall s :: s in segments ==> s.bytes <= segmentBytes
  }

  // Every segment's file is exactly as long as said. With `room`, the last one
  // may be about to be started.
  ghost predicate Exact(b: Book, room: nat) {
    forall i :: 0 <= i < |b.segments| ==>
      var s := b.segments[i];
      if s.bytes > 0 then s.first in b.disk && |b.disk[s.first]| == s.bytes
      else room > 0 && i == |b.segments| - 1 && s.first !in b.disk
  }

  ghost predicate Listed(segments: seq<Segment>, file: nat) {
    exists s :: s in segments && s.first == file
  }

  // No file but the segments'.
  ghost predicate NoStray(b: Book) {
    forall f :: f in b.disk ==> Listed(b.segments, f)
  }

  // No more has been given up than `room` more bytes needed.
  ghost predicate Frugal(segments: seq<Segment>, maxBytes: nat, segmentBytes: nat, room: nat) {
    segments != [] && segments[0].first > 1 ==> Total(segments) + room > maxBytes - segmentBytes
  }

  // Where nothing has failed, the directory holds the segments and nothing
  // else, and retention has given up no more than it had to.
  ghost predicate Tidy(b: Book, maxBytes: nat, segmentBytes: nat, room: nat) {
    Exact(b, room) && NoStray(b) && Frugal(b.segments, maxBytes, segmentBytes, room)
  }

  function Current(segments: seq<Segment>, sequence: nat): Manifest {
    Manifest(segments, sequence,
             if segments == [] then None else Some(segments[0].first), Total(segments))
  }

  lemma CurrentIsHonoured(c: Codec, b: Book)
    requires Coherent(c, b)
    ensures Promises(c, Current(b.segments, |b.log|), b.recs, b.log)
    ensures Kept(c, b.segments, b.disk, b.recs)
    ensures Overtaken(Current(b.segments, |b.log|), b) && Lasting(Current(b.segments, |b.log|), b)
  {
    forall s, t | s in b.segments && t in b.segments && t.first == s.first
      ensures t == s
    {
      var i :| 0 <= i < |b.segments| && b.segments[i] == s;
      var j :| 0 <= j < |b.segments| && b.segments[j] == t;
    }
  }

  // ---- the steps of an append, and what each keeps ----

  // A segment for the next record where the last one has no room for it.
  function Rolled(segments: seq<Segment>, sequence: nat, observedAt: int, length: nat, segmentBytes: nat)
    : (rolled: seq<Segment>)
    ensures rolled != []
  {
    if segments == [] || segments[|segments| - 1].bytes + length > segmentBytes
    then segments + [Segment(sequence + 1, sequence + 1, 0, observedAt, observedAt)]
    else segments
  }

  lemma OpeningKeeps(c: Codec, b: Book, x: Segment)
    requires x.first == x.last == |b.log| + 1 && x.bytes == 0
    requires b.segments != [] ==> b.segments[|b.segments| - 1].bytes > 0
    requires Coherent(c, b)
    ensures Coherent(c, b.(segments := b.segments + [x]))
  {
    var d := b.(segments := b.segments + [x]);
    OpeningIsContiguous(b.segments, |b.log|, x);
    forall s | s in d.segments
      ensures Accurate(c, s, d.recs, d.log)
      ensures s.bytes > 0 ==> s in b.segments
    {
    }
  }

  lemma OpeningIsContiguous(segments: seq<Segment>, sequence: nat, x: Segment)
    requires x.first == x.last == sequence + 1 && x.bytes == 0
    requires segments != [] ==> segments[|segments| - 1].bytes > 0
    requires Contiguous(segments, sequence)
    ensures Contiguous(segments + [x], sequence)
  {
    var d := segments + [x];
    forall i | 0 <= i < |d| - 1
      ensures d[i].bytes > 0 && d[i].last + 1 == d[i + 1].first
    {
      assert d[i] == segments[i];
    }
  }

  lemma OpeningKeepsOrder(b: Book, x: Segment, maxBytes: nat, segmentBytes: nat, room: nat)
    requires x.bytes == 0 && room > 0 && x.first == |b.log| + 1
    requires Contiguous(b.segments, |b.log|) && Tidy(b, maxBytes, segmentBytes, 0)
    ensures Tidy(b.(segments := b.segments + [x]), maxBytes, segmentBytes, room)
  {
    var d := b.(segments := b.segments + [x]);
    TotalSnoc(b.segments, x);
    assert NoStray(d) by {
      forall f | f in d.disk
        ensures Listed(d.segments, f)
      {
        var s :| s in b.segments && s.first == f;
        assert s in d.segments;
      }
    }
    OpeningIsExact(b, x, room);
  }

  lemma OpeningIsExact(b: Book, x: Segment, room: nat)
    requires x.bytes == 0 && room > 0 && x.first == |b.log| + 1
    requires Contiguous(b.segments, |b.log|) && Exact(b, 0) && NoStray(b)
    ensures Exact(b.(segments := b.segments + [x]), room)
  {
    var d := b.(segments := b.segments + [x]);
    forall f | f in b.disk
      ensures f < x.first
    {
      var s :| s in b.segments && s.first == f;
    }
    assert forall i :: 0 <= i < |b.segments| ==> d.segments[i] == b.segments[i];
  }

  lemma OpeningHonours(c: Codec, b: Book, x: Segment, published: set<Manifest>)
    requires x.first == x.last == |b.log| + 1 && x.bytes == 0
    requires Honoured(c, published, b)
    ensures Honoured(c, published, b.(segments := b.segments + [x]))
  {
    var d := b.(segments := b.segments + [x]);
    forall m | m in published
      ensures Promises(c, m, d.recs, d.log)
      ensures Kept(c, m.segments, d.disk, d.recs)
      ensures Overtaken(m, d) && Lasting(m, d)
    {
      OpeningLasts(m, b, x);
    }
  }

  lemma OpeningLasts(m: Manifest, b: Book, x: Segment)
    requires x.first == |b.log| + 1 && Overtaken(m, b) && Lasting(m, b)
    ensures Lasting(m, b.(segments := b.segments + [x]))
  {
  }

  // The oldest segment and its file are given up.
  function Dropped(b: Book): Book
    requires b.segments != []
  {
    b.(segments := b.segments[1..], disk := b.disk - {b.segments[0].first})
  }

  lemma DroppingHonours(c: Codec, b: Book, published: set<Manifest>)
    requires |b.segments| > 1 && Honoured(c, published, b) && Contiguous(b.segments, |b.log|)
    ensures Honoured(c, published, Dropped(b))
  {
    var d := Dropped(b);
    forall m | m in published
      ensures Promises(c, m, d.recs, d.log)
      ensures Kept(c, m.segments, d.disk, d.recs)
      ensures Overtaken(m, d) && Lasting(m, d)
    {
      DroppingLasts(m, b);
    }
  }

  lemma DroppingLasts(m: Manifest, b: Book)
    requires |b.segments| > 1 && Contiguous(b.segments, |b.log|) && Lasting(m, b)
    ensures Lasting(m, Dropped(b))
  {
    var oldest := b.segments[0];
    assert oldest.first <= oldest.last < b.segments[1].first;
    forall s | s in m.segments && s.bytes > 0
      ensures StillThere(s, Dropped(b)) || RotatedOut(Dropped(b), s.last)
    {
      if StillThere(s, b) && s.first == oldest.first {
        assert oldest in b.segments && s.last <= oldest.last;
      }
    }
  }

  lemma DroppingKeeps(c: Codec, b: Book)
    requires |b.segments| > 1 && Coherent(c, b)
    ensures Coherent(c, Dropped(b))
  {
    hide Contiguous, Accurate, Lines;
    DroppedContiguous(b.segments, |b.log|);
  }

  lemma DroppedContiguous(segments: seq<Segment>, latest: nat)
    requires |segments| > 1 && Contiguous(segments, latest)
    ensures Contiguous(segments[1..], latest)
    ensures forall s :: s in segments[1..] ==> s in segments && s.first != segments[0].first
  {
    var rest := segments[1..];
    assert forall i :: 0 <= i < |rest| ==> rest[i] == segments[i + 1];
  }

  lemma DroppingKeepsOrder(b: Book, maxBytes: nat, segmentBytes: nat, room: nat)
    requires |b.segments| > 1 && Contiguous(b.segments, |b.log|) && Tidy(b, maxBytes, segmentBytes, room)
    requires Total(b.segments) + room > maxBytes && b.segments[0].bytes <= segmentBytes
    ensures Tidy(Dropped(b), maxBytes, segmentBytes, room)
  {
    var d := Dropped(b);
    assert Exact(d, room) by {
      assert forall i :: 0 <= i < |d.segments| ==>
          d.segments[i] == b.segments[i + 1] && d.segments[i].first != b.segments[0].first;
    }
    assert NoStray(d) by {
      forall f | f in d.disk
        ensures Listed(d.segments, f)
      {
        var s :| s in b.segments && s.first == f;
        assert s in d.segments;
      }
    }
  }

  // What a segment's file holds once cut back to what is known to be good.
  function Base(disk: Disk, s: Segment): seq<byte> {
    if s.first in disk && s.bytes <= |disk[s.first]| then disk[s.first][..s.bytes] else []
  }

  // The last segment's file cut back, and `data` written behind what is left.
  function Written(b: Book, data: seq<byte>): Book
    requires b.segments != []
  {
    var t := b.segments[|b.segments| - 1];
    b.(disk := b.disk[t.first := Base(b.disk, t) + data])
  }

  lemma WritingKeepsPromises(c: Codec, b: Book, segments: seq<Segment>, data: seq<byte>)
    requires b.segments != [] && Coherent(c, b) && Kept(c, segments, b.disk, b.recs)
    requires var t := b.segments[|b.segments| - 1];
             forall s :: s in segments && s.bytes > 0 ==> s.first == t.first ==> s.bytes <= t.bytes
    ensures Kept(c, segments, Written(b, data).disk, b.recs)
  {
    var t := b.segments[|b.segments| - 1];
    var disk := Written(b, data).disk;
    forall s | s in segments && s.bytes > 0 && s.first in disk && 1 <= s.first <= s.last <= |b.recs|
      ensures s.bytes <= |disk[s.first]| && disk[s.first][..s.bytes] == Lines(c, Of(s, b.recs))
    {
      if s.first == t.first {
        assert t in b.segments;
        assert disk[s.first][..s.bytes] == b.disk[s.first][..s.bytes];
      }
    }
  }

  // Writing anything at all behind what the last segment holds breaks no promise.
  lemma WritingKeeps(c: Codec, b: Book, published: set<Manifest>, data: seq<byte>)
    requires b.segments != [] && Coherent(c, b) && Honoured(c, published, b)
    ensures Coherent(c, Written(b, data)) && Honoured(c, published, Written(b, data))
  {
    hide Promises, Accurate, Lasting, Base;
    assert Kept(c, b.segments, Written(b, data).disk, b.recs) by {
      WritingKeepsPromises(c, b, b.segments, data);
    }
    forall m | m in published
      ensures Kept(c, m.segments, Written(b, data).disk, b.recs) && Lasting(m, Written(b, data))
    {
      WritingKeepsPromises(c, b, m.segments, data);
      WritingLasts(m, b, data);
    }
  }

  lemma WritingLasts(m: Manifest, b: Book, data: seq<byte>)
    requires b.segments != [] && Lasting(m, b)
    ensures Lasting(m, Written(b, data))
  {
  }

  // Record `r`, for sample `x`, is in the last segment's file and is now indexed.
  function Indexed(b: Book, r: Record, x: Batch, length: nat): Book
    requires b.segments != []
  {
    var n := |b.segments| - 1;
    Book(b.segments[..n] + [Extended(b.segments[n], r.seqNo, x.observedAt, length)],
         b.disk, b.recs + [r], b.log + [x])
  }

  lemma IndexedTotal(b: Book, r: Record, x: Batch, length: nat)
    requires b.segments != []
    ensures Total(Indexed(b, r, x, length).segments) == Total(b.segments) + length
  {
    var n := |b.segments| - 1;
    TotalSnoc(b.segments[..n], b.segments[n]);
    TotalSnoc(b.segments[..n], Extended(b.segments[n], r.seqNo, x.observedAt, length));
    assert b.segments == b.segments[..n] + [b.segments[n]];
  }

  lemma KeptExtends(c: Codec, segments: seq<Segment>, disk: Disk, recs: seq<Record>, more: seq<Record>)
    requires Kept(c, segments, disk, recs) && recs <= more
    requires forall s :: s in segments && s.bytes > 0 ==> s.last <= |recs|
    ensures Kept(c, segments, disk, more)
  {
    forall s | s in segments && s.bytes > 0 && s.first in disk && 1 <= s.first <= s.last <= |more|
      ensures Of(s, more) == Of(s, recs)
    {
    }
  }

  lemma PromisedIsRecorded(c: Codec, m: Manifest, recs: seq<Record>, log: seq<Batch>)
    requires Promises(c, m, recs, log)
    ensures forall s :: s in m.segments && s.bytes > 0 ==> s.last <= |recs| == |log|
  {
    hide Means, Lines;
  }

  lemma IndexingLasts(m: Manifest, b: Book, r: Record, x: Batch, length: nat)
    requires b.segments != [] && Lasting(m, b)
    requires forall s :: s in m.segments && s.bytes > 0 ==> s.last <= r.seqNo
    ensures Lasting(m, Indexed(b, r, x, length))
  {
    var n := |b.segments| - 1;
    var d := Indexed(b, r, x, length);
    assert d.segments[0].first == b.segments[0].first;
    assert forall t :: t in d.segments ==> t == d.segments[n] || t in b.segments;
  }

  lemma IndexingHonours(c: Codec, b: Book, r: Record, x: Batch, length: nat, published: set<Manifest>)
    requires b.segments != [] && Honoured(c, published, b) && r.seqNo == |b.log| + 1
    ensures Honoured(c, published, Indexed(b, r, x, length))
  {
    var d := Indexed(b, r, x, length);
    forall m | m in published
      ensures Promises(c, m, d.recs, d.log)
      ensures Kept(c, m.segments, d.disk, d.recs)
      ensures Overtaken(m, d) && Lasting(m, d)
    {
      PromisedIsRecorded(c, m, b.recs, b.log);
      IndexingLasts(m, b, r, x, length);
      PromisesExtend(c, m, b.recs, b.log, d.recs, d.log);
      KeptExtends(c, m.segments, b.disk, b.recs, d.recs);
    }
  }

  lemma IndexedContiguous(segments: seq<Segment>, sequence: nat, x: Segment)
    requires segments != [] && Contiguous(segments, sequence)
    requires x.first == segments[|segments| - 1].first && x.last == sequence + 1 && x.bytes > 0
    ensures Contiguous(segments[..|segments| - 1] + [x], sequence + 1)
  {
    var n := |segments| - 1;
    var d := segments[..n] + [x];
    assert forall i :: 0 <= i < n ==> d[i] == segments[i];
  }

  lemma IndexedLines(c: Codec, b: Book, r: Record, x: Batch)
    requires b.segments != [] && Follows(c, b.segments[|b.segments| - 1], b.recs, b.log, r, x)
    ensures var n := |b.segments| - 1;
            var s := Indexed(b, r, x, |c.encode(r)|).segments[n];
            && Lines(c, Of(s, b.recs + [r])) == Lines(c, Of(b.segments[n], b.recs)) + c.encode(r)
            && s.bytes == |Lines(c, Of(s, b.recs + [r]))|
  {
    AccurateExtended(c, b.segments[|b.segments| - 1], b.recs, b.log, r, x);
  }

  lemma IndexingKeepsLines(c: Codec, b: Book, d: Book, r: Record)
    requires b.segments != [] && |d.segments| == |b.segments| && d.disk == b.disk && d.recs == b.recs + [r]
    requires forall s :: s in d.segments ==> s == d.segments[|b.segments| - 1] || s in b.segments
    requires forall s :: s in b.segments && s.bytes > 0 ==> s.last <= |b.recs|
    requires Kept(c, b.segments, b.disk, b.recs)
    requires var s := d.segments[|b.segments| - 1];
             && 1 <= s.first <= s.last <= |d.recs| && s.bytes > 0
             && s.bytes == |Lines(c, Of(s, d.recs))|
             && s.first in d.disk && d.disk[s.first] == Lines(c, Of(s, d.recs))
    ensures Kept(c, d.segments, d.disk, d.recs)
  {
    KeptExtends(c, b.segments, b.disk, b.recs, d.recs);
  }

  lemma IndexingStaysAccurate(c: Codec, b: Book, r: Record, x: Batch)
    requires b.segments != [] && Follows(c, b.segments[|b.segments| - 1], b.recs, b.log, r, x)
    requires forall s :: s in b.segments ==> Accurate(c, s, b.recs, b.log)
    ensures var d := Indexed(b, r, x, |c.encode(r)|);
            forall s :: s in d.segments ==> Accurate(c, s, d.recs, d.log)
  {
    hide Accurate, Means, Lines;
    var n := |b.segments| - 1;
    var d := Indexed(b, r, x, |c.encode(r)|);
    forall s | s in d.segments
      ensures Accurate(c, s, d.recs, d.log)
    {
      if s == d.segments[n] {
        AccurateExtended(c, b.segments[n], b.recs, b.log, r, x);
      } else {
        assert s in b.segments;
        AccurateExtends(c, s, b.recs, b.log, d.recs, d.log);
      }
    }
  }

  lemma IndexingKeeps(c: Codec, b: Book, r: Record, x: Batch)
    requires Coherent(c, b) && b.segments != [] && Follows(c, b.segments[|b.segments| - 1], b.recs, b.log, r, x)
    requires var t := b.segments[|b.segments| - 1];
             t.first in b.disk && b.disk[t.first] == Lines(c, Of(t, b.recs)) + c.encode(r)
    ensures Coherent(c, Indexed(b, r, x, |c.encode(r)|))
  {
    hide Accurate, Lines;
    var n := |b.segments| - 1;
    var d := Indexed(b, r, x, |c.encode(r)|);
    IndexedContiguous(b.segments, |b.log|, d.segments[n]);
    IndexingStaysAccurate(c, b, r, x);
    IndexedLines(c, b, r, x);
    IndexingKeepsLines(c, b, d, r);
    IndexingKeepsFiles(b, r, x, |c.encode(r)|);
  }

  lemma IndexingKeepsFiles(b: Book, r: Record, x: Batch, length: nat)
    requires b.segments != [] && b.segments[|b.segments| - 1].first in b.disk
    requires forall s :: s in b.segments && s.bytes > 0 ==> s.first in b.disk
    ensures forall s :: s in Indexed(b, r, x, length).segments && s.bytes > 0 ==> s.first in b.disk
  {
    var n := |b.segments| - 1;
    var d := Indexed(b, r, x, length);
    assert forall s :: s in d.segments ==> s == d.segments[n] || s in b.segments;
  }

  lemma IndexingIsExact(b: Book, r: Record, x: Batch, data: seq<byte>)
    requires b.segments != [] && Contiguous(b.segments, |b.log|) && Exact(b, |data|) && |data| > 0
    ensures Exact(Indexed(Written(b, data), r, x, |data|), 0)
  {
    var n := |b.segments| - 1;
    var d := Indexed(Written(b, data), r, x, |data|);
    assert |d.disk[d.segments[n].first]| == d.segments[n].bytes;
    assert forall i :: 0 <= i < n ==>
        d.segments[i] == b.segments[i] && b.segments[i].last < b.segments[n].last;
  }

  lemma IndexingKeepsOrder(b: Book, r: Record, x: Batch, data: seq<byte>, maxBytes: nat, segmentBytes: nat)
    requires b.segments != [] && Contiguous(b.segments, |b.log|) && |data| > 0
    requires Tidy(b, maxBytes, segmentBytes, |data|)
    ensures Tidy(Indexed(Written(b, data), r, x, |data|), maxBytes, segmentBytes, 0)
  {
    hide NoStray;
    IndexingIsExact(b, r, x, data);
    IndexingStraysNot(b, r, x, data);
    IndexedTotal(Written(b, data), r, x, |data|);
  }

  lemma IndexingStraysNot(b: Book, r: Record, x: Batch, data: seq<byte>)
    requires b.segments != [] && NoStray(b)
    ensures NoStray(Indexed(Written(b, data), r, x, |data|))
  {
    var n := |b.segments| - 1;
    var d := Indexed(Written(b, data), r, x, |data|);
    forall f | f in d.disk
      ensures Listed(d.segments, f)
    {
      if f != d.segments[n].first {
        var s :| s in b.segments && s.first == f;
        assert s != b.segments[n] && s in d.segments;
      } else {
        assert d.segments[n] in d.segments;
      }
    }
  }

  lemma IndexingRefers(c: Codec, b: Book, r: Record, x: Batch, data: seq<byte>, before: Snapshot, after: Snapshot)
    requires b.segments != [] && Follows(c, b.segments[|b.segments| - 1], b.recs, b.log, r, x)
    requires Referable(b, before.files, before.sequence)
    requires r == NextRecord(b.segments[|b.segments| - 1], before, |b.log| + 1, x) && after == NextSnapshot(r, before)
    ensures Referable(Indexed(Written(b, data), r, x, |c.encode(r)|), after.files, after.sequence)
  {
    hide Expand, Held, Base, Means, Lines, Entries;
    var n := |b.segments| - 1;
    var t := b.segments[n];
    var d := Indexed(Written(b, data), r, x, |c.encode(r)|);
    assert d.segments[n] == Extended(t, r.seqNo, x.observedAt, |c.encode(r)|);
    assert Of(d.segments[n], d.recs) == Of(t, b.recs) + [r];
    HeldSnoc(Of(t, b.recs), r);
  }

  lemma HeldSnoc(rs: seq<Record>, r: Record)
    ensures Held(rs + [r])
            == if r.reference.None? && r.batch.files.Some? then Some((r.seqNo, r.batch.files.value)) else Held(rs)
  {
    assert (rs + [r])[..|rs|] == rs;
  }

  // ---- a whole writer, and the steps of an append on it ----

  // What an append leaves alone, and what readers have been promised.
  datatype Limits = Limits(codec: Codec, maxBytes: nat, segmentBytes: nat)

  datatype Snapshot = Snapshot(files: Option<Json>, sequence: Option<nat>)

  // What always holds of a writer. In the middle of an append that is about to
  // write `room` bytes, order is kept with those bytes in view.
  ghost predicate Standing(l: Limits, b: Book, snapshot: Snapshot, published: set<Manifest>, clean: bool, room: nat) {
    && Faithful(l.codec)
    && l.maxBytes >= 4 * MAX_LINE && l.segmentBytes == Max(MAX_LINE, l.maxBytes / 16)
    && Coherent(l.codec, b)
    && Referable(b, snapshot.files, snapshot.sequence)
    && Honoured(l.codec, published, b)
    && Sized(b.segments, l.maxBytes, l.segmentBytes)
    && (clean ==> Tidy(b, l.maxBytes, l.segmentBytes, room))
  }

  lemma NewStands(l: Limits)
    requires Faithful(l.codec) && l.maxBytes >= 4 * MAX_LINE && l.segmentBytes == Max(MAX_LINE, l.maxBytes / 16)
    ensures Standing(l, Book([], map[], [], []), Snapshot(None, None), {Manifest([], 0, None, 0)}, true, 0)
  {
    var m := Manifest([], 0, None, 0);
    assert Promises(l.codec, m, [], []);
    assert Overtaken(m, Book([], map[], [], [])) && Lasting(m, Book([], map[], [], []));
    assert Kept(l.codec, m.segments, map[], []);
    assert Coherent(l.codec, Book([], map[], [], []));
    assert Tidy(Book([], map[], [], []), l.maxBytes, l.segmentBytes, 0);
    assert Referable(Book([], map[], [], []), None, None);
  }

  lemma RollingStands(l: Limits, b: Book, snapshot: Snapshot, published: set<Manifest>, clean: bool,
                      observedAt: int, length: nat, room: nat)
    requires Standing(l, b, snapshot, published, clean, 0) && 0 < length <= MAX_LINE && room > 0
    ensures var d := b.(segments := Rolled(b.segments, |b.log|, observedAt, length, l.segmentBytes));
            && Standing(l, d, snapshot, published, clean, room)
            && d.segments[|d.segments| - 1].bytes + length <= l.segmentBytes
  {
    hide Coherent, Referable, Honoured, NoStray;
    if Rolled(b.segments, |b.log|, observedAt, length, l.segmentBytes) != b.segments {
      var x := Segment(|b.log| + 1, |b.log| + 1, 0, observedAt, observedAt);
      LastIsFilled(l.codec, b, l.segmentBytes, length);
      OpeningStands(l, b, x, snapshot, published, clean, room);
    } else if clean {
      assert Tidy(b, l.maxBytes, l.segmentBytes, room);
    }
  }

  lemma PublishingStands(l: Limits, b: Book, snapshot: Snapshot, published: set<Manifest>, clean: bool)
    requires Standing(l, b, snapshot, published, clean, 0)
    ensures Standing(l, b, snapshot, published + {Current(b.segments, |b.log|)}, clean, 0)
  {
    hide Coherent, Promises, Kept, Overtaken, Lasting, Tidy, Referable;
    CurrentIsHonoured(l.codec, b);
  }

  lemma CoherentIsContiguous(c: Codec, b: Book)
    requires Coherent(c, b)
    ensures Contiguous(b.segments, |b.log|)
  {
  }

  // Only a segment that holds something is closed for want of room.
  lemma LastIsFilled(c: Codec, b: Book, segmentBytes: nat, length: nat)
    requires b.segments != [] ==> b.segments[|b.segments| - 1].bytes + length > segmentBytes
    requires length <= MAX_LINE <= segmentBytes
    ensures b.segments != [] ==> b.segments[|b.segments| - 1].bytes > 0
  {
  }

  lemma OpeningStands(l: Limits, b: Book, x: Segment, snapshot: Snapshot, published: set<Manifest>, clean: bool,
                      room: nat)
    requires Standing(l, b, snapshot, published, clean, 0) && room > 0
    requires x.first == x.last == |b.log| + 1 && x.bytes == 0
    requires b.segments != [] ==> b.segments[|b.segments| - 1].bytes > 0
    ensures Standing(l, b.(segments := b.segments + [x]), snapshot, published, clean, room)
  {
    hide Coherent, Honoured, Tidy, Contiguous;
    OpeningKeeps(l.codec, b, x);
    OpeningHonours(l.codec, b, x, published);
    TotalSnoc(b.segments, x);
    CoherentIsContiguous(l.codec, b);
    if clean {
      OpeningKeepsOrder(b, x, l.maxBytes, l.segmentBytes, room);
    }
  }

  lemma DroppingStands(l: Limits, b: Book, snapshot: Snapshot, published: set<Manifest>, clean: bool, room: nat)
    requires Standing(l, b, snapshot, published, clean, room)
    requires |b.segments| > 1 && Total(b.segments) + room > l.maxBytes
    ensures Standing(l, Dropped(b), snapshot, published, clean, room)
  {
    hide Coherent, Honoured, Tidy, Contiguous;
    DroppingKeeps(l.codec, b);
    CoherentIsContiguous(l.codec, b);
    DroppingHonours(l.codec, b, published);
    if clean {
      DroppingKeepsOrder(b, l.maxBytes, l.segmentBytes, room);
    }
  }

  lemma WritingStands(l: Limits, b: Book, snapshot: Snapshot, published: set<Manifest>, room: nat, data: seq<byte>)
    requires Standing(l, b, snapshot, published, false, room) && b.segments != []
    ensures Standing(l, Written(b, data), snapshot, published, false, 0)
  {
    hide Coherent, Honoured, Tidy;
    WritingKeeps(l.codec, b, published, data);
  }

  lemma IndexingStands(l: Limits, b: Book, r: Record, x: Batch, before: Snapshot, snapshot: Snapshot,
                       published: set<Manifest>, clean: bool)
    requires Standing(l, b, before, published, clean, |l.codec.encode(r)|) && b.segments != []
    requires Follows(l.codec, b.segments[|b.segments| - 1], b.recs, b.log, r, x) && 0 < |l.codec.encode(r)|
    requires Total(b.segments) + |l.codec.encode(r)| <= l.maxBytes
    requires b.segments[|b.segments| - 1].bytes + |l.codec.encode(r)| <= l.segmentBytes
    requires r == NextRecord(b.segments[|b.segments| - 1], before, |b.log| + 1, x)
    requires snapshot == NextSnapshot(r, before)
    ensures Standing(l, Indexed(Written(b, l.codec.encode(r)), r, x, |l.codec.encode(r)|), snapshot, published, clean,
            0)
  {
    hide Coherent, Honoured, Tidy, Referable, Contiguous, Follows, IsLine;
    var encoded := l.codec.encode(r);
    var w := Written(b, encoded);
    WritingKeeps(l.codec, b, published, encoded);
    WrittenLines(l.codec, b, encoded);
    IndexingKeeps(l.codec, w, r, x);
    FollowsNumber(l.codec, b.segments[|b.segments| - 1], b.recs, b.log, r, x);
    IndexingHonours(l.codec, w, r, x, |encoded|, published);
    IndexingRefers(l.codec, b, r, x, encoded, before, snapshot);
    IndexedTotal(w, r, x, |encoded|);
    IndexingKeepsSize(w, r, x, |encoded|, l.segmentBytes);
    CoherentIsContiguous(l.codec, b);
    if clean {
      IndexingKeepsOrder(b, r, x, encoded, l.maxBytes, l.segmentBytes);
    }
  }

  lemma WrittenLines(c: Codec, b: Book, data: seq<byte>)
    requires b.segments != [] && Coherent(c, b)
    ensures var t := b.segments[|b.segments| - 1];
            Written(b, data).disk[t.first] == Lines(c, Of(t, b.recs)) + data
  {
    var t := b.segments[|b.segments| - 1];
    assert t in b.segments;
    if t.bytes > 0 {
      assert Base(b.disk, t) == Lines(c, Of(t, b.recs));
    }
  }

  lemma IndexingKeepsSize(b: Book, r: Record, x: Batch, length: nat, segmentBytes: nat)
    requires b.segments != [] && b.segments[|b.segments| - 1].bytes + length <= segmentBytes
    requires forall s :: s in b.segments ==> s.bytes <= segmentBytes
    ensures forall s :: s in Indexed(b, r, x, length).segments ==> s.bytes <= segmentBytes
  {
    var n := |b.segments| - 1;
    var d := Indexed(b, r, x, length);
    assert forall s :: s in d.segments ==> s == d.segments[n] || s in b.segments;
  }

  // `r` is sample `x` under its number: its inventory left out and referred to
  // exactly where it has one that is the same as the last whole one, `snapshot`
  // of number `sequence`, and the segment, from `first` on, holds a record already.
  predicate WrittenAs(r: Record, seqNo: nat, x: Batch, first: nat, snapshot: Option<Json>, sequence: Option<nat>) {
    && r.seqNo == seqNo
    && (r.reference.Some? <==>
          && first < seqNo && sequence.Some?
          && x.files.Some? && x.files != Some(JNull) && x.files == snapshot)
    && r.reference == (if r.reference.Some? then sequence else None)
    && r.batch == if r.reference.Some? then x.(files := None) else x
  }

  // What the next line may be: the whole record, or where the sampler's
  // inventory has not changed within the segment, a reference to it.
  function NextRecord(t: Segment, snapshot: Snapshot, seqNo: nat, x: Batch): Record {
    if t.bytes > 0 && snapshot.sequence.Some? && Given(x.files).Some? && Given(x.files) == snapshot.files
    then CompactRecord(seqNo, x, snapshot.sequence.value)
    else FullRecord(seqNo, x)
  }

  // A null inventory is no inventory.
  function Given(files: Option<Json>): Option<Json> {
    if files == Some(JNull) then None else files
  }

  lemma WhenCompact(t: Segment, snapshot: Snapshot, seqNo: nat, x: Batch)
    ensures NextRecord(t, snapshot, seqNo, x).reference.Some? <==>
              && t.bytes > 0 && snapshot.sequence.Some?
              && x.files.Some? && x.files != Some(JNull) && x.files == snapshot.files
    ensures var r := NextRecord(t, snapshot, seqNo, x);
            && r.seqNo == seqNo && r.reference == (if r.reference.Some? then snapshot.sequence else None)
            && r.batch == if r.reference.Some? then x.(files := None) else x
  {
  }

  // And what the writer then takes to be the last whole snapshot.
  function NextSnapshot(r: Record, snapshot: Snapshot): Snapshot {
    if r.reference.Some? then snapshot
    else Snapshot(Given(r.batch.files), if Given(r.batch.files).Some? then Some(r.seqNo) else None)
  }

  lemma NextFollows(l: Limits, b: Book, snapshot: Snapshot, published: set<Manifest>, clean: bool, room: nat, x: Batch)
    requires Standing(l, b, snapshot, published, clean, room) && b.segments != []
    requires ReferenceFits(l.codec, x.files, |b.log| + 1)
    requires |l.codec.encode(FullRecord(|b.log| + 1, x))| <= MAX_LINE
    ensures var t := b.segments[|b.segments| - 1];
            var r := NextRecord(t, snapshot, |b.log| + 1, x);
            && Follows(l.codec, t, b.recs, b.log, r, x)
            && (t.bytes > 0 <==> t.first <= |b.log|)
            && 0 < |l.codec.encode(r)| <= |l.codec.encode(FullRecord(|b.log| + 1, x))|
  {
    hide Honoured, Tidy, Kept, Sized, Means, Lines, Entries;
    var t := b.segments[|b.segments| - 1];
    assert t in b.segments;
    var r := NextRecord(t, snapshot, |b.log| + 1, x);
    assert IsLine(l.codec.encode(r));
    if r.reference.Some? {
      DigitsMonotone(r.reference.value, |b.log| + 1);
      CompactNoLongerIff(l.codec, |b.log| + 1, x, r.reference.value);
    }
  }

  // ---- a run of the writer, as readers meet it ----

  // What a reader could come upon: the writer's records, and the manifests it may hold.
  datatype Moment = Moment(book: Book, published: set<Manifest>)

  // Samples and lines recorded stay recorded, and a manifest published stays published.
  ghost predicate Leads(a: Moment, b: Moment) {
    a.book.recs <= b.book.recs && a.book.log <= b.book.log && a.published <= b.published
  }

  // The moments of a run so far, each of which honours every manifest published by then.
  ghost predicate Told(c: Codec, moments: seq<Moment>) {
    && (forall k :: 0 <= k < |moments| ==> Honoured(c, moments[k].published, moments[k].book))
    && (forall i, j :: 0 <= i < j < |moments| ==> Leads(moments[i], moments[j]))
  }

  lemma FirstTold(l: Limits, b: Book, snapshot: Snapshot, published: set<Manifest>, clean: bool, room: nat)
    requires Standing(l, b, snapshot, published, clean, room)
    ensures Told(l.codec, [] + [Moment(b, published)])
  {
    hide Honoured;
  }

  lemma ToldOn(l: Limits, seen: seq<Moment>, now: Moment, b: Book, snapshot: Snapshot, published: set<Manifest>,
               clean: bool, room: nat)
    requires Told(l.codec, seen + [now]) && Leads(now, Moment(b, published))
    requires Standing(l, b, snapshot, published, clean, room)
    ensures Told(l.codec, seen + [Moment(b, published)]) && Told(l.codec, seen + [now] + [Moment(b, published)])
  {
    hide Honoured, Coherent, Tidy, Referable, Faithful;
    var all, on := seen + [now], seen + [Moment(b, published)];
    assert forall k :: 0 <= k < |seen| ==> all[k] == seen[k] && on[k] == seen[k];
    assert all[|seen|] == now;
  }

  lemma IndexingIsTold(l: Limits, seen: seq<Moment>, b: Book, r: Record, x: Batch, before: Snapshot, snapshot: Snapshot,
                       published: set<Manifest>, clean: bool)
    requires Told(l.codec, seen + [Moment(b, published)])
    requires Standing(l, b, before, published, clean, |l.codec.encode(r)|) && b.segments != []
    requires Follows(l.codec, b.segments[|b.segments| - 1], b.recs, b.log, r, x) && 0 < |l.codec.encode(r)|
    requires Total(b.segments) + |l.codec.encode(r)| <= l.maxBytes
    requires b.segments[|b.segments| - 1].bytes + |l.codec.encode(r)| <= l.segmentBytes
    requires r == NextRecord(b.segments[|b.segments| - 1], before, |b.log| + 1, x)
    requires snapshot == NextSnapshot(r, before)
    ensures var d := Indexed(Written(b, l.codec.encode(r)), r, x, |l.codec.encode(r)|);
            && Standing(l, d, snapshot, published, clean, 0)
            && Told(l.codec, seen + [Moment(d, published)])
  {
    hide Standing, Told, Follows, NextRecord, NextSnapshot, Base, Total;
    IndexingStands(l, b, r, x, before, snapshot, published, clean);
    ToldOn(l, seen, Moment(b, published), Indexed(Written(b, l.codec.encode(r)), r, x, |l.codec.encode(r)|),
           snapshot, published, clean, 0);
  }

  class ResourceHistory {
    const codec: Codec
    const maxBytes: nat
    const segmentBytes: nat

    var segments: seq<Segment>
    var sequence: nat
    var filesSnapshot: Option<Json>
    var filesSequence: Option<nat>
    var closed: bool
    // The directory: the segment files, and the manifest in place.
    var disk: Disk
    var manifest: Manifest

    ghost var log: seq<Batch>            // every sample recorded, in order
    ghost var recs: seq<Record>          // and the line written for it
    ghost var published: set<Manifest>   // every manifest a reader may hold
    ghost var clean: bool                // whether no call has met a failure
    ghost var seen: seq<Moment>          // what readers may have come upon before now

    // Every moment a reader may have opened a file or the manifest at.
    ghost function Moments(): seq<Moment>
      reads this
    {
      seen + [Moment(Contents(), published)]
    }

    ghost function Contents(): Book
      reads this
    {
      Book(segments, disk, recs, log)
    }

    ghost predicate Stands(room: nat)
      reads this
    {
      && Faithful(codec) && segmentBytes <= maxBytes && sequence == |log| && manifest in published
      && Standing(Limits(codec, maxBytes, segmentBytes), Contents(),
                  Snapshot(filesSnapshot, filesSequence), published, clean, room)
      && Told(codec, Moments())
    }

    ghost predicate Valid()
      reads this
    {
      Stands(0)
    }

    constructor (codec: Codec, maxBytes: nat)
      requires Faithful(codec)
      ensures Valid()
      ensures this.codec == codec && this.maxBytes == Max(4 * MAX_LINE, maxBytes)
      ensures log == [] && clean && !closed && manifest == Manifest([], 0, None, 0) && seen == []
    {
      this.codec := codec;
      this.maxBytes := Max(4 * MAX_LINE, maxBytes);
      this.segmentBytes := Max(MAX_LINE, Max(4 * MAX_LINE, maxBytes) / 16);
      segments, sequence, filesSnapshot, filesSequence, closed := [], 0, None, None, false;
      disk, manifest := map[], Manifest([], 0, None, 0);
      log, recs, published, clean, seen := [], [], {Manifest([], 0, None, 0)}, true, [];
      new;
      hide Standing, Told;
      NewStands(Limits(codec, this.maxBytes, segmentBytes));
      FirstTold(Limits(codec, this.maxBytes, segmentBytes), Contents(), Snapshot(None, None), published, true, 0);
    }

    // Put the manifest in place. The sampler also does this on its own, after
    // appends that failed.
    method Publish()
      requires Valid()
      modifies this`manifest, this`published, this`seen
      ensures Valid() && seen == old(Moments())
      ensures manifest == Current(segments, sequence) && published == old(published) + {manifest}
    {
      hide Standing, Told;
      PublishingStands(Limits(codec, maxBytes, segmentBytes), Contents(),
                       Snapshot(filesSnapshot, filesSequence), published, clean);
      ToldOn(Limits(codec, maxBytes, segmentBytes), seen, Moment(Contents(), published), Contents(),
             Snapshot(filesSnapshot, filesSequence), published + {Current(segments, sequence)}, clean, 0);
      seen := Moments();
      manifest := Current(segments, sequence);
      published := published + {manifest};
    }

    method Deactivate()
      requires Valid()
      modifies this`closed
      ensures Valid() && closed
    {
      hide Standing, Told;
      closed := true;
    }

    // Record one sample. Whatever fails and wherever, every promise made to a
    // reader is kept; what is recorded is recorded whole and once.
    method Append(batch: Batch, fault: Fault) returns (outcome: Outcome)
      requires Valid() && ReferenceFits(codec, batch.files, sequence + 1)
      modifies this
      ensures Valid()
      ensures closed == old(closed) && old(published) <= published
      ensures old(Moments()) <= seen && old(recs) <= recs && old(log) <= log
      ensures outcome == RunFinished <==> closed
      ensures outcome == TooLarge <==> !closed && codec.size(Entry(old(sequence) + 1, batch)) >= MAX_LINE
      ensures fault == NoFault ==> !outcome.IoError?
      ensures !outcome.IoError? ==> clean == old(clean)
      ensures outcome.RunFinished? || outcome.TooLarge? ==>
                Contents() == old(Contents()) && manifest == old(manifest)
      ensures log == old(log) + (if outcome == Committed || outcome == IoError(true) then [batch] else [])
      ensures outcome == Committed ==> manifest == Current(segments, sequence)
      // An inventory that has not changed since the segment's last whole one is
      // written as a reference to it, and only then.
      ensures outcome == Committed ==>
                && segments != [] && |recs| == |old(recs)| + 1 && recs[..|old(recs)|] == old(recs)
                && WrittenAs(recs[|old(recs)|], old(sequence) + 1, batch, segments[|segments| - 1].first,
                             old(filesSnapshot), old(filesSequence))
      // The whole record goes to the last segment, unless it has no room for it.
      ensures outcome == Committed && old(segments) != [] ==>
                var last := old(segments)[|old(segments)| - 1];
                segments[|segments| - 1].first == last.first
                <==> last.bytes + codec.size(Entry(old(sequence) + 1, batch)) + 1 <= segmentBytes
    {
      hide Standing, Follows, Current, NextRecord, Given, Told, Faithful, Rolled;
      Look();
      if closed {
        return RunFinished;
      }
      var encoded := codec.encode(FullRecord(sequence + 1, batch));
      EncodedLength(codec, sequence + 1, batch);
      if |encoded| > MAX_LINE {
        return TooLarge;
      }
      outcome := Place(batch, encoded, fault);
    }

    // What is done with a sample that fits a record, whole as `full`.
    method Place(batch: Batch, full: seq<byte>, fault: Fault) returns (outcome: Outcome)
      requires Valid() && ReferenceFits(codec, batch.files, sequence + 1)
      requires full == codec.encode(FullRecord(sequence + 1, batch)) && |full| <= MAX_LINE
      modifies this
      ensures Valid() && closed == old(closed) && old(published) <= published && old(seen) <= seen
      ensures outcome == Committed || outcome.IoError?
      ensures fault == NoFault ==> outcome == Committed
      ensures outcome == Committed ==> clean == old(clean) && manifest == Current(segments, sequence)
      ensures log == old(log) + (if outcome == IoError(false) then [] else [batch])
      ensures old(recs) <= recs
      ensures outcome == Committed ==>
                && segments != [] && |recs| == |old(recs)| + 1
                && WrittenAs(recs[|old(recs)|], old(sequence) + 1, batch, segments[|segments| - 1].first,
                             old(filesSnapshot), old(filesSequence))
      ensures outcome == Committed && old(segments) != [] ==>
                var last := old(segments)[|old(segments)| - 1];
                segments[|segments| - 1].first == last.first <==> last.bytes + |full| <= segmentBytes
    {
      hide Standing, Follows, Current, NextRecord, Given, Told, Faithful, Rolled;
      EncodedLength(codec, sequence + 1, batch);
      LastStartedEarlier(Limits(codec, maxBytes, segmentBytes), Contents(), Snapshot(filesSnapshot, filesSequence),
                         published, clean, 0);
      Roll(batch.observedAt, |full|);
      var record := NextRecord(segments[|segments| - 1], Snapshot(filesSnapshot, filesSequence), sequence + 1, batch);
      assert Stands(1);
      WhenCompact(segments[|segments| - 1], Snapshot(filesSnapshot, filesSequence), sequence + 1, batch);
      NextFollows(Limits(codec, maxBytes, segmentBytes), Contents(),
                  Snapshot(filesSnapshot, filesSequence), published, clean, 1, batch);
      outcome := WriteDown(record, codec.encode(record), batch, fault);
    }

    // Make room for the record, write it and index it.
    method WriteDown(record: Record, encoded: seq<byte>, batch: Batch, fault: Fault) returns (outcome: Outcome)
      requires encoded == codec.encode(record) && 0 < |encoded|
      requires Stands(|encoded|) && segments != []
      requires record == NextRecord(segments[|segments| - 1], Snapshot(filesSnapshot, filesSequence), sequence + 1,
                                    batch)
      requires Follows(codec, segments[|segments| - 1], recs, log, record, batch)
      requires segments[|segments| - 1].bytes + |encoded| <= segmentBytes
      modifies this
      ensures Valid() && closed == old(closed) && old(published) <= published && old(seen) <= seen
      ensures outcome == Committed || outcome.IoError?
      ensures fault == NoFault ==> outcome == Committed
      ensures outcome == Committed ==> clean == old(clean) && manifest == Current(segments, sequence)
      ensures log == old(log) + (if outcome == IoError(false) then [] else [batch])
      ensures recs == old(recs) + (if outcome == IoError(false) then [] else [record])
      ensures outcome == Committed ==>
                segments != [] && segments[|segments| - 1].first == old(segments[|segments| - 1].first)
    {
      hide Standing, Follows, Indexed, Written, Current, Told, NextRecord, Given, Total, Faithful;
      var blocked := Rotate(|encoded|, fault);
      if blocked || fault == OpenFails {
        Fail(|encoded|);
        return IoError(false);
      }
      if fault.WriteFails? {
        WriteShort(encoded[..Min(fault.kept, |encoded|)], |encoded|);
        return IoError(false);
      }
      outcome := WriteWhole(record, encoded, batch, fault);
    }

    method WriteWhole(record: Record, encoded: seq<byte>, batch: Batch, fault: Fault) returns (outcome: Outcome)
      requires encoded == codec.encode(record)
      requires Stands(|encoded|) && segments != []
      requires record == NextRecord(segments[|segments| - 1], Snapshot(filesSnapshot, filesSequence), sequence + 1,
                                    batch)
      requires Follows(codec, segments[|segments| - 1], recs, log, record, batch)
      requires 0 < |encoded| && Total(segments) + |encoded| <= maxBytes
      requires segments[|segments| - 1].bytes + |encoded| <= segmentBytes
      modifies this
      ensures Valid() && closed == old(closed) && old(published) <= published && old(seen) <= seen
      ensures outcome == if fault == PublishFails then IoError(true) else Committed
      ensures outcome == Committed ==> clean == old(clean) && manifest == Current(segments, sequence)
      ensures log == old(log) + [batch] && recs == old(recs) + [record]
      ensures segments != [] && segments[|segments| - 1].first == old(segments[|segments| - 1].first)
    {
      hide Standing, Follows, Indexed, Written, Current, Told, NextRecord, Given, Total, Faithful;
      PartlyWritten(encoded);
      Commit(record, encoded, batch);
      if fault == PublishFails {
        Fail(0);
        return IoError(true);
      }
      Publish();
      outcome := Committed;
    }

    // A reader may look now.
    ghost method Look()
      requires Valid()
      modifies this`seen
      ensures Valid() && seen == old(Moments())
    {
      hide Standing, Told;
      ToldOn(Limits(codec, maxBytes, segmentBytes), seen, Moment(Contents(), published), Contents(),
             Snapshot(filesSnapshot, filesSequence), published, clean, 0);
      seen := Moments();
    }

    // What has gone wrong only takes away the promise of a tidy directory.
    ghost method Fail(room: nat)
      requires Stands(room)
      modifies this`clean
      ensures Valid() && !clean
    {
      hide Coherent, Honoured, Referable, Sized, Tidy, Told;
      clean := false;
    }

    // Open a segment for the next record where the last has no room for it.
    method Roll(observedAt: int, length: nat)
      requires Valid() && 0 < length <= MAX_LINE
      modifies this`segments
      ensures segments == Rolled(old(segments), sequence, observedAt, length, segmentBytes)
      ensures segments == old(segments)
              || segments == old(segments) + [Segment(sequence + 1, sequence + 1, 0, observedAt, observedAt)]
      ensures segments == old(segments) <==>
                old(segments) != [] && old(segments)[|old(segments)| - 1].bytes + length <= segmentBytes
      ensures forall room: nat | room > 0 :: Stands(room)
      ensures segments[|segments| - 1].bytes + length <= segmentBytes
    {
      hide Standing, Told;
      ghost var b, l := Contents(), Limits(codec, maxBytes, segmentBytes);
      RollingStands(l, b, Snapshot(filesSnapshot, filesSequence), published, clean, observedAt, length, 1);
      forall room: nat | room > 0
        ensures Standing(l, b.(segments := Rolled(b.segments, |b.log|, observedAt, length, l.segmentBytes)),
                         Snapshot(filesSnapshot, filesSequence), published, clean, room)
      {
        RollingStands(l, b, Snapshot(filesSnapshot, filesSequence), published, clean, observedAt, length, room);
      }
      ToldOn(l, seen, Moment(b, published),
             b.(segments := Rolled(b.segments, |b.log|, observedAt, length, l.segmentBytes)),
             Snapshot(filesSnapshot, filesSequence), published, clean, 1);
      if segments == [] || segments[|segments| - 1].bytes + length > segmentBytes {
        segments := segments + [Segment(sequence + 1, sequence + 1, 0, observedAt, observedAt)];
      }
    }

    // Give up the oldest segments until `length` more bytes fit.
    method Rotate(length: nat, fault: Fault) returns (blocked: bool)
      requires Stands(length) && 0 < length && segments != []
      requires segments[|segments| - 1].bytes + length <= segmentBytes
      modifies this`segments, this`disk
      ensures Stands(length) && segments != []
      ensures segments[|segments| - 1] == old(segments[|segments| - 1])
      ensures !blocked ==> Total(segments) + length <= maxBytes
      ensures fault == NoFault ==> !blocked
    {
      hide Standing, Told;
      var removed := 0;
      while |segments| > 1 && Total(segments) + length > maxBytes
        invariant Stands(length) && segments != []
        invariant segments[|segments| - 1] == old(segments[|segments| - 1])
        decreases |segments|
      {
        if fault == UnlinkFails(removed) {
          return true;
        }
        DroppingStands(Limits(codec, maxBytes, segmentBytes), Contents(),
                       Snapshot(filesSnapshot, filesSequence), published, clean, length);
        ToldOn(Limits(codec, maxBytes, segmentBytes), seen, Moment(Contents(), published), Dropped(Contents()),
               Snapshot(filesSnapshot, filesSequence), published, clean, length);
        disk := disk - {segments[0].first};
        segments := segments[1..];
        removed := removed + 1;
      }
      assert |segments| == 1 ==> Total(segments) == segments[0].bytes;
      blocked := false;
    }

    // A write that failed part way, behind what the segment is known to hold.
    method WriteShort(data: seq<byte>, ghost room: nat)
      requires Stands(room) && segments != []
      modifies this`disk, this`clean
      ensures Valid() && !clean
    {
      hide Coherent, Honoured, Referable, Sized, Tidy, Told;
      WritingStands(Limits(codec, maxBytes, segmentBytes), Contents(),
                    Snapshot(filesSnapshot, filesSequence), published, room, data);
      ToldOn(Limits(codec, maxBytes, segmentBytes), seen, Moment(Contents(), published), Written(Contents(), data),
             Snapshot(filesSnapshot, filesSequence), published, false, 0);
      var t := segments[|segments| - 1];
      disk := disk[t.first := Base(disk, t) + data];
      clean := false;
    }

    // A reader may come upon the record with any part of it written.
    ghost method PartlyWritten(encoded: seq<byte>)
      requires Stands(|encoded|) && segments != []
      modifies this`seen
      ensures Stands(|encoded|) && old(seen) <= seen
    {
      hide Coherent, Honoured, Referable, Sized, Tidy, Told, Base;
      var l, b, snapshot := Limits(codec, maxBytes, segmentBytes), Contents(), Snapshot(filesSnapshot, filesSequence);
      var parts: nat := *;
      while parts > 0
        invariant Stands(|encoded|) && old(seen) <= seen
      {
        var written: nat := *;
        var part := if 0 <= written <= |encoded| then encoded[..written] else encoded;
        var partly := Written(b, part);
        WritingStands(l, b, snapshot, published, |encoded|, part);
        ToldOn(l, seen, Moment(b, published), partly, snapshot, published, false, 0);
        ToldOn(l, seen + [Moment(b, published)], Moment(partly, published), b, snapshot, published, clean, |encoded|);
        seen := seen + [Moment(b, published)] + [Moment(partly, published)];
        parts := parts - 1;
      }
    }

    // The whole record written, and the index and the snapshot brought up to it.
    method Commit(record: Record, encoded: seq<byte>, batch: Batch)
      requires encoded == codec.encode(record)
      requires Stands(|encoded|) && segments != []
      requires record == NextRecord(segments[|segments| - 1], Snapshot(filesSnapshot, filesSequence), sequence + 1,
                                    batch)
      requires Follows(codec, segments[|segments| - 1], recs, log, record, batch)
      requires 0 < |encoded| && Total(segments) + |encoded| <= maxBytes
      requires segments[|segments| - 1].bytes + |encoded| <= segmentBytes
      modifies this`segments, this`disk, this`sequence, this`filesSnapshot, this`filesSequence, this`recs, this`log
      ensures Valid()
      ensures log == old(log) + [batch] && recs == old(recs) + [record]
      ensures segments != [] && segments[|segments| - 1].first == old(segments[|segments| - 1].first)
    {
      hide Standing, Follows, Given, Base, Total, Told;
      var snapshot := NextSnapshot(record, Snapshot(filesSnapshot, filesSequence));
      IndexingIsTold(Limits(codec, maxBytes, segmentBytes), seen, Contents(), record, batch,
                     Snapshot(filesSnapshot, filesSequence), snapshot, published, clean);
      var t := segments[|segments| - 1];
      disk, segments, sequence, filesSnapshot, filesSequence, recs, log :=
        disk[t.first := Base(disk, t) + encoded],
        segments[..|segments| - 1] + [Extended(t, sequence + 1, batch.observedAt, |encoded|)],
        sequence + 1, snapshot.files, snapshot.sequence, recs + [record], log + [batch];
    }
  }

  lemma LastStartedEarlier(l: Limits, b: Book, snapshot: Snapshot, published: set<Manifest>, clean: bool, room: nat)
    requires Standing(l, b, snapshot, published, clean, room)
    ensures b.segments != [] && b.segments[|b.segments| - 1].bytes > 0 ==>
              b.segments[|b.segments| - 1].first <= |b.log|
    ensures MAX_LINE <= l.segmentBytes
  {
    hide Honoured, Tidy, Referable, Kept, Accurate;
  }

  lemma EncodedLength(c: Codec, seqNo: nat, x: Batch)
    requires Faithful(c)
    ensures |c.encode(FullRecord(seqNo, x))| == c.size(Entry(seqNo, x)) + 1
  {
  }
}
