// Reading a page of the live history, and what following pages adds up to.
module HistoryReader {
  import opened Basics
  import opened HistoryFormat
  import opened HistoryWriter

  datatype Query = Query(after: int, limit: int, start: Option<int>, end: Option<int>, worker: string)

  datatype ReadError =
    | InvalidArgument
    | Truncated         // the file ends before what was published
    | BadRecord         // no newline in reach, or not a record
    | OutOfRange        // a record outside its segment's range
    | NoSnapshot        // a reference to a snapshot that was not read

  datatype Page = Page(batches: seq<Entry>, size: nat, cursor: int, more: bool)

  datatype Reply = Reply(batches: seq<Entry>, nextAfter: int, hasMore: bool,
                         historyTruncated: bool, cursorExpired: bool)

  // ---- what a page is ----

  // The instants asked for, from `start` to `end`, both included.
  predicate InWindow(q: Query, at: int) {
    (q.start.Some? ==> q.start.value <= at) && (q.end.Some? ==> at <= q.end.value)
  }

  // How a stretch of time, or one instant, is passed over.
  predicate Outside(q: Query, from: int, to: int)
    ensures Outside(q, from, to) ==> forall at :: from <= at <= to ==> !InWindow(q, at)
    ensures from == to ==> (Outside(q, from, to) <==> !InWindow(q, from))
  {
    (q.start.Some? && to < q.start.value) || (q.end.Some? && from > q.end.value)
  }

  predicate Wanted(q: Query, e: Entry) {
    e.seqNo > q.after && InWindow(q, e.batch.observedAt)
  }

  // The samples above the cursor that pass the time filter, in order.
  function Eligible(q: Query, es: seq<Entry>): seq<Entry> {
    if es == [] then []
    else Eligible(q, es[..|es| - 1]) + (if Wanted(q, es[|es| - 1]) then [es[|es| - 1]] else [])
  }

  function Views(es: seq<Entry>, worker: string): seq<Entry> {
    seq(|es|, i requires 0 <= i < |es| => View(es[i], worker))
  }

  function TotalSize(c: Codec, es: seq<Entry>): nat {
    if es == [] then 0 else TotalSize(c, es[..|es| - 1]) + c.size(es[|es| - 1])
  }

  // `p` is a page of `es`: the first samples wanted of it, as many as fit, and
  // a cursor between the last of them and the first one left.
  ghost predicate PageOf(c: Codec, q: Query, p: Page, es: seq<Entry>) {
    var wanted, n := Eligible(q, es), |p.batches|;
    && n <= |wanted| && p.batches == Views(wanted[..n], q.worker)
    && n <= q.limit && p.size == TotalSize(c, p.batches) <= MAX_REPLY
    && q.after <= p.cursor
    && (forall i :: 0 <= i < n ==> wanted[i].seqNo <= p.cursor)
    && (forall i :: n <= i < |wanted| ==> p.cursor < wanted[i].seqNo)
    && (p.more <==> n < |wanted|)
    && (p.more ==> n > 0 && (n == q.limit || p.size + c.size(View(wanted[n], q.worker)) > MAX_REPLY))
  }

  // One more sample met.
  function Meet(c: Codec, q: Query, p: Page, e: Entry): Page {
    if e.seqNo <= q.after then p
    else if Outside(q, e.batch.observedAt, e.batch.observedAt) then p.(cursor := e.seqNo)
    else
      var v := View(e, q.worker);
      if p.batches != [] && (|p.batches| >= q.limit || p.size + c.size(v) > MAX_REPLY) then p.(more := true)
      else Page(p.batches + [v], p.size + c.size(v), e.seqNo, false)
  }

  lemma EligibleSnoc(q: Query, es: seq<Entry>, e: Entry)
    ensures Eligible(q, es + [e]) == Eligible(q, es) + (if Wanted(q, e) then [e] else [])
  {
    assert (es + [e])[..|es|] == es;
  }

  lemma MeetKeeps(c: Codec, q: Query, p: Page, es: seq<Entry>, e: Entry)
    requires PageOf(c, q, p, es) && !p.more && q.limit >= 1
    requires c.size(View(e, q.worker)) <= MAX_REPLY && (e.seqNo > q.after ==> e.seqNo > p.cursor)
    ensures PageOf(c, q, Meet(c, q, p, e), es + [e])
  {
    hide Eligible, Views, View, TotalSize;
    EligibleSnoc(q, es, e);
    var n := |p.batches|;
    assert n == |Eligible(q, es)| && Eligible(q, es)[..n] == Eligible(q, es);
    if Wanted(q, e) {
      var wanted := Eligible(q, es) + [e];
      assert wanted[..n] == Eligible(q, es) && wanted[n] == e && wanted[..n + 1] == wanted;
      OneMoreView(c, Eligible(q, es), e, q.worker);
    } else {
      assert Eligible(q, es + [e]) == Eligible(q, es);
    }
  }

  lemma OneMoreView(c: Codec, es: seq<Entry>, e: Entry, worker: string)
    ensures Views(es + [e], worker) == Views(es, worker) + [View(e, worker)]
    ensures TotalSize(c, Views(es, worker) + [View(e, worker)]) ==
            TotalSize(c, Views(es, worker)) + c.size(View(e, worker))
    ensures TotalSize(c, []) == 0
  {
    var vs := Views(es, worker);
    assert (vs + [View(e, worker)])[..|vs|] == vs;
    assert forall i :: 0 <= i < |es| ==> (es + [e])[i] == es[i];
  }

  // What a full page leaves is left, however much there is of it.
  lemma {:induction false} FullPageKeeps(c: Codec, q: Query, p: Page, es: seq<Entry>, more: seq<Entry>)
    requires PageOf(c, q, p, es) && p.more
    requires forall e :: e in more && e.seqNo > q.after ==> e.seqNo > p.cursor
    ensures PageOf(c, q, p, es + more)
    decreases |more|
  {
    if more == [] {
      assert es + more == es;
    } else {
      var k := |more| - 1;
      FullPageKeeps(c, q, p, es, more[..k]);
      EligibleSnoc(q, es + more[..k], more[k]);
      assert es + more == es + more[..k] + [more[k]];
      var before, wanted := Eligible(q, es + more[..k]), Eligible(q, es + more);
      assert forall i :: 0 <= i < |before| ==> wanted[i] == before[i];
      assert wanted[..|p.batches|] == before[..|p.batches|];
    }
  }

  // Samples that are not wanted change nothing but how far has been read.
  lemma {:induction false} UnwantedKeeps(q: Query, es: seq<Entry>, more: seq<Entry>)
    requires forall e :: e in more ==> !Wanted(q, e)
    ensures Eligible(q, es + more) == Eligible(q, es)
    decreases |more|
  {
    if more == [] {
      assert es + more == es;
    } else {
      var k := |more| - 1;
      UnwantedKeeps(q, es, more[..k]);
      EligibleSnoc(q, es + more[..k], more[k]);
      assert es + more == es + more[..k] + [more[k]];
    }
  }

  // ---- reading one segment ----

  // At most `n` bytes, and no further than a newline.
  function ReadLine(s: seq<byte>, n: nat): (line: seq<byte>)
    ensures |line| <= n && line <= s
  {
    if n == 0 || s == [] then []
    else if s[0] == NEWLINE then [s[0]]
    else [s[0]] + ReadLine(s[1..], n - 1)
  }

  lemma {:induction false} ReadLineOf(line: seq<byte>, rest: seq<byte>, n: nat)
    requires IsLine(line) && |line| <= n
    ensures ReadLine(line + rest, n) == line
    decreases |line|
  {
    if |line| > 1 {
      assert (line + rest)[1..] == line[1..] + rest;
      ReadLineOf(line[1..], rest, n - 1);
    }
  }

  // What a segment's file, as it was found, is known to hold.
  ghost predicate Readable(c: Codec, s: Segment, data: seq<byte>, rs: seq<Record>, es: seq<Entry>) {
    && s.bytes == |Lines(c, rs)| <= |data|
    && data[..s.bytes] == Lines(c, rs)
    && Means(rs, es) && |rs| == (if s.bytes == 0 then 0 else s.last + 1 - s.first)
    && forall i :: 0 <= i < |rs| ==>
         |c.encode(rs[i])| <= MAX_LINE && es[i].seqNo == s.first + i && c.size(es[i]) <= MAX_REPLY
  }

  // A line of segment `s`, checked and expanded.
  function Parse(c: Codec, s: Segment, line: seq<byte>, held: Option<(nat, Json)>)
    : (r: Result<(Record, Entry), ReadError>)
    ensures line == [] ==> r == Failure(Truncated)
  {
    if line == [] then Failure(Truncated)
    else if |line| > MAX_LINE || line[|line| - 1] != NEWLINE then Failure(BadRecord)
    else match c.decode(line)
      case None => Failure(BadRecord)
      case Some(r) =>
        if !(s.first <= r.seqNo <= s.last) then Failure(OutOfRange)
        else match Expand(r, held)
          case None => Failure(NoSnapshot)
          case Some(e) => Success((r, e))
  }

  // What a reader takes for a line of segment `s`, whatever its file holds.
  ghost predicate Acceptable(c: Codec, s: Segment, line: seq<byte>) {
    && 0 < |line| <= MAX_LINE && line[|line| - 1] == NEWLINE
    && c.decode(line).Some? && s.first <= c.decode(line).value.seqNo <= s.last
  }

  lemma ParsedIsAcceptable(c: Codec, s: Segment, line: seq<byte>, held: Option<(nat, Json)>)
    ensures Parse(c, s, line, held).Success? <==>
              Acceptable(c, s, line) && Expand(c.decode(line).value, held).Some?
    ensures Parse(c, s, line, held).Success? ==>
              && Parse(c, s, line, held).value.0 == c.decode(line).value
              && Parse(c, s, line, held).value.1.seqNo == c.decode(line).value.seqNo
    // and why not
    ensures Parse(c, s, line, held) == Failure(Truncated) <==> line == []
    ensures Parse(c, s, line, held) == Failure(OutOfRange) <==>
              && 0 < |line| <= MAX_LINE && line[|line| - 1] == NEWLINE
              && c.decode(line).Some? && !(s.first <= c.decode(line).value.seqNo <= s.last)
    ensures Parse(c, s, line, held) == Failure(NoSnapshot) <==>
              Acceptable(c, s, line) && Expand(c.decode(line).value, held).None?
    ensures Parse(c, s, line, held) != Failure(InvalidArgument)
  {
  }

  function Flat(lines: seq<seq<byte>>): seq<byte> {
    if lines == [] then [] else Flat(lines[..|lines| - 1]) + lines[|lines| - 1]
  }

  // A reader has come through `lines` of segment `s`, which are the start of
  // its file; all it has on its page besides `before` is the entries of some.
  ghost predicate Came(c: Codec, s: Segment, data: seq<byte>, lines: seq<seq<byte>>, before: seq<Entry>, page: Page) {
    && Flat(lines) <= data
    && (forall l :: l in lines ==> Acceptable(c, s, l))
    && (forall v :: v in page.batches ==> v in before || s.first <= v.seqNo <= s.last)
  }

  lemma CameOneMore(c: Codec, q: Query, s: Segment, data: seq<byte>, lines: seq<seq<byte>>, before: seq<Entry>,
                    page: Page, line: seq<byte>, held: Option<(nat, Json)>, n: nat)
    requires Came(c, s, data, lines, before, page) && line == ReadLine(From(data, |Flat(lines)|), n)
    requires Parse(c, s, line, held).Success?
    ensures Came(c, s, data, lines + [line], before, Meet(c, q, page, Parse(c, s, line, held).value.1))
    ensures |Flat(lines + [line])| == |Flat(lines)| + |line|
  {
    hide Parse, ReadLine;
    ParsedIsAcceptable(c, s, line, held);
    ViewTells(Parse(c, s, line, held).value.1, q.worker);
    assert (lines + [line])[..|lines|] == lines;
    var pos := |Flat(lines)|;
    assert data[..pos] == Flat(lines) && line <= data[pos..];
    assert data[..pos + |line|] == data[..pos] + data[pos..][..|line|];
  }

  lemma CameNowhere(c: Codec, s: Segment, data: seq<byte>, page: Page)
    ensures Came(c, s, data, [], page.batches, page) && Flat([]) == []
  {
  }

  // The snapshot held once a record has been read.
  function Next(r: Record, held: Option<(nat, Json)>): Option<(nat, Json)> {
    if r.reference.None? && r.batch.files.Some? then Some((r.seqNo, r.batch.files.value)) else held
  }

  // What is left of a file from `pos` on.
  function From(data: seq<byte>, pos: nat): seq<byte> {
    if pos <= |data| then data[pos..] else []
  }

  lemma NextLine(c: Codec, s: Segment, data: seq<byte>, rs: seq<Record>, j: nat, pos: nat, n: nat)
    requires j < |rs| && IsLine(c.encode(rs[j])) && |c.encode(rs[j])| <= n
    requires pos < s.bytes <= |data| && data[pos..s.bytes] == Lines(c, rs[j..])
    ensures var line := ReadLine(From(data, pos), n);
            && line == c.encode(rs[j]) && pos + |line| <= s.bytes
            && data[pos + |line|..s.bytes] == Lines(c, rs[j + 1..])
  {
    var line, rest := c.encode(rs[j]), Lines(c, rs[j + 1..]);
    assert rs[j..][1..] == rs[j + 1..];
    assert data[pos..s.bytes] == line + rest;
    assert |line + rest| == s.bytes - pos;
    assert data[pos..] == line + (rest + data[s.bytes..]) by {
      assert data[pos..] == data[pos..s.bytes] + data[s.bytes..];
    }
    ReadLineOf(line, rest + data[s.bytes..], n);
    assert data[pos + |line|..s.bytes] == (line + rest)[|line|..];
  }

  // How far a reader of the segment has come: `j` records, up to `pos`.
  ghost predicate At(c: Codec, s: Segment, data: seq<byte>, rs: seq<Record>, j: nat, pos: nat,
                     held: Option<(nat, Json)>) {
    && j <= |rs| && pos <= s.bytes <= |data|
    && data[pos..s.bytes] == Lines(c, rs[j..])
    && held == Held(rs[..j])
  }

  lemma Advance(c: Codec, s: Segment, data: seq<byte>, rs: seq<Record>, es: seq<Entry>,
                j: nat, pos: nat, held: Option<(nat, Json)>)
    requires Faithful(c) && Readable(c, s, data, rs, es) && At(c, s, data, rs, j, pos, held) && pos < s.bytes
    ensures j < |rs|
    ensures var line := ReadLine(From(data, pos), if MAX_LINE < s.bytes - pos then MAX_LINE + 1 else s.bytes - pos);
            && Parse(c, s, line, held) == Success((rs[j], es[j]))
            && At(c, s, data, rs, j + 1, pos + |line|, Next(rs[j], held))
  {
    hide Faithful, IsLine, Parse, ReadLine, From, Lines, Means;
    LinesGoOn(c, s, data, rs, j, pos, held);
    ReadableEntries(c, s, data, rs, es);
    Decoding(c, rs[j]);
    NextLine(c, s, data, rs, j, pos, if MAX_LINE < s.bytes - pos then MAX_LINE + 1 else s.bytes - pos);
    MeansAt(rs, es, j);
    Parsing(c, s, rs[j], es[j], held);
    assert rs[..j + 1][..j] == rs[..j];
  }

  // Short of the end of what is promised there is another line.
  lemma LinesGoOn(c: Codec, s: Segment, data: seq<byte>, rs: seq<Record>, j: nat, pos: nat, held: Option<(nat, Json)>)
    requires At(c, s, data, rs, j, pos, held) && pos < s.bytes
    ensures j < |rs| && |Lines(c, rs[j..])| == s.bytes - pos
    ensures Lines(c, rs[j..]) == c.encode(rs[j]) + Lines(c, rs[j + 1..])
  {
    hide Held;
    assert |data[pos..s.bytes]| > 0;
    assert |rs[j..]| > 0;
    assert rs[j..][1..] == rs[j + 1..];
  }

  lemma Parsing(c: Codec, s: Segment, r: Record, e: Entry, held: Option<(nat, Json)>)
    requires Faithful(c) && |c.encode(r)| <= MAX_LINE && s.first <= r.seqNo <= s.last
    requires Expand(r, held) == Some(e)
    ensures Parse(c, s, c.encode(r), held) == Success((r, e))
  {
    Decoding(c, r);
  }

  lemma Decoding(c: Codec, r: Record)
    requires Faithful(c)
    ensures c.decode(c.encode(r)) == Some(r) && IsLine(c.encode(r))
  {
  }

  lemma LinesLeft(c: Codec, rs: seq<Record>, j: nat)
    requires Faithful(c) && j < |rs|
    ensures |Lines(c, rs[j..])| > 0
  {
    assert IsLine(c.encode(rs[j..][0]));
  }

  // How far the page has come with the segment's samples on top of `met`.
  ghost predicate Filling(c: Codec, q: Query, s: Segment, met: seq<Entry>, es: seq<Entry>, j: nat, page: Page) {
    && j <= |es| && PageOf(c, q, page, met + es[..j])
    && page.cursor <= Max(q.after, s.first + j - 1)
    && (j > 0 && !page.more ==> page.cursor >= s.first + j - 1)
  }

  lemma CursorMovesOn(c: Codec, q: Query, p: Page, es: seq<Entry>)
    requires PageOf(c, q, p, es)
    ensures q.after <= p.cursor
  {
    hide Eligible, Views, TotalSize;
  }

  lemma FillingAdvances(c: Codec, q: Query, s: Segment, met: seq<Entry>, es: seq<Entry>, j: nat, page: Page)
    requires Faithful(c) && q.limit >= 1 && j < |es|
    requires forall i :: 0 <= i < |es| ==> es[i].seqNo == s.first + i && c.size(es[i]) <= MAX_REPLY
    requires Filling(c, q, s, met, es, j, page) && !page.more
    ensures Filling(c, q, s, met, es, j + 1, Meet(c, q, page, es[j]))
  {
    hide PageOf, View;
    assert c.size(View(es[j], q.worker)) <= c.size(es[j]);
    CursorMovesOn(c, q, page, met + es[..j]);
    MeetKeeps(c, q, page, met + es[..j], es[j]);
    assert met + es[..j] + [es[j]] == met + es[..j + 1];
  }

  lemma Filled(c: Codec, q: Query, s: Segment, met: seq<Entry>, es: seq<Entry>, j: nat, page: Page)
    requires forall i :: 0 <= i < |es| ==> es[i].seqNo == s.first + i
    requires Filling(c, q, s, met, es, j, page) && (page.more || j == |es|)
    ensures Filling(c, q, s, met, es, |es|, page)
  {
    hide PageOf;
    assert es[..|es|] == es;
    if page.more {
      assert met + es == met + es[..j] + es[j..];
      forall e | e in es[j..]
        ensures e.seqNo >= s.first + j
      {
        var i :| 0 <= i < |es[j..]| && es[j..][i] == e;
        assert e == es[j + i];
      }
      FullPageKeeps(c, q, page, met + es[..j], es[j..]);
    }
  }

  // Both together.
  ghost predicate SoFar(c: Codec, q: Query, s: Segment, data: seq<byte>, met: seq<Entry>, rs: seq<Record>,
                        es: seq<Entry>,
                        j: nat, pos: nat, held: Option<(nat, Json)>, page: Page) {
    && Readable(c, s, data, rs, es) && At(c, s, data, rs, j, pos, held)
    && Filling(c, q, s, met, es, j, page)
  }

  lemma OneLine(c: Codec, q: Query, s: Segment, data: seq<byte>, met: seq<Entry>, rs: seq<Record>, es: seq<Entry>,
                j: nat, pos: nat, held: Option<(nat, Json)>, page: Page)
    requires Faithful(c) && q.limit >= 1 && !page.more && pos < s.bytes
    requires SoFar(c, q, s, data, met, rs, es, j, pos, held, page)
    ensures var line := ReadLine(From(data, pos), if MAX_LINE < s.bytes - pos then MAX_LINE + 1 else s.bytes - pos);
            var parsed := Parse(c, s, line, held);
            && parsed.Success?
            && SoFar(c, q, s, data, met, rs, es, j + 1, pos + |line|, Next(parsed.value.0, held),
                     Meet(c, q, page, parsed.value.1))
  {
    hide At, Readable, Filling, Parse, ReadLine, From, Next, Meet, Faithful;
    Advance(c, s, data, rs, es, j, pos, held);
    ReadableEntries(c, s, data, rs, es);
    FillingAdvances(c, q, s, met, es, j, page);
  }

  // One segment, line by line, until it ends or the page is full.
  method ReadSegment(c: Codec, q: Query, s: Segment, data: seq<byte>, p: Page,
                     ghost met: seq<Entry>, ghost rs: seq<Record>, ghost es: seq<Entry>)
    returns (r: Result<Page, ReadError>, ghost lines: seq<seq<byte>>)
    requires Faithful(c) && q.limit >= 1 && !p.more
    // whatever the file holds, what is read of it are whole records in range,
    // and all that was published of it, unless the page was full before
    ensures r.Success? ==> Came(c, s, data, lines, p.batches, r.value)
    ensures r.Success? && !r.value.more ==> |Flat(lines)| == s.bytes <= |data|
    ensures Readable(c, s, data, rs, es) && Filling(c, q, s, met, es, 0, p) ==>
              r.Success? && Filling(c, q, s, met, es, |es|, r.value)
  {
    hide *;
    ghost var honest := Readable(c, s, data, rs, es) && Filling(c, q, s, met, es, 0, p);
    var page := p;
    var remaining: nat, pos: nat := s.bytes, 0;
    var held: Option<(nat, Json)> := None;
    ghost var j := 0;
    lines := [];
    CameNowhere(c, s, data, p);
    if honest {
      AtTheStart(c, q, s, data, met, rs, es, p);
    }
    while remaining > 0 && !page.more
      invariant remaining <= s.bytes && pos == s.bytes - remaining
      invariant honest ==> SoFar(c, q, s, data, met, rs, es, j, pos, held, page)
      invariant Came(c, s, data, lines, p.batches, page) && |Flat(lines)| == pos
      decreases remaining
    {
      if honest {
        OneLine(c, q, s, data, met, rs, es, j, pos, held, page);
      }
      var most := if MAX_LINE < remaining then MAX_LINE + 1 else remaining;
      var line := ReadLine(From(data, pos), most);
      var parsed := Parse(c, s, line, held);
      if parsed.Failure? {
        return Failure(parsed.error), lines;
      }
      CameOneMore(c, q, s, data, lines, p.batches, page, line, held, most);
      lines := lines + [line];
      held := Next(parsed.value.0, held);
      page := Meet(c, q, page, parsed.value.1);
      remaining, pos, j := remaining - |line|, pos + |line|, j + 1;
    }
    if honest {
      AtTheEnd(c, q, s, data, met, rs, es, j, pos, held, page);
    }
    CameWithin(c, s, data, lines, p.batches, page);
    return Success(page), lines;
  }

  lemma CameWithin(c: Codec, s: Segment, data: seq<byte>, lines: seq<seq<byte>>, before: seq<Entry>, page: Page)
    requires Came(c, s, data, lines, before, page)
    ensures |Flat(lines)| <= |data|
  {
  }

  lemma AtTheStart(c: Codec, q: Query, s: Segment, data: seq<byte>, met: seq<Entry>, rs: seq<Record>, es: seq<Entry>,
                   page: Page)
    requires Readable(c, s, data, rs, es) && Filling(c, q, s, met, es, 0, page)
    ensures SoFar(c, q, s, data, met, rs, es, 0, 0, None, page)
  {
    assert rs[0..] == rs && rs[..0] == [];
  }

  lemma ReadableEntries(c: Codec, s: Segment, data: seq<byte>, rs: seq<Record>, es: seq<Entry>)
    requires Readable(c, s, data, rs, es)
    ensures |es| == |rs|
    ensures forall i :: 0 <= i < |es| ==> es[i].seqNo == s.first + i && c.size(es[i]) <= MAX_REPLY
  {
  }

  lemma AtTheEnd(c: Codec, q: Query, s: Segment, data: seq<byte>, met: seq<Entry>, rs: seq<Record>, es: seq<Entry>,
                 j: nat, pos: nat, held: Option<(nat, Json)>, page: Page)
    requires Faithful(c) && SoFar(c, q, s, data, met, rs, es, j, pos, held, page) && (pos == s.bytes || page.more)
    ensures Filling(c, q, s, met, es, |es|, page)
  {
    if !page.more && j < |rs| {
      LinesLeft(c, rs, j);
    }
    Filled(c, q, s, met, es, j, page);
  }

  // ---- a whole page ----

  // The samples of a segment, where there is a file to read them from.
  function Found(s: Segment, files: Disk, log: seq<Batch>): seq<Entry> {
    if s.bytes > 0 && s.first in files && 1 <= s.first <= s.last <= |log| then Entries(log, s.first, s.last) else []
  }

  // The samples of the segments whose files were there to be read.
  function Retained(segments: seq<Segment>, files: Disk, log: seq<Batch>): seq<Entry> {
    if segments == [] then []
    else Retained(segments[..|segments| - 1], files, log) + Found(segments[|segments| - 1], files, log)
  }

  // The arguments a page may be asked for with.
  predicate Admissible(q: Query) {
    && q.after >= 0 && 1 <= q.limit <= 500
    && (q.start.Some? && q.end.Some? ==> q.start.value <= q.end.value)
  }

  // With `latest`, only what follows the last sample but one is asked for.
  function Asked(q: Query, latest: bool, m: Manifest): Query {
    if latest then q.(after := Max(q.after, m.latest - 1)) else q
  }

  ghost predicate AllFound(segments: seq<Segment>, files: Disk) {
    forall s :: s in segments ==> s.bytes > 0 && s.first in files
  }

  // What has been read once the first `i` segments have had their turn.
  ghost predicate Covered(c: Codec, q: Query, m: Manifest, i: nat, files: Disk, recs: seq<Record>, log: seq<Batch>,
                          page: Page) {
    && i <= |m.segments| && Promises(c, m, recs, log) && Kept(c, m.segments, files, recs)
    && PageOf(c, q, page, Retained(m.segments[..i], files, log))
    && page.cursor <= Max(q.after, if i > 0 then m.segments[i - 1].last else 0)
    && (page.cursor <= Max(q.after, m.latest) || PastEmpty(q, m, page.cursor))
    && (!page.more && AllFound(m.segments, files) ==>
          page.cursor == Max(q.after, if i > 0 then m.segments[i - 1].last else 0))
  }

  // The cursor is on the number that an indexed segment, not yet written to, is
  // waiting for: its window is that of a sample that was not written.
  ghost predicate PastEmpty(q: Query, m: Manifest, cursor: int) {
    exists s ::
      && s in m.segments && s.bytes == 0 && s.first == cursor
      && forall at :: s.from <= at <= s.to ==> !InWindow(q, at)
  }

  lemma NotYet(c: Codec, q: Query, m: Manifest, files: Disk, recs: seq<Record>, log: seq<Batch>)
    requires Promises(c, m, recs, log) && Kept(c, m.segments, files, recs) && q.after >= 0 && q.limit >= 1
    ensures Covered(c, q, m, 0, files, recs, log, Page([], 0, q.after, false))
  {
    assert m.segments[..0] == [];
  }

  // What is known of segment `i` when its turn comes.
  lemma Turn(c: Codec, q: Query, m: Manifest, i: nat, files: Disk, recs: seq<Record>, log: seq<Batch>, page: Page)
    requires Covered(c, q, m, i, files, recs, log, page) && i < |m.segments|
    ensures var s := m.segments[i];
            && (s.bytes > 0 ==> 1 <= s.first <= s.last <= |log| == |recs|)
            && 1 <= s.first <= s.last
            && (if s.bytes > 0 then s.last <= m.latest else s.first == s.last == m.latest + 1)
            && Retained(m.segments[..i + 1], files, log) == Retained(m.segments[..i], files, log) + Found(s, files, log)
            && (i > 0 ==> m.segments[i - 1].last < s.first) && s in m.segments && Accurate(c, s, recs, log)
            && (forall e :: e in Found(s, files, log) ==>
                  s.from <= e.batch.observedAt <= s.to && s.first <= e.seqNo <= s.last)
  {
    hide PageOf, Kept, Means, Lines, Found, Contiguous;
    var s := m.segments[i];
    assert m.segments[..i + 1][..i] == m.segments[..i];
    SegmentAt(m.segments, m.latest, i);
    FoundInWindow(c, s, files, recs, log);
  }

  // A segment's own time window and sequence range hold every sample found in it.
  lemma FoundInWindow(c: Codec, s: Segment, files: Disk, recs: seq<Record>, log: seq<Batch>)
    requires Accurate(c, s, recs, log)
    ensures forall e :: e in Found(s, files, log) ==>
              s.from <= e.batch.observedAt <= s.to && s.first <= e.seqNo <= s.last
  {
    hide Means, Lines;
    var es := Found(s, files, log);
    forall k | 0 <= k < |es|
      ensures s.from <= es[k].batch.observedAt <= s.to && s.first <= es[k].seqNo <= s.last
    {
      assert es[k] == Entry(s.first + k, log[s.first - 1 + k]);
    }
  }

  lemma PassedOver(c: Codec, q: Query, m: Manifest, i: nat, files: Disk, recs: seq<Record>, log: seq<Batch>, page: Page)
    requires Covered(c, q, m, i, files, recs, log, page) && i < |m.segments| && !page.more
    requires var s := m.segments[i]; s.last <= q.after || Outside(q, s.from, s.to)
    ensures var s := m.segments[i];
            Covered(c, q, m, i + 1, files, recs, log, if s.last <= q.after then page else page.(cursor := s.last))
  {
    hide Promises, Kept, Accurate, Retained, Found, Eligible, TotalSize;
    var s := m.segments[i];
    Turn(c, q, m, i, files, recs, log, page);
    var next := if s.last <= q.after then page else page.(cursor := s.last);
    UnwantedKeeps(q, Retained(m.segments[..i], files, log), Found(s, files, log));
    if s.last > q.after && s.bytes == 0 {
      assert PastEmpty(q, m, next.cursor);
    }
  }

  lemma Missing(c: Codec, q: Query, m: Manifest, i: nat, files: Disk, recs: seq<Record>, log: seq<Batch>, page: Page)
    requires Covered(c, q, m, i, files, recs, log, page) && i < |m.segments| && !page.more
    requires m.segments[i].first !in files
    ensures Covered(c, q, m, i + 1, files, recs, log, page)
  {
    hide Promises, Kept, Accurate, Retained, PageOf;
    Turn(c, q, m, i, files, recs, log, page);
    assert Found(m.segments[i], files, log) == [];
    assert Retained(m.segments[..i + 1], files, log) == Retained(m.segments[..i], files, log);
  }

  lemma FoundReadable(c: Codec, m: Manifest, s: Segment, files: Disk, recs: seq<Record>, log: seq<Batch>)
    requires s in m.segments && Accurate(c, s, recs, log) && Kept(c, m.segments, files, recs) && s.first in files
    ensures s.bytes > 0 ==> 1 <= s.first <= s.last <= |log| == |recs|
    ensures Readable(c, s, files[s.first], Of(s, recs), Found(s, files, log))
  {
    if s.bytes > 0 {
      var rs, es := Of(s, recs), Entries(log, s.first, s.last);
      assert Means(rs, es);
      forall i | 0 <= i < |rs|
        ensures |c.encode(rs[i])| <= MAX_LINE && es[i].seqNo == s.first + i && c.size(es[i]) <= MAX_REPLY
      {
        assert rs[i] == recs[s.first - 1 + i] && es[i] == Entry(s.first + i, log[s.first - 1 + i]);
      }
    }
  }

  lemma BeforeReading(c: Codec, q: Query, m: Manifest, i: nat, files: Disk, recs: seq<Record>, log: seq<Batch>,
                      page: Page)
    requires Covered(c, q, m, i, files, recs, log, page) && i < |m.segments| && m.segments[i].first in files
    ensures var s := m.segments[i];
            && (s.bytes > 0 ==> 1 <= s.first <= s.last <= |log| == |recs|)
            && Readable(c, s, files[s.first], Of(s, recs), Found(s, files, log))
            && Filling(c, q, s, Retained(m.segments[..i], files, log), Found(s, files, log), 0, page)
  {
    hide Promises, Kept, Accurate, Retained, PageOf, Means, Lines, Found;
    var s := m.segments[i];
    Turn(c, q, m, i, files, recs, log, page);
    FoundReadable(c, m, s, files, recs, log);
    var met := Retained(m.segments[..i], files, log);
    assert met + Found(s, files, log)[..0] == met;
  }

  lemma AfterReading(c: Codec, q: Query, m: Manifest, i: nat, files: Disk, recs: seq<Record>, log: seq<Batch>,
                     before: Page, page: Page)
    requires Covered(c, q, m, i, files, recs, log, before) && i < |m.segments| && m.segments[i].first in files
    requires q.after < m.segments[i].last
    requires var s := m.segments[i];
             && (s.bytes > 0 ==> 1 <= s.first <= s.last <= |log|)
             && Filling(c, q, s, Retained(m.segments[..i], files, log), Found(s, files, log), |Found(s, files, log)|,
                 page)
    ensures Covered(c, q, m, i + 1, files, recs, log, page)
  {
    hide Promises, Kept, Accurate, Retained, PageOf, Means, Lines;
    Turn(c, q, m, i, files, recs, log, before);
    var s := m.segments[i];
    assert Found(s, files, log)[..|Found(s, files, log)|] == Found(s, files, log);
  }

  // A full page is a page of whatever else there is.
  lemma {:induction false} RestCovered(c: Codec, q: Query, m: Manifest, i: nat, files: Disk, recs: seq<Record>,
                                       log: seq<Batch>, page: Page)
    requires Covered(c, q, m, i, files, recs, log, page) && page.more
    ensures Covered(c, q, m, |m.segments|, files, recs, log, page)
    decreases |m.segments| - i
  {
    hide Promises, Kept, Accurate, Retained, PageOf, Found;
    if i < |m.segments| {
      Turn(c, q, m, i, files, recs, log, page);
      FullPageKeeps(c, q, page, Retained(m.segments[..i], files, log), Found(m.segments[i], files, log));
      RestCovered(c, q, m, i + 1, files, recs, log, page);
    }
  }

  // A page of what manifest `m` indexes. Each file is as it was found when its
  // turn came: appends may have added to it, or taken it away, by then.
  method ReadHistory(c: Codec, m: Manifest, files: Disk, q: Query, latest: bool,
                     ghost recs: seq<Record>, ghost log: seq<Batch>)
    returns (r: Result<Reply, ReadError>)
    requires Faithful(c)
    ensures q.after < 0 || q.limit < 1 || q.limit > 500 || (q.start.Some? && q.end.Some? && q.start.value > q.end.value)
            <==> !Admissible(q)
    ensures !Admissible(q) ==> r == Failure(InvalidArgument)
    ensures Admissible(q) && Promises(c, m, recs, log) && Kept(c, m.segments, files, recs) ==>
              && r.Success?
              && PageOf(c, Asked(q, latest, m), PageIn(c, r.value), Retained(m.segments, files, log))
              && (|| r.value.nextAfter <= Max(Asked(q, latest, m).after, m.latest)
                  || PastEmpty(Asked(q, latest, m), m, r.value.nextAfter))
              && (!r.value.hasMore && AllFound(m.segments, files) ==>
                    r.value.nextAfter == Max(Asked(q, latest, m).after, m.latest))
    // whatever the files hold, nothing on a page is from outside the segments indexed
    ensures r.Success? ==> AllIndexed(m, files, r.value.batches)
    // nothing outside the window, and nothing in it passed over
    ensures Admissible(q) && Promises(c, m, recs, log) && Kept(c, m.segments, files, recs) ==>
              JustInWindow(Asked(q, latest, m), r.value.batches, r.value.nextAfter, Retained(m.segments, files, log))
    ensures r.Success? ==>
              && (r.value.historyTruncated <==> m.earliest.Some? && m.earliest.value > 1)
              && (r.value.cursorExpired <==>
                    m.earliest.Some? && Asked(q, latest, m).after > 0
                        && Asked(q, latest, m).after + 1 < m.earliest.value)
  {
    hide Promises, Kept, PageOf, Covered, Readable, Filling, Retained, Found, Faithful, Accurate, AllIndexed, Came,
         Flat, JustInWindow;
    NothingYetIndexed(m, files);
    if !Admissible(q) {
      return Failure(InvalidArgument);
    }
    var asked := Asked(q, latest, m);
    var page := Page([], 0, asked.after, false);
    ghost var honest := Promises(c, m, recs, log) && Kept(c, m.segments, files, recs);
    if honest {
      NotYet(c, asked, m, files, recs, log);
    }
    var i := 0;
    while i < |m.segments| && !page.more
      invariant i <= |m.segments|
      invariant honest ==> Covered(c, asked, m, i, files, recs, log, page)
      invariant AllIndexed(m, files, page.batches)
    {
      var s := m.segments[i];
      if s.last <= asked.after || Outside(asked, s.from, s.to) {
        if honest {
          PassedOver(c, asked, m, i, files, recs, log, page);
        }
        if s.last > asked.after {
          page := page.(cursor := s.last);
        }
      } else if s.first in files {
        ghost var met, rs, es := [], [], [];
        if honest {
          BeforeReading(c, asked, m, i, files, recs, log, page);
          met, rs, es := Retained(m.segments[..i], files, log), Of(s, recs), Found(s, files, log);
        }
        ghost var lines;
        var read;
        read, lines := ReadSegment(c, asked, s, files[s.first], page, met, rs, es);
        if read.Failure? {
          return Failure(read.error);
        }
        StillIndexed(c, m, files, i, lines, page.batches, read.value);
        if honest {
          AfterReading(c, asked, m, i, files, recs, log, page, read.value);
        }
        page := read.value;
      } else if honest {
        Missing(c, asked, m, i, files, recs, log, page);
      }
      i := i + 1;
    }
    if honest {
      Done(c, asked, m, i, files, recs, log, page);
      PageHolds(c, asked, page, Retained(m.segments, files, log));
    }
    return Success(Reply(page.batches, page.cursor, page.more,
                         m.earliest.Some? && m.earliest.value > 1,
                         m.earliest.Some? && asked.after > 0 && asked.after < m.earliest.value - 1));
  }

  // The `latest` argument asks for no other instants.
  lemma AsksTheSame(q: Query, latest: bool, m: Manifest)
    ensures forall at :: InWindow(Asked(q, latest, m), at) == InWindow(q, at)
    ensures Asked(q, latest, m).worker == q.worker
  {
  }

  lemma ViewTells(e: Entry, worker: string)
    ensures View(e, worker).seqNo == e.seqNo && View(e, worker).batch.observedAt == e.batch.observedAt
  {
  }

  // What is given lies above the cursor and neither before `start` nor after
  // `end`, and is all there is of that up to the new cursor.
  ghost predicate JustInWindow(q: Query, given: seq<Entry>, cursor: int, es: seq<Entry>) {
    && (forall v :: v in given ==>
          && v.seqNo > q.after
          && (q.start.Some? ==> q.start.value <= v.batch.observedAt)
          && (q.end.Some? ==> v.batch.observedAt <= q.end.value))
    && (forall e :: e in es && q.after < e.seqNo <= cursor
                    && (q.start.Some? ==> q.start.value <= e.batch.observedAt)
                    && (q.end.Some? ==> e.batch.observedAt <= q.end.value) ==>
          View(e, q.worker) in given)
  }

  // A page holds samples above the cursor and in the window, and all of those
  // that its own cursor has passed.
  lemma PageHolds(c: Codec, q: Query, p: Page, es: seq<Entry>)
    requires PageOf(c, q, p, es)
    ensures JustInWindow(q, p.batches, p.cursor, es)
  {
    hide TotalSize, View, Eligible;
    var wanted, n := Eligible(q, es), |p.batches|;
    EligibleWanted(q, es);
    forall v | v in p.batches
      ensures v.seqNo > q.after && InWindow(q, v.batch.observedAt)
    {
      var k :| 0 <= k < n && p.batches[k] == v;
      ViewTells(wanted[k], q.worker);
      assert wanted[k] in wanted;
    }
    forall e | e in es && q.after < e.seqNo <= p.cursor && InWindow(q, e.batch.observedAt)
      ensures View(e, q.worker) in p.batches
    {
      var k :| 0 <= k < |wanted| && wanted[k] == e;
      assert p.batches[k] == View(e, q.worker);
    }
  }

  ghost predicate AllIndexed(m: Manifest, files: Disk, es: seq<Entry>) {
    forall v :: v in es ==> exists s :: s in m.segments && s.first in files && s.first <= v.seqNo <= s.last
  }

  lemma NothingYetIndexed(m: Manifest, files: Disk)
    ensures AllIndexed(m, files, [])
  {
  }

  lemma StillIndexed(c: Codec, m: Manifest, files: Disk, i: nat, lines: seq<seq<byte>>, before: seq<Entry>, page: Page)
    requires i < |m.segments| && m.segments[i].first in files && AllIndexed(m, files, before)
    requires Came(c, m.segments[i], files[m.segments[i].first], lines, before, page)
    ensures AllIndexed(m, files, page.batches)
  {
    assert m.segments[i] in m.segments;
  }

  // The page a reply carries.
  function PageIn(c: Codec, r: Reply): Page {
    Page(r.batches, TotalSize(c, r.batches), r.nextAfter, r.hasMore)
  }

  lemma Done(c: Codec, q: Query, m: Manifest, i: nat, files: Disk, recs: seq<Record>, log: seq<Batch>, page: Page)
    requires Covered(c, q, m, i, files, recs, log, page) && (page.more || i == |m.segments|) && q.after >= 0
    ensures PageOf(c, q, page, Retained(m.segments, files, log)) && page.size == TotalSize(c, page.batches)
    ensures !page.more && AllFound(m.segments, files) ==> page.cursor == Max(q.after, m.latest)
    ensures page.cursor <= Max(q.after, m.latest) || PastEmpty(q, m, page.cursor)
  {
    hide Kept, Accurate, Retained;
    assert m.segments[..|m.segments|] == m.segments;
    if page.more {
      RestCovered(c, q, m, i, files, recs, log, page);
    } else if m.segments != [] {
      assert m.segments[|m.segments| - 1] in m.segments;
    }
  }

  // ---- what following pages adds up to ----

  // Pages each asked for from where the one before left off, as long as there
  // was more to come.
  ghost predicate Following(c: Codec, q: Query, pages: seq<Page>, es: seq<Entry>)
    decreases |pages|
  {
    && pages != [] && PageOf(c, q, pages[0], es)
    && (if pages[0].more then Following(c, q.(after := pages[0].cursor), pages[1..], es) else |pages| == 1)
  }

  function Together(pages: seq<Page>): seq<Entry> {
    if pages == [] then [] else pages[0].batches + Together(pages[1..])
  }

  ghost predicate Ascending(es: seq<Entry>) {
    forall i, j :: 0 <= i < j < |es| ==> es[i].seqNo < es[j].seqNo
  }

  // Moving the cursor past the first `n` samples wanted leaves the rest wanted.
  lemma {:induction false} WantedAfter(q: Query, es: seq<Entry>, cursor: int, n: nat)
    requires q.after <= cursor && n <= |Eligible(q, es)|
    requires forall i :: 0 <= i < n ==> Eligible(q, es)[i].seqNo <= cursor
    requires forall i :: n <= i < |Eligible(q, es)| ==> cursor < Eligible(q, es)[i].seqNo
    ensures Eligible(q.(after := cursor), es) == Eligible(q, es)[n..]
    decreases |es|
  {
    if es != [] {
      var k := |es| - 1;
      var before := Eligible(q, es[..k]);
      assert forall i :: 0 <= i < |before| ==> Eligible(q, es)[i] == before[i];
      WantedAfter(q, es[..k], cursor, if n <= |before| then n else |before|);
      if Wanted(q, es[k]) {
        assert Eligible(q, es)[|before|] == es[k];
        assert n <= |before| ==> Eligible(q, es)[n..] == before[n..] + [es[k]];
      }
    }
  }

  // Each page with more to come moves on, so there is an end of pages.
  lemma PagesMoveOn(c: Codec, q: Query, p: Page, es: seq<Entry>)
    requires PageOf(c, q, p, es) && p.more
    ensures p.cursor > q.after
    ensures |Eligible(q.(after := p.cursor), es)| < |Eligible(q, es)|
  {
    WantedAfter(q, es, p.cursor, |p.batches|);
    EligibleWanted(q, es);
  }

  lemma {:induction false} EligibleWanted(q: Query, es: seq<Entry>)
    ensures forall e :: e in Eligible(q, es) <==> e in es && Wanted(q, e)
    decreases |es|
  {
    if es != [] {
      EligibleWanted(q, es[..|es| - 1]);
      assert forall e :: e in es <==> e in es[..|es| - 1] || e == es[|es| - 1];
    }
  }

  // What is shown of the samples wanted.
  lemma ViewsHold(q: Query, es: seq<Entry>)
    ensures forall v :: v in Views(Eligible(q, es), q.worker) ==> v.seqNo > q.after && InWindow(q, v.batch.observedAt)
    ensures forall e :: e in es && e.seqNo > q.after && InWindow(q, e.batch.observedAt) ==>
              View(e, q.worker) in Views(Eligible(q, es), q.worker)
  {
    hide View, Eligible;
    var wanted := Eligible(q, es);
    EligibleWanted(q, es);
    forall k | 0 <= k < |wanted|
      ensures var v := Views(wanted, q.worker)[k]; v.seqNo > q.after && InWindow(q, v.batch.observedAt)
    {
      ViewTells(wanted[k], q.worker);
      assert wanted[k] in wanted;
    }
    forall e | e in es && e.seqNo > q.after && InWindow(q, e.batch.observedAt)
      ensures View(e, q.worker) in Views(wanted, q.worker)
    {
      var k :| 0 <= k < |wanted| && wanted[k] == e;
      assert Views(wanted, q.worker)[k] == View(e, q.worker);
    }
  }

  lemma {:induction false} PagesAddUp(c: Codec, q: Query, pages: seq<Page>, es: seq<Entry>)
    requires Following(c, q, pages, es)
    ensures Together(pages) == Views(Eligible(q, es), q.worker)
    ensures |pages| <= |Eligible(q, es)| + 1
    decreases |pages|
  {
    hide View, InWindow;
    var p, wanted, n := pages[0], Eligible(q, es), |pages[0].batches|;
    if p.more {
      var next := q.(after := p.cursor);
      PagesMoveOn(c, q, p, es);
      WantedAfter(q, es, p.cursor, n);
      PagesAddUp(c, next, pages[1..], es);
      assert Views(wanted, q.worker) == Views(wanted[..n], q.worker) + Views(wanted[n..], q.worker);
    } else {
      assert pages[1..] == [];
      assert wanted[..n] == wanted;
    }
  }

  // Pagination is exact: every sample wanted, once, in order, and nothing else.
  lemma PaginationExact(c: Codec, q: Query, pages: seq<Page>, es: seq<Entry>)
    requires Following(c, q, pages, es)
    ensures Together(pages) == Views(Eligible(q, es), q.worker)
    ensures forall v :: v in Together(pages) ==> v.seqNo > q.after && InWindow(q, v.batch.observedAt)
    ensures forall e :: e in es && e.seqNo > q.after && InWindow(q, e.batch.observedAt) ==>
              View(e, q.worker) in Together(pages)
    ensures |pages| <= |Eligible(q, es)| + 1
  {
    hide Following, Together, Views, Eligible, View, InWindow;
    PagesAddUp(c, q, pages, es);
    ViewsHold(q, es);
  }

}
