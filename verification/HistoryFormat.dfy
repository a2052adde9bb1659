// What a segment of the live resource history holds: one line of JSON a sample,
// and what a reader makes of those lines.
module HistoryFormat {
  import opened Basics
  import opened Parts

  const MAX_LINE: nat := 2 * 1024 * 1024
  const MAX_REPLY: nat := 2 * 1024 * 1024

  datatype Json =
    | JNull
    | JBool(flag: bool)
    | JNumber(literal: string)
    | JString(text: string)
    | JArray(items: seq<Json>)
    | JObject(members: seq<(string, Json)>)

  // One process or event of a sample; `worker` is what a worker filter compares.
  datatype Row = Row(worker: Option<string>, body: Json)

  // A sample. Only the order of the instants matters here, so they are integers.
  // `files` is None where the sample has no such key, Some(JNull) where it is null.
  datatype Batch = Batch(observedAt: int, files: Option<Json>, processes: seq<Row>, events: seq<Row>, rest: Json)

  // A sample under its sequence number: what was appended, and what a reply holds.
  datatype Entry = Entry(seqNo: nat, batch: Batch)

  // A line on disk. With a reference, `files` has been left out of the batch
  // and is to be taken from the record the reference names.
  datatype Record = Record(seqNo: nat, batch: Batch, reference: Option<nat>)

  function FullRecord(seqNo: nat, batch: Batch): Record {
    Record(seqNo, batch, None)
  }

  function CompactRecord(seqNo: nat, batch: Batch, reference: nat): Record {
    Record(seqNo, batch.(files := None), Some(reference))
  }

  function OfWorker(rows: seq<Row>, worker: string): seq<Row> {
    if rows == [] then []
    else (if rows[0].worker == Some(worker) then [rows[0]] else []) + OfWorker(rows[1..], worker)
  }

  // All the rows of one worker and no others.
  ghost predicate JustOf(worker: string, part: seq<Row>, whole: seq<Row>) {
    JustThose(part, whole, IsOf(worker))
  }

  function IsOf(worker: string): Row -> bool {
    (r: Row) => r.worker == Some(worker)
  }

  lemma {:induction false} OwnRows(rows: seq<Row>, worker: string)
    ensures JustOf(worker, OfWorker(rows, worker), rows)
  {
    if rows != [] {
      OwnRows(rows[1..], worker);
      var rest := OfWorker(rows[1..], worker);
      assert rows == [rows[0]] + rows[1..];
      if rows[0].worker == Some(worker) {
        assert OfWorker(rows, worker) == [rows[0]] + rest && ([rows[0]] + rest)[1..] == rest;
      } else {
        assert OfWorker(rows, worker) == rest;
        assert rest != [] ==> multiset(rest)[rest[0]] > 0;
      }
    }
  }

  // A worker's view of a sample has just that worker's rows, and is the sample
  // in all else; with no worker named it is the sample.
  lemma ViewKeeps(e: Entry, worker: string)
    ensures var v := View(e, worker);
            && v == e.(batch := e.batch.(processes := v.batch.processes, events := v.batch.events))
            && if worker == "" then v == e
               else
                 && JustOf(worker, v.batch.processes, e.batch.processes)
                 && JustOf(worker, v.batch.events, e.batch.events)
  {
    OwnRows(e.batch.processes, worker);
    OwnRows(e.batch.events, worker);
  }

  // An empty name asks for every worker.
  function View(e: Entry, worker: string): Entry {
    if worker == "" then e
    else e.(batch := e.batch.(processes := OfWorker(e.batch.processes, worker),
                              events := OfWorker(e.batch.events, worker)))
  }

  // How many decimal digits a number is written with.
  function Digits(n: nat): nat {
    if n < 10 then 1 else 1 + Digits(n / 10)
  }

  function Power(n: nat): nat {
    if n == 0 then 1 else 10 * Power(n - 1)
  }

  lemma {:induction false} DigitsAre(n: nat)
    ensures Digits(n) >= 1 && n < Power(Digits(n)) && (n > 0 ==> Power(Digits(n) - 1) <= n)
    ensures n < 10 ==> Digits(n) == 1
  {
    if n >= 10 {
      DigitsAre(n / 10);
    }
  }

  lemma {:induction false} DigitsMonotone(a: nat, b: nat)
    requires a <= b
    ensures Digits(a) <= Digits(b)
    decreases b
  {
    if b >= 10 && a >= 10 {
      DigitsMonotone(a / 10, b / 10);
    }
  }

  ghost predicate IsLine(s: seq<byte>) {
    |s| > 0 && s[|s| - 1] == NEWLINE && forall i :: 0 <= i < |s| - 1 ==> s[i] != NEWLINE
  }

  // The JSON encoding, as the code relies on it.
  datatype Codec = Codec(encode: Record -> seq<byte>,
                         decode: seq<byte> -> Option<Record>,
                         size: Entry -> nat,
                         textLength: Json -> nat)

  // Encodings are single lines that decode to what they encode; a whole record
  // is its wire form and a newline; a reference takes the place of the text
  // `,"files":...` and is written `,"_files_sequence":...`; and a filtered
  // sample is written no longer than the sample.
  ghost predicate Faithful(c: Codec) {
    && (forall r: Record :: IsLine(c.encode(r)) && c.decode(c.encode(r)) == Some(r))
    && (forall seqNo: nat, b: Batch :: |c.encode(FullRecord(seqNo, b))| == c.size(Entry(seqNo, b)) + 1)
    && (forall seqNo: nat, b: Batch, reference: nat | b.files.Some? ::
          |c.encode(CompactRecord(seqNo, b, reference))| + 9 + c.textLength(b.files.value)
          == |c.encode(FullRecord(seqNo, b))| + 19 + Digits(reference))
    && (forall e: Entry, worker: string :: c.size(View(e, worker)) <= c.size(e))
  }

  // Whether the text of `files` is long enough for a reference to be no longer.
  // An inventory has at least the lists `roots` and `volumes`: twenty-five
  // characters, enough for a number of fifteen digits.
  predicate ReferenceFits(c: Codec, files: Option<Json>, seqNo: nat) {
    files.Some? && files != Some(JNull) ==> c.textLength(files.value) >= 10 + Digits(seqNo)
  }

  // A compact line is no longer than the full one exactly when the text of
  // `files` reaches the length of the reference that replaces it.
  lemma CompactNoLongerIff(c: Codec, seqNo: nat, b: Batch, reference: nat)
    requires Faithful(c) && b.files.Some?
    ensures |c.encode(CompactRecord(seqNo, b, reference))| <= |c.encode(FullRecord(seqNo, b))|
            <==> c.textLength(b.files.value) >= 10 + Digits(reference)
    ensures b.files != Some(JNull) ==>
              (ReferenceFits(c, b.files, reference)
               <==> |c.encode(CompactRecord(seqNo, b, reference))| <= |c.encode(FullRecord(seqNo, b))|)
  {
  }

  // ---- the bytes of a run of records ----

  function Lines(c: Codec, rs: seq<Record>): seq<byte> {
    if rs == [] then [] else c.encode(rs[0]) + Lines(c, rs[1..])
  }

  lemma {:induction false} LinesConcat(c: Codec, xs: seq<Record>, ys: seq<Record>)
    ensures Lines(c, xs + ys) == Lines(c, xs) + Lines(c, ys)
  {
    if xs == [] {
      assert xs + ys == ys;
    } else {
      assert (xs + ys)[1..] == xs[1..] + ys;
      LinesConcat(c, xs[1..], ys);
    }
  }

  lemma LinesSnoc(c: Codec, xs: seq<Record>, x: Record)
    ensures Lines(c, xs + [x]) == Lines(c, xs) + c.encode(x)
  {
    LinesConcat(c, xs, [x]);
    assert Lines(c, [x]) == c.encode(x) + Lines(c, []);
  }

  // ---- what the records mean ----

  // The snapshot a reader holds after reading `rs`: the last one written in full.
  function Held(rs: seq<Record>): Option<(nat, Json)> {
    if rs == [] then None
    else
      var r := rs[|rs| - 1];
      if r.reference.None? && r.batch.files.Some? then Some((r.seqNo, r.batch.files.value))
      else Held(rs[..|rs| - 1])
  }

  // Samples `a` to `b` of the log, under their sequence numbers.
  function Entries(log: seq<Batch>, a: nat, b: nat): (es: seq<Entry>)
    requires 1 <= a <= b + 1 && b <= |log|
    ensures |es| == b + 1 - a
  {
    seq(b + 1 - a, i requires 0 <= i < b + 1 - a => Entry(a + i, log[a - 1 + i]))
  }

  // What a record says, given the snapshot held so far.
  function Expand(r: Record, held: Option<(nat, Json)>): Option<Entry> {
    match r.reference
    case None => Some(Entry(r.seqNo, r.batch))
    case Some(k) =>
      if held.Some? && held.value.0 == k then Some(Entry(r.seqNo, r.batch.(files := Some(held.value.1)))) else None
  }

  // Reading `rs` gives back `es`, every reference resolved among `rs` itself.
  ghost predicate Means(rs: seq<Record>, es: seq<Entry>)
    decreases |rs|
  {
    && |rs| == |es|
    && (rs != [] ==>
          var n := |rs| - 1;
          Means(rs[..n], es[..n]) && Expand(rs[n], Held(rs[..n])) == Some(es[n]))
  }

  lemma MeansSnoc(rs: seq<Record>, es: seq<Entry>, r: Record, e: Entry)
    requires Means(rs, es) && Expand(r, Held(rs)) == Some(e)
    ensures Means(rs + [r], es + [e])
  {
    assert (rs + [r])[..|rs|] == rs && (es + [e])[..|es|] == es;
  }

  lemma {:induction false} MeansAt(rs: seq<Record>, es: seq<Entry>, i: nat)
    requires Means(rs, es) && i < |rs|
    ensures Expand(rs[i], Held(rs[..i])) == Some(es[i])
    decreases |rs|
  {
    var n := |rs| - 1;
    if i < n {
      MeansAt(rs[..n], es[..n], i);
      assert rs[..n][..i] == rs[..i];
    }
  }
}
