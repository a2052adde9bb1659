// The tee over file descriptor 2: a capture file that other threads and
// processes go on writing, and a saved stderr that what they write is passed
// on to. Descriptors are named by the files they refer to.
module StderrTee {
  import opened Basics

  const COPY_BYTES: nat := 64 * 1024
  const RELEASE_FACTOR: nat := 2
  const HOLE_ALIGNMENT: nat := 4096

  // The files as the kernel has them. A capture file only grows; punching a
  // hole frees the blocks under its first bytes and keeps its length.
  // `budget` bounds what others have yet to write in this run.
  datatype World = World(content: map<nat, seq<byte>>, freed: map<nat, nat>, stderr: nat,
                         path: nat, previous: seq<byte>, budget: nat)

  function Freed(w: World, f: nat): nat {
    if f in w.freed then w.freed[f] else 0
  }

  // A byte given to the saved stderr, and the capture file it came from. The
  // newline that completes a last line comes from none.
  datatype Out = Out(src: Option<nat>, value: byte)

  function Tag(src: Option<nat>, bytes: seq<byte>): seq<Out> {
    seq(|bytes|, i requires 0 <= i < |bytes| => Out(src, bytes[i]))
  }

  // What the saved stderr has been given of file `f`, in the order it was given.
  function From(sink: seq<Out>, f: nat): seq<byte> {
    if sink == [] then []
    else
      var o := sink[|sink| - 1];
      From(sink[..|sink| - 1], f) + (if o.src == Some(f) then [o.value] else [])
  }

  lemma {:induction false} FromTagged(sink: seq<Out>, src: Option<nat>, bytes: seq<byte>, f: nat)
    ensures From(sink + Tag(src, bytes), f) == From(sink, f) + (if src == Some(f) then bytes else [])
    decreases |bytes|
  {
    if bytes == [] {
      assert sink + Tag(src, bytes) == sink;
    } else {
      var n := |bytes| - 1;
      var all := sink + Tag(src, bytes);
      assert all[..|all| - 1] == sink + Tag(src, bytes[..n]);
      assert bytes == bytes[..n] + [bytes[n]];
      FromTagged(sink, src, bytes[..n], f);
    }
  }

  // All that fd 2's takeover has passed on: what the saved stderr was given,
  // where each capture file was taken up, and how far it was passed on.
  datatype Ledger = Ledger(sink: seq<Out>, start: map<nat, nat>, done: map<nat, nat>)

  function PassedOn(l: Ledger, f: nat, bytes: seq<byte>): (r: Ledger)
    requires f in l.done
    ensures f in r.done && r.done[f] == l.done[f] + |bytes|
  {
    l.(sink := l.sink + Tag(Some(f), bytes), done := l.done[f := l.done[f] + |bytes|])
  }

  lemma PassedOnAgain(l: Ledger, f: nat, a: seq<byte>, b: seq<byte>)
    requires f in l.done
    ensures PassedOn(PassedOn(l, f, a), f, b) == PassedOn(l, f, a + b)
    ensures PassedOn(l, f, []) == l
  {
    assert Tag(Some(f), a) + Tag(Some(f), b) == Tag(Some(f), a + b);
    assert l.sink + Tag(Some(f), a) + Tag(Some(f), b) == l.sink + (Tag(Some(f), a) + Tag(Some(f), b));
    assert l.sink + Tag(Some(f), []) == l.sink;
  }

  // `bytes` are the next ones of file `f` to pass on.
  ghost predicate Next(w: World, l: Ledger, f: nat, bytes: seq<byte>) {
    && f in l.done && f in w.content
    && l.done[f] + |bytes| <= |w.content[f]|
    && bytes == w.content[f][l.done[f]..l.done[f] + |bytes|]
  }

  lemma NextMeans(w: World, l: Ledger, f: nat, bytes: seq<byte>)
    requires Next(w, l, f, bytes)
    ensures f in l.done && f in w.content
  {
  }

  lemma NextSplit(w: World, l: Ledger, f: nat, bytes: seq<byte>, n: nat)
    requires Next(w, l, f, bytes) && n <= |bytes|
    ensures Next(w, l, f, bytes[..n]) && Next(w, PassedOn(l, f, bytes[..n]), f, bytes[n..])
  {
  }

  lemma NextJoin(w: World, l: Ledger, f: nat, a: seq<byte>, b: seq<byte>)
    requires Next(w, l, f, a) && Next(w, PassedOn(l, f, a), f, b)
    ensures Next(w, l, f, a + b)
  {
    var s, d := w.content[f], l.done[f];
    assert s[d..d + |a + b|] == s[d..d + |a|] + s[d + |a|..d + |a| + |b|];
  }

  // ---- lines ----

  predicate HasNewline(s: seq<byte>, i: nat, n: nat) {
    exists j :: i <= j < i + n && j < |s| && s[j] == NEWLINE
  }

  // Every line, its newline included, fits one read.
  predicate ShortLines(s: seq<byte>) {
    forall i :: 0 <= i <= |s| - COPY_BYTES ==> HasNewline(s, i, COPY_BYTES)
  }

  // Just after the last newline of `chunk`, or 0.
  function LineCut(chunk: seq<byte>): (end: nat)
    ensures end <= |chunk|
    ensures end > 0 ==> chunk[end - 1] == NEWLINE
    ensures forall i :: end <= i < |chunk| ==> chunk[i] != NEWLINE
  {
    if chunk == [] then 0
    else if chunk[|chunk| - 1] == NEWLINE then |chunk|
    else LineCut(chunk[..|chunk| - 1])
  }

  predicate EndsALine(bytes: seq<byte>) {
    bytes == [] || bytes[|bytes| - 1] == NEWLINE
  }

  // Whether file `f` has been passed on to where it began, or just after a newline.
  ghost predicate AtLine(w: World, l: Ledger, f: nat) {
    && f in l.done && f in l.start && f in w.content && l.start[f] <= l.done[f] <= |w.content[f]|
    && (l.done[f] == l.start[f] || w.content[f][l.done[f] - 1] == NEWLINE)
  }

  // The sink turns from one file to another only at a line's end; the only
  // thing ever put behind an unfinished line is the newline that ends it.
  ghost predicate Unbroken(sink: seq<Out>) {
    forall i, j :: 0 <= i < j < |sink| && j == i + 1 ==>
      sink[i].src == sink[j].src || sink[i].value == NEWLINE || sink[j] == Out(None, NEWLINE)
  }

  // What is no file's is a newline, right behind an unfinished line of a file.
  ghost predicate Completing(sink: seq<Out>) {
    forall j :: 0 <= j < |sink| ==> OfAFile(sink, j) || Completes(sink, j)
  }

  ghost predicate OfAFile(sink: seq<Out>, j: nat)
    requires j < |sink|
  {
    sink[j].src.Some?
  }

  ghost predicate Completes(sink: seq<Out>, j: nat)
    requires j < |sink|
  {
    j > 0 && sink[j].value == NEWLINE && sink[j - 1].src.Some? && sink[j - 1].value != NEWLINE
  }

  lemma CompletingMore(sink: seq<Out>, more: seq<Out>)
    requires Completing(sink)
    requires forall j :: |sink| <= j < |sink + more| ==> OfAFile(sink + more, j) || Completes(sink + more, j)
    ensures Completing(sink + more)
  {
    forall j | 0 <= j < |sink|
      ensures OfAFile(sink + more, j) || Completes(sink + more, j)
    {
      assert OfAFile(sink, j) || Completes(sink, j);
    }
  }

  lemma CompletingTagged(sink: seq<Out>, f: nat, bytes: seq<byte>)
    requires Completing(sink)
    ensures Completing(sink + Tag(Some(f), bytes))
  {
    hide Completing;
    CompletingMore(sink, Tag(Some(f), bytes));
  }

  lemma CompletingEnded(sink: seq<Out>)
    requires Completing(sink) && sink != []
    requires sink[|sink| - 1].src.Some? && sink[|sink| - 1].value != NEWLINE
    ensures Completing(sink + [Out(None, NEWLINE)])
  {
    hide Completing;
    CompletingMore(sink, [Out(None, NEWLINE)]);
  }

  ghost predicate Resting(sink: seq<Out>) {
    sink == [] || sink[|sink| - 1].value == NEWLINE
  }

  // Bytes of file `f` may follow.
  ghost predicate Ready(sink: seq<Out>, f: nat) {
    Resting(sink) || sink[|sink| - 1].src == Some(f)
  }

  lemma UnbrokenTagged(sink: seq<Out>, f: nat, bytes: seq<byte>)
    requires Unbroken(sink) && Ready(sink, f)
    ensures Unbroken(sink + Tag(Some(f), bytes)) && Ready(sink + Tag(Some(f), bytes), f)
  {
    if bytes == [] {
      assert sink + Tag(Some(f), bytes) == sink;
    }
  }

  lemma RestingTagged(sink: seq<Out>, f: nat, bytes: seq<byte>)
    requires Resting(sink) && EndsALine(bytes)
    ensures Resting(sink + Tag(Some(f), bytes))
  {
    if bytes == [] {
      assert sink + Tag(Some(f), bytes) == sink;
    }
  }

  // What this means to whoever reads the saved stderr: from any byte of a
  // file up to the end of its line, every byte is that file's.
  lemma {:induction false} LineFromOneFile(sink: seq<Out>, i: nat, j: nat)
    requires Unbroken(sink) && i <= j < |sink|
    requires forall k :: i <= k < j ==> sink[k].value != NEWLINE
    ensures sink[j].src == sink[i].src || sink[j] == Out(None, NEWLINE)
    decreases j - i
  {
    if i < j {
      LineFromOneFile(sink, i, j - 1);
    }
  }

  // ---- what others may do between any two calls ----

  // Others have written, as much as they liked, to any file they hold; in an
  // orderly run, in lines that each fit one read.
  ghost predicate Onward(orderly: bool, w: World, x: World) {
    && x == w.(content := x.content, budget := x.budget)
    && x.content.Keys == w.content.Keys
    && x.budget <= w.budget
    && (forall f :: f in w.content ==>
          w.content[f] <= x.content[f] && |x.content[f]| - |w.content[f]| <= w.budget - x.budget)
    && (orderly && Tidy(w) ==> Tidy(x))
  }

  ghost predicate Tidy(w: World) {
    forall f :: f in w.content ==> ShortLines(w.content[f])
  }

  lemma OnwardMeans(orderly: bool, w: World, x: World, f: nat)
    requires Onward(orderly, w, x) && f in w.content
    ensures f in x.content && w.content[f] <= x.content[f] && Freed(x, f) == Freed(w, f)
    ensures x.stderr == w.stderr && x.path == w.path && x.previous == w.previous
  {
    hide Tidy;
  }

  lemma OnwardTransitive(orderly: bool, w: World, x: World, y: World)
    requires Onward(orderly, w, x) && Onward(orderly, x, y)
    ensures Onward(orderly, w, y)
  {
    hide Tidy;
  }

  // ---- conservation ----

  // What the saved stderr was given of each capture file is that file from
  // `start` to `done`: every byte, once, in order.
  ghost predicate Conserved(w: World, l: Ledger) {
    && l.start.Keys == l.done.Keys
    && (forall f :: f in l.done ==> Passed(w, From(l.sink, f), f, l.start[f], l.done[f]))
    && (forall f: nat :: f !in l.done ==> From(l.sink, f) == [])
  }

  ghost predicate Passed(w: World, given: seq<byte>, f: nat, start: nat, done: nat) {
    f in w.content && start <= done <= |w.content[f]| && given == w.content[f][start..done]
  }

  // Nothing is freed that is among the last `limit` bytes passed on.
  ghost predicate RingKept(limit: nat, w: World, l: Ledger) {
    forall f :: f in l.done ==> Freed(w, f) == 0 || Freed(w, f) + limit <= l.done[f]
  }

  // What holds at every moment fd 2 is taken, whoever writes when.
  ghost predicate Flowing(orderly: bool, limit: nat, w: World, l: Ledger) {
    && Conserved(w, l) && RingKept(limit, w, l) && Completing(l.sink)
    && (orderly ==> Tidy(w) && Unbroken(l.sink))
  }

  lemma FlowingMeans(orderly: bool, limit: nat, w: World, l: Ledger)
    requires Flowing(orderly, limit, w, l)
    ensures Conserved(w, l) && RingKept(limit, w, l) && Completing(l.sink) && (orderly ==> Unbroken(l.sink))
  {
    hide Conserved, RingKept, Completing, Unbroken;
  }

  lemma ConservedOnward(orderly: bool, w: World, x: World, l: Ledger)
    requires Conserved(w, l) && Onward(orderly, w, x)
    ensures Conserved(x, l)
  {
    hide From, Tidy;
    forall f | f in l.done
      ensures x.content[f][l.start[f]..l.done[f]] == w.content[f][l.start[f]..l.done[f]]
    {
      assert w.content[f] == x.content[f][..|w.content[f]|];
    }
  }

  lemma FlowingOnward(orderly: bool, limit: nat, w: World, x: World, l: Ledger)
    requires Flowing(orderly, limit, w, l) && Onward(orderly, w, x)
    ensures Flowing(orderly, limit, x, l)
  {
    hide Conserved, Tidy, Unbroken, Completing;
    ConservedOnward(orderly, w, x, l);
  }

  lemma NextOnward(orderly: bool, w: World, x: World, l: Ledger, f: nat, bytes: seq<byte>)
    requires Next(w, l, f, bytes) && Onward(orderly, w, x)
    ensures Next(x, l, f, bytes)
  {
    hide Tidy;
    assert w.content[f] == x.content[f][..|w.content[f]|];
  }

  lemma AtLineOnward(orderly: bool, w: World, x: World, l: Ledger, f: nat)
    requires AtLine(w, l, f) && Onward(orderly, w, x)
    ensures AtLine(x, l, f)
  {
    hide Tidy;
  }

  // Passing on the next bytes of a file keeps every byte accounted for.
  lemma PassingConserves(w: World, l: Ledger, f: nat, bytes: seq<byte>)
    requires Conserved(w, l) && Next(w, l, f, bytes)
    ensures Conserved(w, PassedOn(l, f, bytes))
  {
    hide From, Tag, Passed;
    var m := PassedOn(l, f, bytes);
    forall g: nat
      ensures g in m.done ==> Passed(w, From(m.sink, g), g, m.start[g], m.done[g])
      ensures g !in m.done ==> From(m.sink, g) == []
    {
      FromTagged(l.sink, Some(f), bytes, g);
      if g == f {
        PassedMore(w, From(l.sink, f), f, l.start[f], l.done[f], bytes);
      } else {
        assert From(l.sink, g) + [] == From(l.sink, g);
      }
    }
  }

  lemma PassedMore(w: World, given: seq<byte>, f: nat, start: nat, done: nat, bytes: seq<byte>)
    requires Passed(w, given, f, start, done)
    requires done + |bytes| <= |w.content[f]| && bytes == w.content[f][done..done + |bytes|]
    ensures Passed(w, given + bytes, f, start, done + |bytes|)
  {
  }

  lemma FlowingPasses(orderly: bool, limit: nat, w: World, l: Ledger, f: nat, bytes: seq<byte>)
    requires Flowing(orderly, limit, w, l) && Next(w, l, f, bytes)
    requires orderly ==> Ready(l.sink, f)
    ensures Flowing(orderly, limit, w, PassedOn(l, f, bytes))
    ensures orderly ==> Ready(PassedOn(l, f, bytes).sink, f)
  {
    hide Conserved, Tidy, Unbroken, Ready, Completing;
    PassingConserves(w, l, f, bytes);
    CompletingTagged(l.sink, f, bytes);
    if orderly {
      UnbrokenTagged(l.sink, f, bytes);
    }
  }

  // In an orderly run a copy of whole lines leaves its file at a line's end.
  lemma AtLinePasses(w: World, l: Ledger, f: nat, bytes: seq<byte>)
    requires AtLine(w, l, f) && Next(w, l, f, bytes) && EndsALine(bytes)
    ensures AtLine(w, PassedOn(l, f, bytes), f)
  {
    if bytes != [] {
      assert bytes[|bytes| - 1] == w.content[f][l.done[f] + |bytes| - 1];
    }
  }

  // Nothing that had reached a file is left to copy: no newline of it, or no byte.
  ghost predicate CaughtUp(w: World, f: nat, offset: nat, wholeLines: bool, upto: Option<nat>) {
    f in w.content &&
    if wholeLines then
      forall i :: offset <= i < |w.content[f]| && (upto.Some? ==> i < upto.value) ==> w.content[f][i] != NEWLINE
    else
      |w.content[f]| <= offset || (upto.Some? && upto.value <= offset)
  }

  lemma CaughtUpBefore(orderly: bool, w: World, x: World, f: nat, offset: nat, wholeLines: bool, upto: Option<nat>)
    requires Onward(orderly, w, x) && CaughtUp(x, f, offset, wholeLines, upto)
    ensures CaughtUp(w, f, offset, wholeLines, upto)
  {
    hide Tidy;
  }

  // A read that finds no newline in COPY_BYTES has found a line too long for one.
  lemma LongLineIsNotTidy(w: World, f: nat, offset: nat, chunk: seq<byte>)
    requires f in w.content && offset + COPY_BYTES <= |w.content[f]|
    requires chunk == w.content[f][offset..offset + COPY_BYTES]
    requires forall i :: 0 <= i < |chunk| ==> chunk[i] != NEWLINE
    ensures !Tidy(w)
  {
    var s := w.content[f];
    forall j | offset <= j < offset + COPY_BYTES
      ensures s[j] != NEWLINE
    {
      assert s[j] == chunk[j - offset];
    }
    assert !HasNewline(s, offset, COPY_BYTES);
  }

  lemma Readable(orderly: bool, limit: nat, w: World, l: Ledger, f: nat)
    requires Flowing(orderly, limit, w, l) && f in l.done
    ensures f in w.content && Freed(w, f) <= l.done[f] <= |w.content[f]|
    ensures orderly ==> Tidy(w)
  {
    hide From, Tidy;
  }

  lemma NothingNext(orderly: bool, limit: nat, w: World, l: Ledger, f: nat)
    requires Flowing(orderly, limit, w, l) && f in l.done
    ensures Next(w, l, f, [])
  {
    hide From, Tidy;
  }

  lemma OnwardReflexive(orderly: bool, w: World)
    ensures Onward(orderly, w, w)
  {
  }

  lemma OnwardIsTidy(orderly: bool, w: World, x: World)
    requires Onward(orderly, w, x) && (orderly ==> Tidy(w))
    ensures orderly ==> Tidy(x.(stderr := x.path)) && Tidy(x)
    ensures forall f :: f in w.content ==> f in x.content && w.content[f] <= x.content[f]
  {
    hide ShortLines;
  }

  lemma EmptyIsTidy(w: World, f: nat)
    ensures Tidy(w) ==> Tidy(Opened(w, f).(path := f))
  {
  }

  // The ring is readable: none of it has been freed.
  lemma RingIsWhole(orderly: bool, limit: nat, w: World, l: Ledger, f: nat)
    requires Flowing(orderly, limit, w, l) && f in l.done
    ensures Freed(w, f) <= Max(0, l.done[f] - limit)
  {
    hide From, Tidy;
  }

  lemma OnwardStderr(orderly: bool, w: World, x: World, fd: nat)
    requires Onward(orderly, w, x)
    ensures Onward(orderly, w.(stderr := fd), x.(stderr := fd))
  {
    hide ShortLines;
  }

  // How many bytes a copy may still pass on, whatever others do.
  ghost function Ahead(w: World, f: nat, offset: nat): int {
    if f in w.content then w.budget + |w.content[f]| - offset else 0
  }

  lemma CopyMovesOn(orderly: bool, before: World, read: World, after: World, l: Ledger, f: nat, chunk: seq<byte>)
    requires Onward(orderly, before, read) && Onward(orderly, read, after)
    requires f in before.content && Next(read, l, f, chunk)
    ensures 0 <= Ahead(after, f, l.done[f] + |chunk|) <= Ahead(before, f, l.done[f]) - |chunk|
  {
    hide Tidy;
  }

  lemma LastByte(w: World, l: Ledger, f: nat, bytes: seq<byte>, last: seq<byte>)
    requires Next(w, l, f, bytes) && bytes != []
    requires |last| == Max(0, Min(1, |w.content[f]| - (l.done[f] + |bytes| - 1)))
    requires last != [] ==> last == w.content[f][l.done[f] + |bytes| - 1..l.done[f] + |bytes| - 1 + |last|]
    ensures last == [NEWLINE] <==> EndsALine(bytes)
  {
    var at := l.done[f] + |bytes| - 1;
    assert w.content[f][at..at + 1] == [w.content[f][at]];
    assert bytes[|bytes| - 1] == w.content[f][at];
  }

  lemma EndsLater(a: seq<byte>, b: seq<byte>)
    requires b != [] && EndsALine(b)
    ensures EndsALine(a + b)
  {
  }

  // ---- a capture file between two calls ----

  // What holds between two calls while fd 2 is taken: the offsets the tee
  // remembers are the ledger's, and in an orderly run no line is half passed on.
  ghost predicate Standing(orderly: bool, limit: nat, w: World, l: Ledger, file: nat, phaseOffset: nat,
                           retired: Option<(nat, nat)>) {
    && Flowing(orderly, limit, w, l)
    && file in l.done && l.done[file] == phaseOffset
    && (orderly ==> Resting(l.sink) && AtLine(w, l, file))
    && (retired.Some? ==>
          && retired.value.0 != file
          && retired.value.0 in l.done && l.done[retired.value.0] == retired.value.1
          && (orderly ==> AtLine(w, l, retired.value.0)))
  }

  lemma StandingOnward(orderly: bool, limit: nat, w: World, x: World, l: Ledger, file: nat, phaseOffset: nat,
                       retired: Option<(nat, nat)>)
    requires Standing(orderly, limit, w, l, file, phaseOffset, retired) && Onward(orderly, w, x)
    ensures Standing(orderly, limit, x, l, file, phaseOffset, retired)
  {
    hide Flowing, AtLine, Onward, Resting;
    FlowingOnward(orderly, limit, w, x, l);
    if orderly {
      AtLineOnward(orderly, w, x, l, file);
      if retired.Some? {
        AtLineOnward(orderly, w, x, l, retired.value.0);
      }
    }
  }

  lemma FileCopied(orderly: bool, limit: nat, w: World, l: Ledger, file: nat, phaseOffset: nat,
                   retired: Option<(nat, nat)>, bytes: seq<byte>)
    requires Standing(orderly, limit, w, l, file, phaseOffset, retired)
    requires Next(w, l, file, bytes) && (orderly ==> EndsALine(bytes))
    ensures Standing(orderly, limit, w, PassedOn(l, file, bytes), file, phaseOffset + |bytes|, retired)
  {
    hide Flowing, Next, AtLine, Unbroken, Resting, EndsALine;
    Copied(orderly, limit, w, l, file, bytes);
    if orderly && retired.Some? {
      AtLineElsewhere(w, l, file, bytes, retired.value.0);
    }
  }

  lemma RetiredCopied(orderly: bool, limit: nat, w: World, l: Ledger, file: nat, phaseOffset: nat,
                      retired: (nat, nat), bytes: seq<byte>)
    requires Standing(orderly, limit, w, l, file, phaseOffset, Some(retired))
    requires Next(w, l, retired.0, bytes) && (orderly ==> EndsALine(bytes))
    ensures Standing(orderly, limit, w, PassedOn(l, retired.0, bytes), file, phaseOffset,
            Some((retired.0, retired.1 + |bytes|)))
  {
    hide Flowing, Next, AtLine, Unbroken, Resting, EndsALine;
    Copied(orderly, limit, w, l, retired.0, bytes);
    if orderly {
      AtLineElsewhere(w, l, retired.0, bytes, file);
    }
  }

  lemma Copied(orderly: bool, limit: nat, w: World, l: Ledger, f: nat, bytes: seq<byte>)
    requires Flowing(orderly, limit, w, l) && Next(w, l, f, bytes)
    requires orderly ==> EndsALine(bytes) && Resting(l.sink) && AtLine(w, l, f)
    ensures Flowing(orderly, limit, w, PassedOn(l, f, bytes))
    ensures orderly ==> Resting(PassedOn(l, f, bytes).sink) && AtLine(w, PassedOn(l, f, bytes), f)
  {
    hide Flowing, Unbroken, Next, AtLine, EndsALine, Resting;
    assert orderly ==> Ready(l.sink, f);
    FlowingPasses(orderly, limit, w, l, f, bytes);
    if orderly {
      RestingTagged(l.sink, f, bytes);
      AtLinePasses(w, l, f, bytes);
    }
  }

  lemma AtLineElsewhere(w: World, l: Ledger, f: nat, bytes: seq<byte>, g: nat)
    requires f in l.done && f != g && AtLine(w, l, g)
    ensures AtLine(w, PassedOn(l, f, bytes), g)
  {
  }

  // The last of the retired file, ended with a newline where its own end is
  // not one.
  function Closed(l: Ledger, r: nat, bytes: seq<byte>): (m: Ledger)
    requires r in l.done
    ensures m.start == l.start && m.done == l.done[r := l.done[r] + |bytes|]
  {
    var m := PassedOn(l, r, bytes);
    if EndsALine(bytes) then m else m.(sink := m.sink + [Out(None, NEWLINE)])
  }

  lemma RetiredClosed(orderly: bool, limit: nat, w: World, l: Ledger, file: nat, phaseOffset: nat,
                      retired: (nat, nat), bytes: seq<byte>)
    requires Standing(orderly, limit, w, l, file, phaseOffset, Some(retired))
    requires Next(w, l, retired.0, bytes)
    ensures Standing(orderly, limit, w, Closed(l, retired.0, bytes), file, phaseOffset, None)
  {
    hide Flowing, Next, AtLine, EndsALine, Resting;
    var m := PassedOn(l, retired.0, bytes);
    assert orderly ==> Ready(l.sink, retired.0);
    FlowingPasses(orderly, limit, w, l, retired.0, bytes);
    if orderly {
      AtLineElsewhere(w, l, retired.0, bytes, file);
    }
    if !EndsALine(bytes) {
      CompletedLast(orderly, limit, w, l, retired.0, bytes);
      Completed(orderly, limit, w, m, file);
    } else if orderly {
      RestingTagged(l.sink, retired.0, bytes);
    }
  }

  // The newline behind an unfinished last line is no file's byte.
  lemma Completed(orderly: bool, limit: nat, w: World, l: Ledger, f: nat)
    requires Flowing(orderly, limit, w, l) && Completing(l.sink + [Out(None, NEWLINE)])
    ensures var m := l.(sink := l.sink + [Out(None, NEWLINE)]);
            Flowing(orderly, limit, w, m) && Resting(m.sink) && (AtLine(w, l, f) ==> AtLine(w, m, f))
  {
    hide From, Tidy, Completing;
    forall g: nat
      ensures From(l.sink + [Out(None, NEWLINE)], g) == From(l.sink, g)
    {
      FromTagged(l.sink, None, [NEWLINE], g);
      assert Tag(None, [NEWLINE]) == [Out(None, NEWLINE)];
    }
  }

  lemma CompletedLast(orderly: bool, limit: nat, w: World, l: Ledger, f: nat, bytes: seq<byte>)
    requires Flowing(orderly, limit, w, l) && f in l.done && !EndsALine(bytes)
    ensures Completing(PassedOn(l, f, bytes).sink + [Out(None, NEWLINE)])
  {
    hide Conserved, Tidy, Unbroken, Completing;
    CompletingTagged(l.sink, f, bytes);
    CompletingEnded(PassedOn(l, f, bytes).sink);
  }

  // Where the last of the file before goes when a new one is retired.
  lemma FileRetired(orderly: bool, limit: nat, w: World, l: Ledger, prior: nat, offset: nat, next: nat)
    requires Standing(orderly, limit, w, l, prior, offset, None)
    requires next != prior && next in l.done && l.done[next] == 0 && AtLine(w, l, next)
    ensures Standing(orderly, limit, w, l, next, 0, Some((prior, offset)))
  {
    hide Flowing, AtLine, Resting;
  }

  // A new, empty capture file has nothing passed on and nothing freed.
  function Opened(w: World, next: nat): World {
    w.(content := w.content[next := []], freed := w.freed[next := 0])
  }

  function TakenUp(l: Ledger, next: nat): Ledger {
    l.(start := l.start[next := 0], done := l.done[next := 0])
  }

  lemma FileOpened(orderly: bool, limit: nat, w: World, l: Ledger, file: nat, phaseOffset: nat,
                   retired: Option<(nat, nat)>, next: nat)
    requires Standing(orderly, limit, w, l, file, phaseOffset, retired) && next !in w.content
    ensures Standing(orderly, limit, Opened(w, next), TakenUp(l, next), file, phaseOffset, retired)
    ensures next !in l.done && next !in l.start
    ensures next != file && AtLine(Opened(w, next), TakenUp(l, next), next)
    ensures retired.Some? ==> retired.value.0 != next
  {
    hide Tidy, Conserved, Unbroken, Completing, Resting;
    FlowingOpened(w, l, next);
    OnlyTakenUp(w, l, next);
  }

  lemma OnlyTakenUp(w: World, l: Ledger, next: nat)
    requires Conserved(w, l) && next !in w.content
    ensures next !in l.done && next !in l.start
    ensures forall f :: f in l.done ==> f in w.content
  {
    hide From;
  }

  lemma FlowingOpened(w: World, l: Ledger, next: nat)
    requires Conserved(w, l) && next !in w.content
    ensures Conserved(Opened(w, next), TakenUp(l, next))
    ensures Tidy(w) ==> Tidy(Opened(w, next))
  {
    hide From;
  }

  // Freeing what is neither waiting nor in the ring.
  lemma HolePunched(orderly: bool, limit: nat, w: World, l: Ledger, file: nat, phaseOffset: nat,
                    retired: Option<(nat, nat)>, upto: nat)
    requires Standing(orderly, limit, w, l, file, phaseOffset, retired) && upto + limit <= phaseOffset
    ensures Standing(orderly, limit, w.(freed := w.freed[file := Max(Freed(w, file), upto)]), l, file, phaseOffset,
            retired)
  {
    hide From, Unbroken, Completing, Resting, ShortLines;
  }

  // ---- files no longer read ----

  // All that file `f` held at `w` has been passed on.
  ghost predicate Finished(w: World, l: Ledger, f: nat) {
    f in w.content && f in l.done && |w.content[f]| <= l.done[f]
  }

  // What was passed on stays so, and no file is taken up twice.
  ghost predicate Further(l: Ledger, m: Ledger) {
    && l.sink <= m.sink
    && (forall f :: f in l.done ==> f in m.done && l.done[f] <= m.done[f])
  }

  lemma FurtherReflexive(l: Ledger)
    ensures Further(l, l)
  {
  }

  lemma FurtherTransitive(l: Ledger, m: Ledger, n: Ledger)
    requires Further(l, m) && Further(m, n)
    ensures Further(l, n)
  {
  }

  lemma TakenUpFurther(l: Ledger, next: nat)
    requires next !in l.done
    ensures Further(l, TakenUp(l, next))
  {
  }

  lemma FinishedStays(w: World, l: Ledger, m: Ledger, f: nat)
    requires Finished(w, l, f) && Further(l, m)
    ensures Finished(w, m, f)
  {
  }

  // Every file is still there, and has only grown.
  ghost predicate Grown(w: World, x: World) {
    forall f :: f in w.content ==> f in x.content && w.content[f] <= x.content[f]
  }

  lemma OnwardGrown(orderly: bool, w: World, x: World)
    requires Onward(orderly, w, x)
    ensures Grown(w, x)
  {
    hide Tidy;
  }

  lemma GrownTransitive(w: World, x: World, y: World)
    requires Grown(w, x) && Grown(x, y)
    ensures Grown(w, y)
  {
  }

  lemma SwitchedGrown(orderly: bool, w: World, next: nat, moment: World, x: World, y: World)
    requires next !in w.content && y.content == x.content
    requires var switched := Opened(w, next).(stderr := next);
             Onward(orderly, switched, moment) && Onward(orderly, switched, x)
    ensures Grown(w, moment) && Grown(w, y)
  {
    hide Onward;
    var switched := Opened(w, next).(stderr := next);
    OnwardGrown(orderly, switched, moment);
    OnwardGrown(orderly, switched, x);
  }

  lemma GrownElsewhere(w: World, x: World, v: World, y: World)
    requires Grown(w, x) && v.content == w.content && y.content == x.content
    ensures Grown(v, y)
  {
  }

  lemma FinishedBefore(w: World, x: World, l: Ledger, f: nat)
    requires Grown(w, x) && f in w.content
    ensures Finished(x, l, f) ==> Finished(w, l, f)
  {
  }

  lemma RetiredReadable(orderly: bool, limit: nat, w: World, l: Ledger, file: nat, phaseOffset: nat,
                        retired: (nat, nat))
    requires Standing(orderly, limit, w, l, file, phaseOffset, Some(retired))
    ensures retired.0 in w.content
  {
    hide From, Tidy;
  }

  lemma RetiredFinished(w: World, moment: World, l: Ledger, file: nat, r: (nat, nat))
    requires Grown(w, moment) && r.0 in w.content && InOrder(moment, l, file, Some(r), false)
    ensures Finished(w, l, r.0)
  {
  }

  function Name(retired: Option<(nat, nat)>): Option<nat> {
    if retired.Some? then Some(retired.value.0) else None
  }

  // A session between two drains: the files as they are, the one fd 2 was
  // taken to, and the one it replaced.
  datatype Turn = Turn(world: World, file: nat, retired: Option<nat>)

  // A drain goes on with the same two files, or with a new one and the one it
  // replaces; then the file retired before is read no more.
  ghost predicate Proceeds(a: Turn, b: Turn) {
    && Grown(a.world, b.world)
    && if b.file == a.file then b.retired == a.retired else b.file !in a.world.content && b.retired == Some(a.file)
  }

  // File `f` was read for the last time in turn `k`, and all it held when
  // that turn began has been passed on.
  ghost predicate ReadToItsEnd(turns: seq<Turn>, k: nat, l: Ledger, f: nat) {
    && k < |turns| && turns[k].retired == Some(f) && Finished(turns[k].world, l, f)
    && (k + 1 < |turns| ==> turns[k + 1].retired != Some(f))
  }

  ghost predicate Followed(turns: seq<Turn>, l: Ledger, f: nat) {
    exists k: nat :: ReadToItsEnd(turns, k, l, f)
  }

  // Any number of turns: what each went on to, and where every file was taken up.
  ghost predicate Turns(turns: seq<Turn>, start: map<nat, nat>) {
    && turns != []
    && (forall i, j :: 0 <= i < j < |turns| && j == i + 1 ==> Proceeds(turns[i], turns[j]))
    && (forall f :: f in start && f != turns[0].file ==> start[f] == 0)
  }

  // Every file taken up is still read, or was read to its end.
  ghost predicate AllFollowed(turns: seq<Turn>, l: Ledger) {
    && turns != []
    && var now := turns[|turns| - 1];
       forall f :: f in l.start && f != now.file && Some(f) != now.retired ==> Followed(turns, l, f)
  }

  lemma FirstTurn(turn: Turn, l: Ledger)
    requires l.start.Keys == {turn.file}
    ensures Turns([turn], l.start) && AllFollowed([turn], l)
  {
  }

  // Where fd 2 points is no part of a turn.
  lemma TurnElsewhere(a: Turn, w: World, b: Turn, l: Ledger)
    requires w.content == a.world.content && Proceeds(a.(world := w), b)
    ensures Proceeds(a, b)
    ensures a.retired.Some? && Finished(w, l, a.retired.value) ==> Finished(a.world, l, a.retired.value)
  {
  }

  lemma TurnsProceed(turns: seq<Turn>, start: map<nat, nat>, now: Turn)
    requires Turns(turns, start) && Proceeds(turns[|turns| - 1], now)
    ensures Turns(turns + [now], start) && Turns(turns + [now], start[now.file := 0])
  {
    hide Proceeds;
  }

  lemma FollowedStays(turns: seq<Turn>, l: Ledger, m: Ledger, f: nat, now: Turn)
    requires turns != [] && Followed(turns, l, f) && Further(l, m)
    requires turns[|turns| - 1].retired != Some(f)
    ensures Followed(turns + [now], m, f) && Followed(turns, m, f)
  {
    var k: nat :| ReadToItsEnd(turns, k, l, f);
    FinishedStays(turns[k].world, l, m, f);
    assert ReadToItsEnd(turns + [now], k, m, f);
    assert ReadToItsEnd(turns, k, m, f);
  }

  // One drain more.
  lemma AllStayFollowed(turns: seq<Turn>, l: Ledger, m: Ledger, now: Turn)
    requires AllFollowed(turns, l) && Proceeds(turns[|turns| - 1], now) && Further(l, m)
    requires m.start == if now.file == turns[|turns| - 1].file then l.start else l.start[now.file := 0]
    requires now.file != turns[|turns| - 1].file && turns[|turns| - 1].retired.Some? ==>
               Finished(turns[|turns| - 1].world, m, turns[|turns| - 1].retired.value)
    ensures AllFollowed(turns + [now], m)
  {
    hide Finished, Further, Followed, Grown;
    var last := turns[|turns| - 1];
    var all := turns + [now];
    forall f | f in m.start && f != now.file && Some(f) != now.retired
      ensures Followed(all, m, f)
    {
      if Some(f) == last.retired {
        assert ReadToItsEnd(all, |turns| - 1, m, f);
        IsFollowed(all, |turns| - 1, m, f);
      } else {
        FollowedStays(turns, l, m, f, now);
      }
    }
  }

  lemma IsFollowed(turns: seq<Turn>, k: nat, l: Ledger, f: nat)
    requires ReadToItsEnd(turns, k, l, f)
    ensures Followed(turns, l, f)
  {
  }

  // What a session that began with file `first` has recorded of itself by `now`.
  ghost predicate Recorded(turns: seq<Turn>, l: Ledger, now: Turn, first: nat) {
    && Turns(turns, l.start) && AllFollowed(turns, l)
    && turns[|turns| - 1] == now && turns[0].file == first && turns[0].retired.None?
    && first in l.start && first in turns[0].world.content && l.start[first] == |turns[0].world.content[first]|
  }

  lemma RecordedFirst(turn: Turn, l: Ledger)
    requires Turns([turn], l.start) && AllFollowed([turn], l) && turn.retired.None?
    requires turn.file in l.start && turn.file in turn.world.content
    requires l.start[turn.file] == |turn.world.content[turn.file]|
    ensures Recorded([turn], l, turn, turn.file)
  {
    hide Turns, AllFollowed;
  }

  lemma RecordedOn(turns: seq<Turn>, l: Ledger, now: Turn, first: nat, pointed: World, m: Ledger, next: Turn)
    requires Recorded(turns, l, now, first) && Further(l, m)
    requires pointed.content == now.world.content && Proceeds(now.(world := pointed), next)
    requires if next.file == now.file then m.start == l.start
             else
               && next.file !in l.start && m.start == l.start[next.file := 0]
               && (now.retired.Some? ==> Finished(pointed, m, now.retired.value))
    ensures Recorded(turns + [next], m, next, first)
  {
    hide Turns, AllFollowed, Proceeds, Finished, Further;
    TurnElsewhere(now, pointed, next, m);
    assert turns != [] by {
      RecordedMeans(turns, l, now, first);
    }
    AllStayFollowed(turns, l, m, next);
    TurnsProceed(turns, l.start, next);
  }

  lemma RecordedMeans(turns: seq<Turn>, l: Ledger, now: Turn, first: nat)
    requires Recorded(turns, l, now, first)
    ensures turns != [] && turns[|turns| - 1] == now && turns[0].file == first && turns[0].retired.None?
    ensures Turns(turns, l.start) && AllFollowed(turns, l)
    ensures first in l.start && first in turns[0].world.content && l.start[first] == |turns[0].world.content[first]|
  {
    hide AllFollowed, Proceeds;
  }

  // The end of the session.
  lemma AllReadToTheirEnds(turns: seq<Turn>, l: Ledger, m: Ledger)
    requires AllFollowed(turns, l) && Further(l, m) && m.start == l.start
    requires turns[|turns| - 1].retired.Some? ==>
               Finished(turns[|turns| - 1].world, m, turns[|turns| - 1].retired.value)
    ensures forall f :: f in m.start && f != turns[|turns| - 1].file ==> Followed(turns, m, f)
  {
    hide Finished, Further, Followed;
    var last := turns[|turns| - 1];
    forall f | f in m.start && f != last.file
      ensures Followed(turns, m, f)
    {
      if Some(f) == last.retired {
        assert ReadToItsEnd(turns, |turns| - 1, m, f);
        IsFollowed(turns, |turns| - 1, m, f);
      } else {
        FollowedStays(turns, l, m, f, last);
      }
    }
  }

  // Whether nothing of file `f`, taken up empty, has been passed on.
  ghost predicate Untouched(w: World, l: Ledger, f: nat) {
    f in w.content && f in l.start && f in l.done && l.start[f] == 0 && l.done[f] == 0
  }

  lemma UntouchedStays(orderly: bool, w: World, x: World, l: Ledger, f: nat, r: nat, bytes: seq<byte>)
    requires Untouched(w, l, f) && Onward(orderly, w, x) && r in l.done && r != f
    ensures Untouched(x, PassedOn(l, r, bytes), f) && Untouched(x, Closed(l, r, bytes), f)
  {
    hide Tidy;
  }

  lemma UntouchedOnward(orderly: bool, w: World, x: World, l: Ledger, f: nat)
    requires Untouched(w, l, f) && Onward(orderly, w, x)
    ensures Untouched(x, l, f) && AtLine(x, l, f) && f in l.done && l.done[f] == 0
  {
    hide Tidy;
  }

  // The copies of one drain, or of one rotation, seen at one moment: the file
  // is passed on no further than it went then, and no line that was whole in
  // it or in the retired file then is left waiting (nor, where the retired
  // file is closed, any byte).
  ghost predicate InOrder(moment: World, l: Ledger, file: nat, retired: Option<(nat, nat)>, followed: bool) {
    && file in l.done && file in moment.content && l.done[file] <= |moment.content[file]|
    && CaughtUp(moment, file, l.done[file], true, Some(|moment.content[file]|))
    && (retired.Some? ==>
          retired.value.0 in l.done && CaughtUp(moment, retired.value.0, l.done[retired.value.0], followed, None))
  }

  lemma FileInOrder(orderly: bool, moment: World, w: World, l: Ledger, file: nat, bytes: seq<byte>,
                    retired: Option<(nat, nat)>, followed: bool)
    requires Onward(orderly, moment, w) && file in moment.content
    requires file in l.done && l.done[file] <= |moment.content[file]|
    requires CaughtUp(w, file, l.done[file] + |bytes|, true, Some(|moment.content[file]|))
    requires bytes != [] ==> l.done[file] + |bytes| <= |moment.content[file]|
    requires retired.Some? ==>
               && retired.value.0 != file && retired.value.0 in l.done
               && CaughtUp(moment, retired.value.0, l.done[retired.value.0], followed, None)
    ensures InOrder(moment, PassedOn(l, file, bytes), file, retired, followed)
  {
    hide Onward, CaughtUp;
    CaughtUpBefore(orderly, moment, w, file, l.done[file] + |bytes|, true, Some(|moment.content[file]|));
  }

  lemma Extends(l: Ledger, m: Ledger, file: nat, retired: Option<(nat, nat)>, bytes: seq<byte>)
    requires retired.None? ==> m == l
    requires retired.Some? ==> retired.value.0 in l.done && m == PassedOn(l, retired.value.0, bytes)
    ensures Further(l, m) && m.start == l.start
    ensures retired.Some? ==> m.done[retired.value.0] == l.done[retired.value.0] + |bytes|
    ensures file in l.done && (retired.Some? ==> retired.value.0 != file) ==>
            file in m.done && m.done[file] == l.done[file]
  {
  }

  lemma ClosedExtends(l: Ledger, file: nat, r: nat, bytes: seq<byte>)
    requires r in l.done && file in l.done && file != r
    ensures var m := Closed(l, r, bytes);
            && Further(l, m) && m.start == l.start
            && file in m.done && m.done[file] == l.done[file]
            && r in m.done && m.done[r] == l.done[r] + |bytes|
  {
  }

  // Neither where fd 2 points, nor which file the path names, nor what is
  // kept beside it, moves a byte.
  lemma StandingElsewhere(orderly: bool, limit: nat, w: World, x: World, l: Ledger, file: nat, phaseOffset: nat,
                          retired: Option<(nat, nat)>)
    requires Standing(orderly, limit, w, l, file, phaseOffset, retired)
    requires x.content == w.content && x.freed == w.freed
    ensures Standing(orderly, limit, x, l, file, phaseOffset, retired)
  {
    hide From, Unbroken, Completing, Resting, ShortLines;
  }

  // Where the file goes once fd 2 is back: everything it is known to hold was passed on.
  lemma AllPassedOn(orderly: bool, limit: nat, moment: World, measured: World, w: World, l: Ledger, f: nat, offset: nat)
    requires Onward(orderly, moment, measured) && Onward(orderly, measured, w) && Flowing(orderly, limit, w, l)
    requires f in l.done && offset == l.done[f] && f in measured.content
    requires CaughtUp(measured, f, offset, false, Some(|measured.content[f]|))
    ensures f in moment.content && |moment.content[f]| <= l.done[f]
    ensures f in w.content && (Freed(w, f) == 0 || Freed(w, f) + limit <= |w.content[f]|)
  {
    hide From, Tidy, Unbroken, Completing;
  }

  lemma AllOfRetired(w: World, f: nat, offset: nat)
    requires CaughtUp(w, f, offset, false, None)
    ensures f in w.content && |w.content[f]| <= offset
  {
  }

  // A file taken up where it ends has nothing of it passed on yet.
  lemma TakenUpAtItsEnd(orderly: bool, limit: nat, w: World, f: nat)
    requires f in w.content && (orderly ==> Tidy(w))
    requires Freed(w, f) == 0 || Freed(w, f) + limit <= |w.content[f]|
    ensures var end := |w.content[f]|;
            Standing(orderly, limit, w, Ledger([], map[f := end], map[f := end]), f, end, None)
  {
    hide Tidy;
  }

  lemma TidyTrimmed(w: World, f: nat, limit: nat)
    requires Tidy(w) && f in w.content
    ensures Tidy(w.(content := w.content[f := Trimmed(w.content[f], limit)], freed := w.freed[f := 0]))
  {
    hide ShortLines, Trimmed;
    TrimmedIsTidy(w.content[f], limit);
  }

  lemma {:induction false} Bounded(s: set<nat>) returns (b: nat)
    ensures b !in s && forall x :: x in s ==> x < b
  {
    if s == {} {
      b := 0;
    } else {
      var x :| x in s;
      var c := Bounded(s - {x});
      b := Max(c, x + 1);
      forall y | y in s
        ensures y < b
      {
        assert y == x || y in s - {x};
      }
    }
  }

  // The end of the passed-on part of a file, as its retirement keeps it.
  lemma TailKept(w: World, l: Ledger, f: nat, limit: nat, tail: seq<byte>)
    requires f in l.done && f in w.content && l.done[f] <= |w.content[f]|
    requires var from := Max(0, l.done[f] - limit);
             |tail| == Max(0, Min(limit, |w.content[f]| - from))
                 && (tail != [] ==> tail == w.content[f][from..from + |tail|])
    ensures w.content[f][Max(0, l.done[f] - limit)..l.done[f]] <= tail
  {
  }

  // ---- what is kept of a file between phases ----

  // Just after the first newline of `tail`, or 0.
  function FirstLine(tail: seq<byte>): (cut: nat)
    ensures cut <= |tail|
    ensures cut > 0 ==> tail[cut - 1] == NEWLINE
    ensures cut == 0 ==> NEWLINE !in tail
    ensures forall i :: 0 <= i < cut - 1 ==> tail[i] != NEWLINE
  {
    if tail == [] then 0
    else if tail[0] == NEWLINE then 1
    else
      var cut := FirstLine(tail[1..]);
      if cut == 0 then 0 else cut + 1
  }

  // The longest suffix of at most `limit` bytes that starts a line, or all of
  // the last `limit` bytes where no line starts in them.
  function Trimmed(s: seq<byte>, limit: nat): (r: seq<byte>)
    ensures |r| <= |s| && r == s[|s| - |r|..] && (|s| > limit ==> |r| <= limit)
    ensures |s| <= limit ==> r == s
    ensures |s| > limit && NEWLINE in s[|s| - limit..] ==> s[|s| - |r| - 1] == NEWLINE
    ensures |s| > limit && NEWLINE !in s[|s| - limit..] ==> |r| == limit
    // no longer one starts a line: there is no newline between the limit and the one it is cut behind
    ensures |s| > limit ==> forall k :: |s| - limit <= k < |s| - |r| - 1 ==> s[k] != NEWLINE
  {
    if |s| <= limit then s
    else
      var tail := s[|s| - limit..];
      tail[FirstLine(tail)..]
  }

  // A file taken up anew begins with what is kept of it: all of a session's.
  ghost predicate KeptOf(before: seq<byte>, append: bool, limit: nat, now: seq<byte>) {
    (if append then before else Trimmed(before, limit)) <= now
  }

  lemma SuffixIsTidy(s: seq<byte>, k: nat)
    requires ShortLines(s) && k <= |s|
    ensures ShortLines(s[k..])
  {
    var r := s[k..];
    forall i | 0 <= i <= |r| - COPY_BYTES
      ensures HasNewline(r, i, COPY_BYTES)
    {
      assert HasNewline(s, k + i, COPY_BYTES);
      var j :| k + i <= j < k + i + COPY_BYTES && j < |s| && s[j] == NEWLINE;
      assert r[j - k] == NEWLINE;
    }
  }

  lemma TrimmedIsTidy(s: seq<byte>, limit: nat)
    requires ShortLines(s)
    ensures ShortLines(Trimmed(s, limit))
  {
    hide ShortLines, FirstLine;
    SuffixIsTidy(s, |s| - |Trimmed(s, limit)|);
  }

  class StderrTee {
    const limit: nat      // how much of the tail is kept
    const append: bool    // a session's file, for a process of lanes
    const rotates: bool   // whether fd 2 can be swapped under writers
    const orderly: bool   // whether every line written fits one read

    var world: World
    var file: nat
    var passthrough: Option<nat>
    var phaseOffset: nat
    var retired: Option<(nat, nat)>
    var released: nat
    var closed: bool

    ghost var ledger: Ledger
    ghost var turns: seq<Turn>  // since fd 2 was taken, as each drain left things

    ghost function Now(): Turn
      reads this
    {
      Turn(world, file, Name(retired))
    }

    ghost predicate Valid()
      reads this
    {
      && world.path == file && file in world.content
      && (orderly ==> Tidy(world)) && (closed ==> passthrough.None?)
      && (append && rotates ==> released <= Freed(world, file))
      && if passthrough.Some? then
           Standing(orderly, limit, world, ledger, file, phaseOffset, retired)
         else
           retired.None? && (Freed(world, file) == 0 || Freed(world, file) + limit <= |world.content[file]|)
    }

    // Between two calls of an orderly run every file passed on has been passed
    // on to where it was taken up, or just behind a newline.
    lemma OffsetsAtLines()
      requires Valid() && orderly && passthrough.Some?
      ensures forall f :: f == file || (retired.Some? && f == retired.value.0) ==>
                && f in ledger.done && f in world.content && ledger.start[f] <= ledger.done[f] <= |world.content[f]|
                && (ledger.done[f] == ledger.start[f] || world.content[f][ledger.done[f] - 1] == NEWLINE)
    {
      hide Flowing, Tidy;
    }

    // The capture file, opened anew.
    constructor (before: World, name: nat, limit: nat, append: bool, rotates: bool, orderly: bool)
      requires name !in before.content && (orderly ==> Tidy(before))
      ensures Valid() && !closed && passthrough.None?
      ensures file == name && world == Opened(before, name).(path := name)
      ensures (this.limit, this.append, this.rotates, this.orderly) == (limit, append, rotates, orderly)
    {
      this.limit, this.append, this.rotates, this.orderly := limit, append, rotates, orderly;
      world := Opened(before, name).(path := name);
      file, passthrough, phaseOffset, retired, released, closed := name, None, 0, None, 0, false;
      ledger, turns := Ledger([], map[], map[]), [];
      new;
      EmptyIsTidy(before, name);
    }

    // ---- calls to the kernel; others may write before each ----

    method Others()
      modifies this`world
      ensures Onward(orderly, old(world), world)
    {
      var writes: nat := *;
      while writes > 0
        invariant Onward(orderly, old(world), world)
      {
        var f: nat, data: seq<byte> := *, *;
        if f in world.content && |data| <= world.budget && (orderly ==> ShortLines(world.content[f] + data)) {
          ghost var before := world;
          world := world.(content := world.content[f := world.content[f] + data], budget := world.budget - |data|);
          OnwardTransitive(orderly, old(world), before, world);
        }
        writes := writes - 1;
      }
    }

    // Never called for bytes that have been freed.
    method Pread(f: nat, want: nat, offset: nat) returns (chunk: seq<byte>)
      requires f in world.content && Freed(world, f) <= offset
      modifies this`world
      ensures Onward(orderly, old(world), world)
      ensures f in world.content && |chunk| == Max(0, Min(want, |world.content[f]| - offset))
      ensures chunk != [] ==> chunk == world.content[f][offset..offset + |chunk|]
    {
      hide Tidy;
      Others();
      var n := Max(0, Min(want, |world.content[f]| - offset));
      chunk := if n > 0 then world.content[f][offset..offset + n] else [];
    }

    method Size(f: nat) returns (size: nat)
      requires f in world.content
      modifies this`world
      ensures Onward(orderly, old(world), world)
      ensures f in world.content && size == |world.content[f]|
    {
      hide Tidy;
      Others();
      size := |world.content[f]|;
    }

    // A write to the saved stderr of bytes of `f`, which may be short.
    method Write(f: nat, view: seq<byte>) returns (written: nat)
      requires Flowing(orderly, limit, world, ledger) && Next(world, ledger, f, view) && view != []
      requires orderly ==> Ready(ledger.sink, f)
      modifies this`world, this`ledger
      ensures Onward(orderly, old(world), world)
      ensures Flowing(orderly, limit, world, ledger)
      ensures 0 < written <= |view| && ledger == PassedOn(old(ledger), f, view[..written])
      ensures Next(world, ledger, f, view[written..])
      ensures orderly ==> Ready(ledger.sink, f)
    {
      hide *;
      Others();
      written := *;
      if !(0 < written <= |view|) {
        written := |view|;
      }
      FlowingOnward(orderly, limit, old(world), world, ledger);
      NextOnward(orderly, old(world), world, ledger, f, view);
      NextSplit(world, ledger, f, view, written);
      FlowingPasses(orderly, limit, world, ledger, f, view[..written]);
      ledger := PassedOn(ledger, f, view[..written]);
    }

    // ---- copying ----

    // The inner loop of a copy: all of a chunk, however short the writes.
    method Pass(f: nat, chunk: seq<byte>)
      requires Flowing(orderly, limit, world, ledger) && Next(world, ledger, f, chunk)
      requires orderly ==> Ready(ledger.sink, f)
      modifies this`world, this`ledger
      ensures Onward(orderly, old(world), world)
      ensures Flowing(orderly, limit, world, ledger)
      ensures ledger == PassedOn(old(ledger), f, chunk)
      ensures orderly ==> Ready(ledger.sink, f)
    {
      hide Flowing, Next, Onward, Ready, PassedOn;
      var view := chunk;
      ghost var sent := [];
      NextMeans(world, ledger, f, chunk);
      PassedOnAgain(ledger, f, [], []);
      OnwardReflexive(orderly, world);
      while view != []
        invariant sent + view == chunk
        invariant Onward(orderly, old(world), world)
        invariant Flowing(orderly, limit, world, ledger) && Next(world, ledger, f, view)
        invariant ledger == PassedOn(old(ledger), f, sent)
        invariant orderly ==> Ready(ledger.sink, f)
        decreases |view|
      {
        ghost var before := world;
        var written := Write(f, view);
        OnwardTransitive(orderly, old(world), before, world);
        PassedOnAgain(old(ledger), f, sent, view[..written]);
        sent := sent + view[..written];
        view := view[written..];
      }
      assert sent == chunk;
    }

    // What a copy reads next, or [] where it stops.
    method Chunk(f: nat, offset: nat, wholeLines: bool, upto: Option<nat>) returns (chunk: seq<byte>)
      requires Flowing(orderly, limit, world, ledger)
      requires f in ledger.done && ledger.done[f] == offset
      modifies this`world
      ensures Onward(orderly, old(world), world)
      ensures Flowing(orderly, limit, world, ledger) && Next(world, ledger, f, chunk)
      ensures upto.Some? && chunk != [] ==> offset + |chunk| <= upto.value
      ensures orderly && wholeLines ==> EndsALine(chunk)
      ensures chunk == [] ==> CaughtUp(world, f, offset, wholeLines, upto)
    {
      hide Tidy, Conserved, Unbroken, Completing, Onward;
      Readable(orderly, limit, world, ledger, f);
      OnwardReflexive(orderly, world);
      var want := match upto case None => COPY_BYTES case Some(end) => Min(COPY_BYTES, end - offset);
      if want <= 0 {
        return [];
      }
      chunk := Pread(f, want, offset);
      FlowingOnward(orderly, limit, old(world), world, ledger);
      Readable(orderly, limit, world, ledger, f);
      if wholeLines {
        var end := LineCut(chunk);
        if end > 0 {
          chunk := chunk[..end];
        } else if |chunk| < COPY_BYTES {
          return [];
        } else if orderly {
          LongLineIsNotTidy(world, f, offset, chunk);
        }
      }
    }

    // From `offset` to the end of `f`, or to `upto`; with `wholeLines`, to the
    // last newline before that.
    method Copy(f: nat, from: nat, wholeLines: bool, upto: Option<nat>) returns (offset: nat, ghost passed: seq<byte>)
      requires Flowing(orderly, limit, world, ledger)
      requires f in ledger.done && ledger.done[f] == from
      requires orderly ==> Ready(ledger.sink, f)
      modifies this`world, this`ledger
      ensures Onward(orderly, old(world), world)
      ensures Flowing(orderly, limit, world, ledger)
      ensures Next(world, old(ledger), f, passed)
      ensures ledger == PassedOn(old(ledger), f, passed) && offset == from + |passed|
      ensures upto.Some? && passed != [] ==> offset <= upto.value
      ensures orderly && wholeLines ==> EndsALine(passed)
      ensures CaughtUp(old(world), f, offset, wholeLines, upto)
    {
      hide Flowing, Next, Onward, Ready, PassedOn, CaughtUp, Ahead;
      offset, passed := from, [];
      PassedOnAgain(ledger, f, [], []);
      OnwardReflexive(orderly, world);
      NothingNext(orderly, limit, world, ledger, f);
      while true
        invariant Onward(orderly, old(world), world)
        invariant Flowing(orderly, limit, world, ledger)
        invariant ledger == PassedOn(old(ledger), f, passed) && offset == from + |passed|
        invariant Next(world, old(ledger), f, passed)
        invariant upto.Some? && passed != [] ==> offset <= upto.value
        invariant orderly ==> Ready(ledger.sink, f)
        invariant orderly && wholeLines ==> EndsALine(passed)
        decreases Ahead(world, f, offset)
      {
        ghost var before := world;
        NextMeans(world, old(ledger), f, passed);
        var chunk := Chunk(f, offset, wholeLines, upto);
        OnwardTransitive(orderly, old(world), before, world);
        NextOnward(orderly, before, world, old(ledger), f, passed);
        if chunk == [] {
          CaughtUpBefore(orderly, old(world), world, f, offset, wholeLines, upto);
          return;
        }
        ghost var read, standing := world, ledger;
        NextJoin(world, old(ledger), f, passed, chunk);
        Pass(f, chunk);
        OnwardTransitive(orderly, old(world), read, world);
        NextOnward(orderly, read, world, old(ledger), f, passed + chunk);
        PassedOnAgain(old(ledger), f, passed, chunk);
        CopyMovesOn(orderly, before, read, world, standing, f, chunk);
        if orderly && wholeLines {
          EndsLater(passed, chunk);
        }
        passed := passed + chunk;
        offset := offset + |chunk|;
      }
    }

    // ---- the retired file ----

    method FollowRetired() returns (ghost passed: seq<byte>)
      requires Standing(orderly, limit, world, ledger, file, phaseOffset, retired)
      modifies this`world, this`ledger, this`retired
      ensures Onward(orderly, old(world), world)
      ensures Standing(orderly, limit, world, ledger, file, phaseOffset, retired)
      ensures old(retired).None? ==> retired.None? && ledger == old(ledger)
      ensures old(retired).Some? ==>
                var (r, from) := old(retired).value;
                && retired == Some((r, from + |passed|))
                && r in old(ledger).done && ledger == PassedOn(old(ledger), r, passed)
                && CaughtUp(old(world), r, from + |passed|, true, None)
    {
      hide Flowing, Next, Onward, AtLine, Unbroken, Resting, PassedOn, CaughtUp;
      OnwardReflexive(orderly, world);
      if retired.None? {
        return [];
      }
      var (prior, from) := retired.value;
      assert orderly ==> Ready(ledger.sink, prior);
      var offset;
      offset, passed := Copy(prior, from, true, None);
      retired := Some((prior, offset));
      StandingOnward(orderly, limit, old(world), world, old(ledger), file, phaseOffset, old(retired));
      RetiredCopied(orderly, limit, world, old(ledger), file, phaseOffset, old(retired).value, passed);
    }

    // `f` is the file the tee goes on with.
    method DrainRetired(ghost f: nat, ghost offset: nat) returns (ghost passed: seq<byte>)
      requires Standing(orderly, limit, world, ledger, f, offset, retired)
      modifies this`world, this`ledger, this`retired
      ensures Onward(orderly, old(world), world)
      ensures Standing(orderly, limit, world, ledger, f, offset, retired) && retired.None?
      ensures old(retired).None? ==> ledger == old(ledger)
      ensures old(retired).Some? ==>
                var (r, from) := old(retired).value;
                && r in old(world).content && r in old(ledger).done
                && ledger == Closed(old(ledger), r, passed)
                && CaughtUp(old(world), r, from + |passed|, false, None)
    {
      hide Flowing, Next, Onward, AtLine, Unbroken, Resting, PassedOn, CaughtUp;
      OnwardReflexive(orderly, world);
      if retired.None? {
        return [];
      }
      var (prior, from) := retired.value;
      retired := None;
      Readable(orderly, limit, world, ledger, prior);
      assert orderly ==> Ready(ledger.sink, prior);
      var end;
      end, passed := Copy(prior, from, false, None);
      if end > from {
        ghost var copied := world;
        NextMeans(world, old(ledger), prior, passed);
        OnwardMeans(orderly, old(world), world, prior);
        var last := Pread(prior, 1, end - 1);
        OnwardTransitive(orderly, old(world), copied, world);
        NextOnward(orderly, copied, world, old(ledger), prior, passed);
        LastByte(world, old(ledger), prior, passed, last);
        if last != [NEWLINE] {
          ledger := ledger.(sink := ledger.sink + [Out(None, NEWLINE)]);
        }
      }
      StandingOnward(orderly, limit, old(world), world, old(ledger), f, offset, old(retired));
      RetiredClosed(orderly, limit, world, old(ledger), f, offset, old(retired).value, passed);
    }

    // ---- passing on while fd 2 stays taken ----

    // What a drain passes on: whole lines, the retired file's first, and of
    // the current file no more than it held before the retired one was read.
    method Forward() returns (ghost moment: World)
      requires Valid() && passthrough.Some?
      modifies this`world, this`ledger, this`retired, this`phaseOffset
      ensures Valid()
      ensures Onward(orderly, old(world), moment) && Onward(orderly, moment, world)
      ensures InOrder(moment, ledger, file, old(retired), true)
      ensures file in ledger.done && ledger.done[file] == phaseOffset
      ensures Further(old(ledger), ledger) && ledger.start == old(ledger).start
      ensures Name(retired) == Name(old(retired))
    {
      hide Flowing, Next, Onward, AtLine, Unbroken, Resting, PassedOn, CaughtUp, InOrder, Tidy;
      var end := Size(file);
      moment := world;
      OnwardReflexive(orderly, world);
      StandingOnward(orderly, limit, old(world), world, ledger, file, phaseOffset, retired);
      Readable(orderly, limit, world, ledger, file);
      ghost var followed := FollowRetired();
      ghost var l := ledger;
      Extends(old(ledger), l, file, old(retired), followed);
      ghost var passed;
      ghost var w := world;
      phaseOffset, passed := Copy(file, phaseOffset, true, Some(end));
      OnwardTransitive(orderly, moment, w, world);
      OnwardTransitive(orderly, old(world), moment, world);
      StandingOnward(orderly, limit, w, world, l, file, l.done[file], retired);
      FileCopied(orderly, limit, world, l, file, l.done[file], retired, passed);
      FileInOrder(orderly, moment, w, l, file, passed, old(retired), true);
      OnwardMeans(orderly, old(world), world, file);
      Extends(l, ledger, file, Some((file, 0)), passed);
      FurtherTransitive(old(ledger), l, ledger);
      Readable(orderly, limit, world, ledger, file);
    }

    // ---- rotation ----

    // A file that replaces the current one, with fd 2 pointed at it first.
    method Switch() returns (prior: nat, offset: nat)
      requires Valid() && passthrough.Some?
      modifies this`world, this`ledger, this`file, this`phaseOffset, this`released
      ensures prior == old(file) && offset == old(phaseOffset)
      ensures file !in old(world).content && phaseOffset == 0 && released == 0
      ensures world == Opened(old(world), file).(stderr := file) && ledger == TakenUp(old(ledger), file)
      ensures Further(old(ledger), ledger) && file !in old(ledger).start
      ensures Standing(orderly, limit, world, ledger, prior, offset, retired)
      ensures Untouched(world, ledger, file) && file != prior && (retired.Some? ==> retired.value.0 != file)
    {
      hide Flowing, AtLine, Unbroken, Resting;
      ghost var bound := Bounded(world.content.Keys);
      assert bound !in world.content;
      var next: nat :| next !in world.content;
      FileOpened(orderly, limit, world, ledger, file, phaseOffset, retired, next);
      TakenUpFurther(ledger, next);
      prior, offset := file, phaseOffset;
      ghost var created := Opened(world, next);
      world := Opened(world, next).(stderr := next);
      ledger := TakenUp(ledger, next);
      StandingElsewhere(orderly, limit, created, world, ledger, prior, offset, retired);
      file, phaseOffset, released := next, 0, 0;
    }

    // The file before the replaced one goes first, to its end; then the
    // replaced one, no further than it went when fd 2 had been pointed away.
    method Retire(prior: nat, from: nat) returns (offset: nat, ghost moment: World)
      requires Standing(orderly, limit, world, ledger, prior, from, retired)
      requires Untouched(world, ledger, file) && file != prior && (retired.Some? ==> retired.value.0 != file)
      modifies this`world, this`ledger, this`retired
      ensures Onward(orderly, old(world), moment) && Onward(orderly, moment, world)
      ensures Standing(orderly, limit, world, ledger, file, 0, retired) && retired == Some((prior, offset))
      ensures InOrder(moment, ledger, prior, old(retired), false)
      ensures Further(old(ledger), ledger) && ledger.start == old(ledger).start
    {
      hide Flowing, Next, Onward, AtLine, Unbroken, Resting, PassedOn, Closed, CaughtUp, InOrder, Untouched;
      Readable(orderly, limit, world, ledger, prior);
      var end := Size(prior);
      moment := world;
      UntouchedOnward(orderly, old(world), world, ledger, file);
      OnwardReflexive(orderly, world);
      StandingOnward(orderly, limit, old(world), world, ledger, prior, from, retired);
      Readable(orderly, limit, world, ledger, prior);
      ghost var drained := DrainRetired(prior, from);
      ghost var w, l := world, ledger;
      ghost var passed;
      offset, passed := Copy(prior, from, true, Some(end));
      OnwardTransitive(orderly, moment, w, world);
      OnwardTransitive(orderly, old(world), moment, world);
      StandingOnward(orderly, limit, w, world, l, prior, from, None);
      FileCopied(orderly, limit, world, l, prior, from, None, passed);
      if old(retired).Some? {
        UntouchedStays(orderly, moment, w, old(ledger), file, old(retired).value.0, drained);
        ClosedExtends(old(ledger), prior, old(retired).value.0, drained);
      } else {
        UntouchedOnward(orderly, moment, w, old(ledger), file);
      }
      UntouchedStays(orderly, w, world, l, file, prior, passed);
      OnwardReflexive(orderly, world);
      UntouchedOnward(orderly, world, world, ledger, file);
      FileInOrder(orderly, moment, w, l, prior, passed, old(retired), false);
      Extends(l, ledger, prior, Some((prior, 0)), passed);
      FurtherTransitive(old(ledger), l, ledger);
      retired := Some((prior, offset));
      FileRetired(orderly, limit, world, ledger, prior, offset, file);
    }

    // What was passed on of the replaced file keeps its last `limit` bytes beside the new one.
    method Rotate() returns (ghost moment: World)
      requires Valid() && passthrough.Some?
      modifies this`world, this`ledger, this`retired, this`file, this`phaseOffset, this`released
      ensures Valid()
      ensures file !in old(world).content && world.stderr == file && phaseOffset == 0 && released == 0
      ensures Onward(orderly, Opened(old(world), file).(stderr := file), moment)
      ensures InOrder(moment, ledger, old(file), old(retired), false)
      ensures old(retired).Some? ==> Finished(old(world), ledger, old(retired).value.0)
      ensures Further(old(ledger), ledger)
      ensures file !in old(ledger).start && ledger.start == old(ledger).start[file := 0]
      ensures Grown(old(world), world) && Name(retired) == Some(old(file))
      ensures var (prior, offset) := retired.value;
              && prior in world.content && offset <= |world.content[prior]|
              && world.content[prior][Max(0, offset - limit)..offset] <= world.previous
    {
      hide Flowing, Onward, AtLine, Unbroken, Resting, InOrder, Untouched, Tidy,
           Further, Finished, Grown;
      ghost var before, following := world, ledger;
      if retired.Some? {
        Readable(orderly, limit, world, ledger, retired.value.0);
      }
      var prior, offset := Switch();
      ghost var switched := world;
      offset, moment := Retire(prior, offset);
      ghost var w := world;
      ghost var read := KeepTail(prior, offset);
      OnwardTransitive(orderly, switched, moment, w);
      OnwardTransitive(orderly, switched, w, read);
      OnwardMeans(orderly, switched, read, file);
      SwitchedGrown(orderly, before, file, moment, read, world);
      FurtherTransitive(following, TakenUp(following, file), ledger);
      if old(retired).Some? {
        RetiredFinished(before, moment, ledger, prior, old(retired).value);
      }
      Readable(orderly, limit, world, ledger, file);
    }

    // The ring of the replaced file kept beside the new one, and the new one
    // moved to its name.
    method KeepTail(prior: nat, offset: nat) returns (ghost read: World)
      requires Standing(orderly, limit, world, ledger, file, 0, retired) && retired == Some((prior, offset))
      modifies this`world
      ensures Onward(orderly, old(world), read) && world == read.(previous := world.previous, path := file)
      ensures Standing(orderly, limit, world, ledger, file, 0, retired)
      ensures prior in world.content && offset <= |world.content[prior]|
      ensures world.content[prior][Max(0, offset - limit)..offset] <= world.previous
    {
      hide Flowing, Onward, AtLine, Unbroken, Resting, Tidy;
      ghost var w := world;
      Readable(orderly, limit, world, ledger, prior);
      RingIsWhole(orderly, limit, world, ledger, prior);
      var tail := Pread(prior, limit, Max(0, offset - limit));
      read := world;
      StandingOnward(orderly, limit, w, world, ledger, file, 0, retired);
      Readable(orderly, limit, world, ledger, prior);
      TailKept(world, ledger, prior, limit, tail);
      world := world.(previous := tail, path := file);
      StandingElsewhere(orderly, limit, read, world, ledger, file, 0, retired);
    }

    method Punch(f: nat, upto: nat) returns (punched: bool)
      modifies this`world
      ensures world == if punched then old(world).(freed := old(world).freed[f := Max(Freed(old(world), f), upto)])
              else old(world)
    {
      punched := *;
      if punched {
        world := world.(freed := world.freed[f := Max(Freed(world, f), upto)]);
      }
    }

    // Give back the disk under what has been passed on, bar the ring: by a
    // hole, else by rotating, else not at all.
    method Release() returns (punched: bool, ghost moment: World)
      requires Valid() && passthrough.Some?
      modifies this`world, this`ledger, this`retired, this`file, this`phaseOffset, this`released
      ensures Valid() && Further(old(ledger), ledger) && Grown(old(world), world)
      ensures punched || !rotates ==>
                && file == old(file) && ledger == old(ledger) && retired == old(retired)
                && phaseOffset == old(phaseOffset) && world.content == old(world).content
      ensures phaseOffset - limit - HOLE_ALIGNMENT < released && (punched ==> released <= Freed(world, file))
      ensures !punched && rotates ==>
                && Name(retired) == Some(old(file)) && file !in old(world).content
                && file !in old(ledger).start && ledger.start == old(ledger).start[file := 0]
                && InOrder(moment, ledger, old(file), old(retired), false)
                && (old(retired).Some? ==> Finished(old(world), ledger, old(retired).value.0))
    {
      hide Flowing, Onward, AtLine, Unbroken, Resting, InOrder, Tidy;
      punched := false;
      moment := world;
      var upto := Max(0, phaseOffset - limit) / HOLE_ALIGNMENT * HOLE_ALIGNMENT;
      if upto > released {
        ghost var w := world;
        punched := Punch(file, upto);
        if punched {
          HolePunched(orderly, limit, w, ledger, file, phaseOffset, retired, upto);
          Readable(orderly, limit, world, ledger, file);
          released := upto;
          return;
        }
      }
      if !rotates {
        released := phaseOffset;
        return;
      }
      moment := Rotate();
    }

    // ---- the calls the recorder makes ----

    method Drain() returns (ghost moment: World, ghost seen: Ledger)
      requires Valid()
      modifies this`world, this`ledger, this`retired, this`file, this`phaseOffset, this`released, this`turns
      ensures Valid()
      ensures closed || passthrough.None? ==> world == old(world) && ledger == old(ledger) && turns == old(turns)
      ensures !closed && passthrough.Some? ==> turns == old(turns) + [Now()]
      ensures !closed && passthrough.Some? ==>
                && Onward(orderly, old(world), moment) && InOrder(moment, seen, old(file), old(retired), true)
                && Further(old(ledger), seen) && Further(seen, ledger)
                // disk is given back only once there are rings enough to give
                && (seen.done[old(file)] - old(released) < RELEASE_FACTOR * limit ==>
                      file == old(file) && released == old(released) && ledger == seen)
                && phaseOffset - released < Max(RELEASE_FACTOR * limit, limit + HOLE_ALIGNMENT)
                && (append && rotates ==>
                      phaseOffset - Freed(world, file) < Max(RELEASE_FACTOR * limit, limit + HOLE_ALIGNMENT))
      ensures Proceeds(old(Now()), Now())
      ensures !closed && passthrough.Some? ==>
                if file == old(file) then ledger.start == old(ledger).start
                else
                  && file !in old(ledger).start && ledger.start == old(ledger).start[file := 0]
                  && (old(retired).Some? ==> Finished(old(world), ledger, old(retired).value.0))
    {
      hide Onward, InOrder, Standing, Tidy, Further, Finished;
      moment, seen := world, ledger;
      if closed || passthrough.None? {
        return;
      }
      if retired.Some? {
        RetiredReadable(orderly, limit, world, ledger, file, phaseOffset, retired.value);
      }
      moment := Forward();
      seen := ledger;
      ghost var forwarded := world;
      OnwardGrown(orderly, old(world), moment);
      OnwardGrown(orderly, moment, world);
      GrownTransitive(old(world), moment, world);
      FurtherReflexive(ledger);
      if phaseOffset - released >= RELEASE_FACTOR * limit {
        var punched, _ := Release();
        GrownTransitive(old(world), forwarded, world);
        if old(retired).Some? {
          FinishedBefore(old(world), forwarded, ledger, old(retired).value.0);
        }
      }
      turns := turns + [Now()];
    }

    method HandBack() returns (ghost moment: World)
      requires Valid()
      modifies this`world, this`ledger, this`retired, this`passthrough
      ensures Valid()
      ensures closed || old(passthrough).None? ==>
              world == old(world) && ledger == old(ledger) && passthrough == old(passthrough)
      ensures !closed && old(passthrough).Some? ==>
                && passthrough.None? && world.stderr == moment.stderr == old(passthrough).value
                && Onward(orderly, old(world).(stderr := old(passthrough).value), moment)
                && Onward(orderly, moment, world)
                && Flowing(orderly, limit, world, ledger)
                && Finished(moment, ledger, file)
      ensures !closed && old(passthrough).Some? && old(retired).Some? ==>
                var r := old(retired).value.0;
                Finished(old(world), ledger, r)
      ensures Further(old(ledger), ledger) && ledger.start == old(ledger).start
    {
      hide Onward, Flowing, Next, AtLine, Unbroken, Resting, PassedOn, Closed, CaughtUp, Tidy;
      moment := world;
      FurtherReflexive(ledger);
      if closed || passthrough.None? {
        return;
      }
      ghost var drained := DrainRetired(file, phaseOffset);
      ghost var l, w := ledger, world;
      var saved := passthrough.value;
      world := world.(stderr := saved);
      passthrough := None;
      moment := world;
      OnwardStderr(orderly, old(world), w, saved);
      OnwardMeans(orderly, old(world), w, file);
      StandingElsewhere(orderly, limit, w, world, ledger, file, phaseOffset, None);
      Readable(orderly, limit, world, ledger, file);
      OnwardReflexive(orderly, world);
      var source := world.path;
      var end := Size(file);
      ghost var measured := world;
      StandingOnward(orderly, limit, moment, world, ledger, file, phaseOffset, None);
      assert orderly ==> Ready(ledger.sink, file);
      var offset;
      ghost var passed;
      offset, passed := Copy(source, phaseOffset, false, Some(end));
      OnwardTransitive(orderly, moment, measured, world);
      OnwardMeans(orderly, moment, world, file);
      Extends(l, ledger, file, Some((file, 0)), passed);
      AllPassedOn(orderly, limit, moment, measured, world, ledger, file, offset);
      if old(retired).Some? {
        var r := old(retired).value.0;
        ClosedExtends(old(ledger), file, r, drained);
        AllOfRetired(old(world), r, l.done[r]);
        Extends(l, ledger, r, Some((file, 0)), passed);
      }
      FurtherTransitive(old(ledger), l, ledger);
      Readable(orderly, limit, world, ledger, file);
    }

    // Between phases nobody writes the capture file.
    method Trim()
      requires Valid() && passthrough.None?
      modifies this`world
      ensures Valid()
      ensures append ==> world == old(world)
      ensures !append ==>
                && world == old(world).(content := world.content, freed := world.freed)
                && world.content == old(world).content[file := Trimmed(old(world).content[file], limit)]
    {
      hide Tidy, Trimmed;
      if append {
        return;
      }
      if |world.content[file]| > limit {
        if orderly {
          TidyTrimmed(world, file, limit);
        }
        world := world.(content := world.content[file := Trimmed(world.content[file], limit)],
            freed := world.freed[file := 0]);
      } else {
        assert Trimmed(world.content[file], limit) == world.content[file];
      }
    }

    // Point fd 2 at the capture file, unless it is there already. Where an
    // earlier stderr is still saved it is given back first.
    method Take()
      requires Valid()
      modifies this
      ensures Valid()
      ensures closed == old(closed)
      ensures closed || old(world).stderr == file ==>
              world == old(world) && ledger == old(ledger) && passthrough == old(passthrough) && turns == old(turns)
      ensures !closed && old(world).stderr != old(file) ==>
                && world.stderr == file == old(file)
                && passthrough == Some(if old(passthrough).Some? then old(passthrough).value else old(world).stderr)
                && ledger == Ledger([], map[file := phaseOffset], map[file := phaseOffset])
                && phaseOffset == |world.content[file]| && retired.None? && turns == [Now()]
                && (old(passthrough).None? ==> KeptOf(old(world).content[file], append, limit, world.content[file]))
    {
      hide Onward, Standing, Flowing, Tidy, Trimmed;
      if closed || world.stderr == file {
        return;
      }
      if passthrough.Some? {
        var _ := HandBack();
      }
      Trim();
      var current := world.stderr;
      ghost var trimmed := world;
      phaseOffset := Size(file);
      OnwardMeans(orderly, trimmed, world, file);
      OnwardIsTidy(orderly, trimmed, world);
      passthrough := Some(current);
      world := world.(stderr := file);
      ledger := Ledger([], map[file := phaseOffset], map[file := phaseOffset]);
      turns := [Now()];
      TakenUpAtItsEnd(orderly, limit, world, file);
    }

    method Close()
      requires Valid()
      modifies this
      ensures Valid() && closed && passthrough.None?
      ensures old(closed) ==> world == old(world)
      ensures !old(closed) && old(passthrough).Some? ==> world.stderr == old(passthrough).value
    {
      if closed {
        return;
      }
      var _ := HandBack();
      closed := true;
    }

    // A session of lanes: fd 2 taken once, drained any number of times, with
    // pytest pointing fd 2 elsewhere and others writing whenever they like,
    // and given back. Every capture file's bytes reach the saved stderr once
    // and in order, from where the file was taken up: of the last file all
    // that was written before fd 2 was given back, of each earlier one all
    // that it held when the drain that read it last began, which is the one
    // that rotated the file after it away, or when fd 2 was given back. In an
    // orderly run no line is broken by another file's.
    method Session(drains: nat) returns (ghost moment: World)
      requires Valid() && !closed && passthrough.None? && world.stderr != file
      modifies this
      ensures Valid() && passthrough.None? && world.stderr == old(world).stderr
      ensures Conserved(world, ledger) && RingKept(limit, world, ledger)
      ensures Completing(ledger.sink) && (orderly ==> Unbroken(ledger.sink))
      ensures Turns(turns, ledger.start) && |turns| == drains + 1
      ensures turns[0].file == old(file) && turns[0].retired.None? && turns[drains].file == file
      ensures old(file) in ledger.start && old(file) in turns[0].world.content
      ensures ledger.start[old(file)] == |turns[0].world.content[old(file)]|
      ensures forall f :: f in ledger.start && f != file ==> Followed(turns, ledger, f)
      ensures Finished(moment, ledger, file) && Grown(turns[drains].world, moment)
      ensures moment.stderr == old(world).stderr && Onward(orderly, moment, world)
    {
      hide Onward, Standing, Flowing, Conserved, RingKept, Tidy, Unbroken, Completing, InOrder, Turns, AllFollowed,
           Proceeds, Finished, Further, Grown, Recorded, Followed, KeptOf;
      Take();
      FirstTurn(turns[0], ledger);
      RecordedFirst(turns[0], ledger);
      DrainAll(drains, file);
      moment := EndSession(old(file));
    }

    method DrainAll(drains: nat, ghost first: nat)
      requires Valid() && !closed && passthrough.Some? && Recorded(turns, ledger, Now(), first)
      modifies this`world, this`ledger, this`retired, this`file, this`phaseOffset, this`released, this`turns
      ensures Valid() && |turns| == |old(turns)| + drains && Recorded(turns, ledger, Now(), first)
    {
      hide Standing, Flowing, Tidy, Recorded;
      for n := 0 to drains
        invariant Valid() && |turns| == |old(turns)| + n && Recorded(turns, ledger, Now(), first)
      {
        DrainOnce(first);
      }
    }

    // fd 2 given back at the end of a session.
    method EndSession(ghost first: nat) returns (ghost moment: World)
      requires Valid() && !closed && passthrough.Some? && Recorded(turns, ledger, Now(), first)
      modifies this`world, this`ledger, this`retired, this`passthrough
      ensures Valid() && passthrough.None? && world.stderr == moment.stderr == old(passthrough).value
      ensures Conserved(world, ledger) && RingKept(limit, world, ledger)
      ensures Completing(ledger.sink) && (orderly ==> Unbroken(ledger.sink))
      ensures turns != [] && Turns(turns, ledger.start)
      ensures turns[0].file == first && turns[0].retired.None? && turns[|turns| - 1].file == file
      ensures first in ledger.start && first in turns[0].world.content
      ensures ledger.start[first] == |turns[0].world.content[first]|
      ensures forall f :: f in ledger.start && f != file ==> Followed(turns, ledger, f)
      ensures Finished(moment, ledger, file) && Grown(turns[|turns| - 1].world, moment)
      ensures Onward(orderly, moment, world)
    {
      hide Onward, Standing, Flowing, Conserved, RingKept, Tidy, Unbroken, Completing, Turns, AllFollowed, Finished,
           Further, Grown, Recorded, Followed;
      ghost var l, was, saved := ledger, world, passthrough.value;
      RecordedMeans(turns, l, Now(), first);
      moment := HandBack();
      FlowingMeans(orderly, limit, world, ledger);
      OnwardGrown(orderly, was.(stderr := saved), moment);
      GrownElsewhere(was.(stderr := saved), moment, was, moment);
      AllReadToTheirEnds(turns, l, ledger);
    }

    // One drain of a session, pytest having pointed fd 2 anywhere before it.
    method DrainOnce(ghost first: nat)
      requires Valid() && !closed && passthrough.Some? && Recorded(turns, ledger, Now(), first)
      modifies this`world, this`ledger, this`retired, this`file, this`phaseOffset, this`released, this`turns
      ensures Valid() && |turns| == |old(turns)| + 1 && Recorded(turns, ledger, Now(), first)
    {
      hide Onward, Standing, Flowing, InOrder, Proceeds, Finished, Further, Recorded, Tidy;
      ghost var l, before, now := ledger, turns, Now();
      var elsewhere: nat := *;
      Repoint(elsewhere);
      ghost var pointed := world;
      ghost var _, seen := Drain();
      FurtherTransitive(l, seen, ledger);
      RecordedOn(before, l, now, first, pointed, ledger, Now());
    }

    // pytest points fd 2 at its own file.
    method Repoint(fd: nat)
      requires Valid()
      modifies this`world
      ensures Valid() && world == old(world).(stderr := fd)
    {
      hide Standing, Tidy;
      ghost var w := world;
      world := world.(stderr := fd);
      if passthrough.Some? {
        StandingElsewhere(orderly, limit, w, world, ledger, file, phaseOffset, retired);
      }
      TidyElsewhere(w, world);
    }
  }

  lemma TidyElsewhere(w: World, x: World)
    requires x.content == w.content
    ensures Tidy(w) ==> Tidy(x)
  {
  }
}
