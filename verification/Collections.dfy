// What every worker of a run collected, kept as one digest per worker and one
// list per distinct collection, and how two collections differ.
module Collections {
  import opened Basics

  const VARIANTS_KEPT: nat := 5
  const NUL: char := '\0'

  // ---- the digest ----

  // The text that is hashed: every id, each ended by a NUL.
  function Encoded(ids: seq<string>): string {
    if ids == [] then "" else Encoded(ids[..|ids| - 1]) + ids[|ids| - 1] + [NUL]
  }

  function DigestOf(hash: string -> string, ids: seq<string>): string {
    hash(Encoded(ids))
  }

  predicate NulFree(ids: seq<string>) {
    forall i :: 0 <= i < |ids| ==> NUL !in ids[i]
  }

  ghost predicate Injective(hash: string -> string) {
    forall a, b :: hash(a) == hash(b) ==> a == b
  }

  // Where a NUL-free piece lies behind one that ends in a NUL, if it has an end.
  lemma LastPieceStart(a: string, x: string, b: string, y: string)
    requires a + x == b + y && NUL !in x && (b == "" || b[|b| - 1] == NUL)
    ensures |b| <= |a|
  {
    var s := a + x;
    forall k | |a| <= k < |s|
      ensures s[k] != NUL
    {
      assert s[k] == x[k - |a|];
    }
    assert b != "" ==> s[|b| - 1] == b[|b| - 1];
  }

  lemma LastPiece(a: string, x: string, b: string, y: string)
    requires a + x == b + y && NUL !in x && NUL !in y
    requires (a == "" || a[|a| - 1] == NUL) && (b == "" || b[|b| - 1] == NUL)
    ensures a == b && x == y
  {
    LastPieceStart(a, x, b, y);
    LastPieceStart(b, y, a, x);
    assert a == (a + x)[..|a|] == b;
    assert x == (a + x)[|a|..] == y;
  }

  lemma EncodedEnds(ids: seq<string>)
    ensures Encoded(ids) == "" || Encoded(ids)[|Encoded(ids)| - 1] == NUL
    ensures Encoded(ids) == "" <==> ids == []
  {
  }

  lemma {:induction false} EncodedInjective(a: seq<string>, b: seq<string>)
    requires NulFree(a) && NulFree(b) && Encoded(a) == Encoded(b)
    ensures a == b
    decreases |a|
  {
    EncodedEnds(a);
    EncodedEnds(b);
    if a != [] {
      var (x, y) := (a[..|a| - 1], b[..|b| - 1]);
      EncodedEnds(x);
      EncodedEnds(y);
      var (p, q) := (Encoded(x) + a[|a| - 1], Encoded(y) + b[|b| - 1]);
      assert p == Encoded(a)[..|Encoded(a)| - 1] == q;
      LastPiece(Encoded(x), a[|a| - 1], Encoded(y), b[|b| - 1]);
      EncodedInjective(x, y);
      assert a == x + [a[|a| - 1]] && b == y + [b[|b| - 1]];
    }
  }

  // An id cut at its NULs.
  function Cut(id: string): (pieces: seq<string>)
    ensures NulFree(pieces)
    ensures NUL !in id ==> pieces == [id]
  {
    if NUL !in id then [id]
    else
      var i := IndexOf(id, NUL);
      [id[..i]] + Cut(id[i + 1..])
  }

  function Pieces(ids: seq<string>): (pieces: seq<string>)
    ensures NulFree(pieces)
  {
    if ids == [] then [] else Pieces(ids[..|ids| - 1]) + Cut(ids[|ids| - 1])
  }

  lemma {:induction false} EncodedConcat(a: seq<string>, b: seq<string>)
    ensures Encoded(a + b) == Encoded(a) + Encoded(b)
    decreases |b|
  {
    if b == [] {
      assert a + b == a;
    } else {
      assert (a + b)[..|a + b| - 1] == a + b[..|b| - 1];
      EncodedConcat(a, b[..|b| - 1]);
    }
  }

  lemma {:induction false} CutEncodes(id: string)
    ensures Encoded(Cut(id)) == id + [NUL]
    decreases |id|
  {
    hide Encoded, NulFree;
    if NUL !in id {
      EncodedOne(id);
    } else {
      var i := IndexOf(id, NUL);
      CutEncodes(id[i + 1..]);
      CutOnce(id, i);
    }
  }

  lemma CutOnce(id: string, i: nat)
    requires NUL in id && i == IndexOf(id, NUL)
    requires Encoded(Cut(id[i + 1..])) == id[i + 1..] + [NUL]
    ensures Encoded(Cut(id)) == id + [NUL]
  {
    hide Encoded, NulFree, IndexOf, Cut;
    CutUnfolds(id, i);
    EncodedConcat([id[..i]], Cut(id[i + 1..]));
    EncodedOne(id[..i]);
    CutAt(id, i);
  }

  lemma CutUnfolds(id: string, i: nat)
    requires NUL in id && i == IndexOf(id, NUL)
    ensures Cut(id) == [id[..i]] + Cut(id[i + 1..])
  {
    hide NulFree, IndexOf;
  }

  lemma CutAt(id: string, i: nat)
    requires i < |id| && id[i] == NUL
    ensures id[..i] + [NUL] + (id[i + 1..] + [NUL]) == id + [NUL]
  {
  }

  lemma EncodedOne(id: string)
    ensures Encoded([id]) == id + [NUL]
  {
    assert [id][..0] == [];
  }

  lemma {:induction false} PiecesEncode(ids: seq<string>)
    ensures Encoded(Pieces(ids)) == Encoded(ids)
    decreases |ids|
  {
    if ids != [] {
      var n := |ids| - 1;
      PiecesEncode(ids[..n]);
      CutEncodes(ids[n]);
      EncodedConcat(Pieces(ids[..n]), Cut(ids[n]));
    }
  }

  // For any ids at all: two lists are hashed alike exactly if cutting every id
  // at its NULs leaves the same list. A NUL inside an id hides where it ends.
  lemma EncodedAlikeIff(a: seq<string>, b: seq<string>)
    ensures Encoded(a) == Encoded(b) <==> Pieces(a) == Pieces(b)
  {
    PiecesEncode(a);
    PiecesEncode(b);
    if Encoded(a) == Encoded(b) {
      EncodedInjective(Pieces(a), Pieces(b));
    }
  }

  // Two lists that are, and are not the same.
  lemma NulCollides(hash: string -> string)
    ensures var (a, b) := (["a" + [NUL] + "b"], ["a", "b"]); a != b && DigestOf(hash, a) == DigestOf(hash, b)
  {
    var (a, b) := (["a" + [NUL] + "b"], ["a", "b"]);
    assert Encoded(a[..0]) == "" && b[..1][..0] == [];
    assert Encoded(b[..1]) == "a" + [NUL];
    assert Encoded(a) == "a" + [NUL] + "b" + [NUL] == Encoded(b);
  }

  // ---- ids without their parameters ----

  function IndexOf(s: string, c: char): (i: nat)
    ensures i <= |s| && (i < |s| ==> s[i] == c) && forall k :: 0 <= k < i ==> s[k] != c
  {
    if s == "" then 0 else if s[0] == c then 0 else 1 + IndexOf(s[1..], c)
  }

  // What is left is the id up to the first bracket, where it ends in one.
  function WithoutParameters(id: string): (r: string)
    ensures r <= id
    ensures r == id <==> id == "" || id[|id| - 1] != ']' || '[' !in id
    ensures r != id ==> id[|r|] == '[' && '[' !in r
  {
    if id != "" && id[|id| - 1] == ']' then id[..IndexOf(id, '[')] else id
  }

  function AllWithout(ids: seq<string>): (r: seq<string>)
    ensures |r| == |ids|
    ensures NulFree(ids) ==> NulFree(r)
  {
    seq(|ids|, i requires 0 <= i < |ids| => WithoutParameters(ids[i]))
  }

  // ---- order ----

  predicate Before(a: string, b: string) {
    b != "" && (a == "" || a[0] < b[0] || (a[0] == b[0] && Before(a[1..], b[1..])))
  }

  // Whichever has the smaller character where they first differ, or is where
  // the other goes on.
  lemma {:induction false} BeforeIff(a: string, b: string)
    ensures Before(a, b) <==>
              a != b && (a <= b || exists k :: 0 <= k < |a| && k < |b| && a[..k] == b[..k] && a[k] < b[k])
    decreases |a|
  {
    if a != "" && b != "" && a[0] == b[0] {
      BeforeIff(a[1..], b[1..]);
      assert a == [a[0]] + a[1..] && b == [b[0]] + b[1..];
      if k :| 0 <= k < |a[1..]| && k < |b[1..]| && a[1..][..k] == b[1..][..k] && a[1..][k] < b[1..][k] {
        assert a[..k + 1] == [a[0]] + a[1..][..k] && b[..k + 1] == [b[0]] + b[1..][..k];
        assert a[k + 1] < b[k + 1];
      }
      if k :| 0 <= k < |a| && k < |b| && a[..k] == b[..k] && a[k] < b[k] {
        assert a[1..][..k - 1] == a[..k][1..] && b[1..][..k - 1] == b[..k][1..];
        assert a[1..][k - 1] < b[1..][k - 1];
      }
    } else if a != "" && b != "" {
      assert a[0] < b[0] ==> a[..0] == b[..0];
      forall k | 0 < k < |a| && k < |b|
        ensures a[..k] != b[..k]
      {
        assert a[..k][0] != b[..k][0];
      }
    }
  }

  lemma {:induction false} NeverBeforeItself(a: string)
    ensures !Before(a, a)
  {
    if a != "" {
      NeverBeforeItself(a[1..]);
    }
  }

  lemma {:induction false} BeforeIsTotal(a: string, b: string)
    ensures Before(a, b) || Before(b, a) || a == b
    ensures !(Before(a, b) && Before(b, a)) && !Before(a, a)
    decreases |a|
  {
    NeverBeforeItself(a);
    if a != "" && b != "" && a[0] == b[0] {
      BeforeIsTotal(a[1..], b[1..]);
      assert a == [a[0]] + a[1..] && b == [b[0]] + b[1..];
    }
  }

  lemma {:induction false} BeforeIsTransitive(a: string, b: string, c: string)
    requires Before(a, b) && Before(b, c)
    ensures Before(a, c)
    decreases |a|
  {
    if a != "" && a[0] == b[0] == c[0] {
      BeforeIsTransitive(a[1..], b[1..], c[1..]);
    }
  }

  predicate Sorted(s: seq<string>) {
    forall i, j :: 0 <= i < j < |s| ==> !Before(s[j], s[i])
  }

  // ---- what one collection has that another does not ----

  method SortedElements(m: multiset<string>) returns (s: seq<string>)
    ensures multiset(s) == m && Sorted(s)
  {
    s := [];
    var left := m;
    while left != multiset{}
      invariant multiset(s) + left == m && Sorted(s)
      decreases |left|
    {
      var x :| x in left;
      left := left - multiset{x};
      s := Inserted(s, x);
    }
  }

  method Inserted(s: seq<string>, x: string) returns (r: seq<string>)
    requires Sorted(s)
    ensures Sorted(r) && multiset(r) == multiset(s) + multiset{x}
  {
    var i := |s|;
    while i > 0 && Before(x, s[i - 1])
      invariant 0 <= i <= |s| && forall k :: i <= k < |s| ==> Before(x, s[k])
    {
      i := i - 1;
    }
    assert s == s[..i] + s[i..];
    r := s[..i] + [x] + s[i..];
    InsertedIsSorted(s, i, x);
  }

  lemma InsertedIsSorted(s: seq<string>, i: nat, x: string)
    requires Sorted(s) && i <= |s| && (forall k :: i <= k < |s| ==> Before(x, s[k])) && (i > 0 ==> !Before(x, s[i - 1]))
    ensures Sorted(s[..i] + [x] + s[i..])
  {
    forall k | i <= k < |s|
      ensures !Before(s[k], x)
    {
      BeforeIsTotal(x, s[k]);
    }
    forall k | 0 <= k < i
      ensures !Before(x, s[k])
    {
      if Before(x, s[k]) && k < i - 1 {
        BeforeIsTotal(s[k], s[i - 1]);
        if Before(s[k], s[i - 1]) {
          BeforeIsTransitive(x, s[k], s[i - 1]);
        }
      }
    }
  }

  method FirstDivergence(a: seq<string>, b: seq<string>) returns (index: Option<nat>)
    ensures index.Some? ==>
              && index.value < |a| && index.value < |b|
              && a[index.value] != b[index.value] && a[..index.value] == b[..index.value]
    ensures index.None? ==> a <= b || b <= a
  {
    var i := 0;
    while i < |a| && i < |b|
      invariant i <= |a| && i <= |b| && a[..i] == b[..i]
    {
      if a[i] != b[i] {
        return Some(i);
      }
      i := i + 1;
    }
    return None;
  }

  datatype Difference =
    | Order(index: Option<nat>, diverged: seq<string>)
    | Membership(missingCount: nat, extraCount: nat, missing: seq<string>, extra: seq<string>)

  // The whole of both sides, before the report keeps the first of each.
  method Compare(a: seq<string>, b: seq<string>) returns (missing: seq<string>, extra: seq<string>)
    ensures multiset(missing) == multiset(a) - multiset(b) && multiset(extra) == multiset(b) - multiset(a)
    ensures Sorted(missing) && Sorted(extra)
    // the variant is the baseline less what is missing and with what is extra
    ensures multiset(a) - multiset(missing) + multiset(extra) == multiset(b)
    ensures multiset(missing) !! multiset(extra)
  {
    missing := SortedElements(multiset(a) - multiset(b));
    extra := SortedElements(multiset(b) - multiset(a));
  }

  // What a report on two collections says of them.
  ghost predicate Explains(d: Difference, a: seq<string>, b: seq<string>, kept: nat) {
    match d
    case Order(index, diverged) =>
      // two orders of the same tests: where they first disagree, unless they are the same
      && multiset(a) == multiset(b)
      && (if index.None? then a == b && diverged == []
          else
            && index.value < |a| && index.value < |b| && a[..index.value] == b[..index.value]
            && a[index.value] != b[index.value] && diverged == [a[index.value], b[index.value]])
    case Membership(missingCount, extraCount, missing, extra) =>
      && multiset(a) != multiset(b)
      && FirstOf(missing, missingCount, multiset(a) - multiset(b), kept)
      && FirstOf(extra, extraCount, multiset(b) - multiset(a), kept)
  }

  // The first `kept` of `m` in order, and how many there are.
  ghost predicate FirstOf(s: seq<string>, count: nat, m: multiset<string>, kept: nat) {
    exists all: seq<string> :: multiset(all) == m && Sorted(all) && |all| == count && s == all[..Min(kept, |all|)]
  }

  method MakeDifference(baseline: seq<string>, variant: seq<string>, kept: nat) returns (d: Difference)
    ensures Explains(d, baseline, variant, kept)
  {
    var missing, extra := Compare(baseline, variant);
    SizeOf(missing);
    SizeOf(extra);
    if missing == [] && extra == [] {
      assert multiset(missing) == multiset{} && multiset(extra) == multiset{};
      assert multiset(baseline) == multiset(variant);
      var index := FirstDivergence(baseline, variant);
      SameSize(baseline, variant);
      return Order(index, if index.Some? then [baseline[index.value], variant[index.value]] else []);
    }
    assert multiset(missing) != multiset{} || multiset(extra) != multiset{};
    d := Membership(|missing|, |extra|, missing[..Min(kept, |missing|)], extra[..Min(kept, |extra|)]);
  }

  lemma SizeOf(s: seq<string>)
    ensures |multiset(s)| == |s|
    ensures multiset(s) == multiset{} <==> s == []
  {
  }

  lemma SameSize(a: seq<string>, b: seq<string>)
    requires multiset(a) == multiset(b)
    ensures |a| == |b| && (a <= b ==> a == b) && (b <= a ==> a == b)
  {
    SizeOf(a);
    SizeOf(b);
  }

  // ---- the tracker ----

  // One distinct collection and the workers that have it.
  datatype Variant = Variant(digest: string, workers: set<string>, testCount: nat, replacements: set<string>)

  // Most workers first, then most tests, then by digest.
  predicate Leads(a: Variant, b: Variant) {
    || |a.workers| > |b.workers|
    || (|a.workers| == |b.workers|
          && (a.testCount > b.testCount || (a.testCount == b.testCount && Before(a.digest, b.digest))))
  }

  lemma LeadsIsTotal(a: Variant, b: Variant)
    ensures Leads(a, b) || Leads(b, a) || a.digest == b.digest
    ensures !(Leads(a, b) && Leads(b, a))
  {
    BeforeIsTotal(a.digest, b.digest);
  }

  lemma LeadsIsTransitive(a: Variant, b: Variant, c: Variant)
    requires Leads(a, b) && Leads(b, c)
    ensures Leads(a, c)
  {
    if Before(a.digest, b.digest) && Before(b.digest, c.digest) {
      BeforeIsTransitive(a.digest, b.digest, c.digest);
    }
  }

  predicate Led(vs: seq<Variant>) {
    forall i, j :: 0 <= i < j < |vs| ==> Leads(vs[i], vs[j])
  }

  method Ranked(vs: seq<Variant>, v: Variant) returns (r: seq<Variant>)
    requires Led(vs) && forall i :: 0 <= i < |vs| ==> vs[i].digest != v.digest
    ensures Led(r) && |r| == |vs| + 1 && (forall x :: x in r <==> x in vs || x == v)
  {
    var i := |vs|;
    while i > 0 && Leads(v, vs[i - 1])
      invariant 0 <= i <= |vs| && forall k :: i <= k < |vs| ==> Leads(v, vs[k])
    {
      i := i - 1;
    }
    r := vs[..i] + [v] + vs[i..];
    RankedIsLed(vs, i, v);
    assert vs == vs[..i] + vs[i..];
  }

  lemma RankedIsLed(vs: seq<Variant>, i: nat, v: Variant)
    requires Led(vs) && i <= |vs| && (forall k :: i <= k < |vs| ==> Leads(v, vs[k])) && (i > 0 ==> !Leads(v, vs[i - 1]))
    requires forall k :: 0 <= k < |vs| ==> vs[k].digest != v.digest
    ensures Led(vs[..i] + [v] + vs[i..])
  {
    forall k | 0 <= k < i
      ensures Leads(vs[k], v)
    {
      LeadsIsTotal(vs[i - 1], v);
      if k < i - 1 {
        LeadsIsTransitive(vs[k], vs[i - 1], v);
      }
    }
  }

  // How a variant is described against the first one.
  datatype Described = Described(variant: Variant, compared: bool, difference: Option<Difference>)

  // Workers whose digests disagree.
  lemma ValuesDiffer(m: map<string, string>)
    ensures |m.Values| > 1 <==> exists v, w :: v in m && w in m && m[v] != m[w]
  {
    if exists v, w :: v in m && w in m && m[v] != m[w] {
      var v, w :| v in m && w in m && m[v] != m[w];
      assert {m[v], m[w]} <= m.Values;
      SubsetSize({m[v], m[w]}, m.Values);
    } else if m != map[] {
      var v :| v in m;
      assert m.Values == {m[v]};
    } else {
      assert m.Values == {};
    }
  }

  // The tracker's tables, with the last list each worker sent and all there ever were.
  datatype Tables = Tables(digests: map<string, string>, stable: map<string, string>, kept: map<string, seq<string>>,
                           counts: map<string, nat>, lists: map<string, seq<string>>, ever: set<seq<string>>)

  // What is known of the tables from the lists the workers sent.
  ghost predicate DigestsInv(hash: string -> string, t: Tables) {
    && t.digests.Keys == t.stable.Keys == t.lists.Keys
    && (forall w :: w in t.lists ==> t.digests[w] == DigestOf(hash, t.lists[w]) && t.lists[w] in t.ever)
    && (forall w :: w in t.lists ==> t.stable[w] == DigestOf(hash, AllWithout(t.lists[w])))
  }

  // One list per distinct collection, of as many as are kept.
  ghost predicate KeptInv(hash: string -> string, t: Tables) {
    && |t.kept| <= VARIANTS_KEPT
    && (forall d :: d in t.kept ==> d == DigestOf(hash, t.kept[d]) && t.kept[d] in t.ever)
    && (forall w :: w in t.digests ==>
          t.digests[w] in t.counts && (t.digests[w] in t.kept || |t.kept| == VARIANTS_KEPT))
  }

  ghost predicate TablesInv(hash: string -> string, t: Tables) {
    DigestsInv(hash, t) && KeptInv(hash, t)
  }

  // What the digests rest on: a hash that tells texts apart, and ids without NULs.
  ghost predicate Clean(hash: string -> string, ever: set<seq<string>>) {
    Injective(hash) && forall ids :: ids in ever ==> NulFree(ids)
  }

  ghost predicate CountsInv(hash: string -> string, t: Tables)
    requires TablesInv(hash, t)
  {
    Clean(hash, t.ever) ==> forall w :: w in t.lists ==> t.counts[t.digests[w]] == |t.lists[w]|
  }

  function Kept(kept: map<string, seq<string>>, digest: string, ids: seq<string>): map<string, seq<string>> {
    if digest !in kept && |kept| < VARIANTS_KEPT then kept[digest := ids] else kept
  }

  ghost function AfterRecord(hash: string -> string, t: Tables, worker: string, ids: seq<string>): Tables {
    var digest := DigestOf(hash, ids);
    Tables(t.digests[worker := digest], t.stable[worker := DigestOf(hash, AllWithout(ids))], Kept(t.kept, digest, ids),
           t.counts[digest := |ids|], t.lists[worker := ids], t.ever + {ids})
  }

  lemma RecordKeepsTables(hash: string -> string, t: Tables, worker: string, ids: seq<string>)
    requires TablesInv(hash, t)
    ensures TablesInv(hash, AfterRecord(hash, t, worker, ids))
  {
    RecordKeepsDigests(hash, t, worker, ids);
    RecordKeepsKept(hash, t, worker, ids);
  }

  lemma RecordKeepsDigests(hash: string -> string, t: Tables, worker: string, ids: seq<string>)
    requires DigestsInv(hash, t)
    ensures DigestsInv(hash, AfterRecord(hash, t, worker, ids))
  {
    hide DigestOf, AllWithout, Kept;
  }

  lemma KeptAfter(kept: map<string, seq<string>>, digest: string, ids: seq<string>)
    requires |kept| <= VARIANTS_KEPT
    ensures var more := Kept(kept, digest, ids);
            && |more| <= VARIANTS_KEPT && (|kept| == VARIANTS_KEPT ==> |more| == VARIANTS_KEPT)
            && (forall d :: d in kept ==> d in more)
            && (forall d :: d in more ==> (d in kept && more[d] == kept[d]) || (d == digest && more[d] == ids))
            && (digest in more || |more| == VARIANTS_KEPT)
  {
  }

  lemma RecordKeepsKept(hash: string -> string, t: Tables, worker: string, ids: seq<string>)
    requires KeptInv(hash, t)
    ensures KeptInv(hash, AfterRecord(hash, t, worker, ids))
  {
    hide DigestOf, AllWithout, Kept;
    var u := AfterRecord(hash, t, worker, ids);
    KeptAfter(t.kept, DigestOf(hash, ids), ids);
    forall d | d in u.kept
      ensures d == DigestOf(hash, u.kept[d]) && u.kept[d] in u.ever
    {
    }
    forall w | w in u.digests
      ensures u.digests[w] in u.counts && (u.digests[w] in u.kept || |u.kept| == VARIANTS_KEPT)
    {
    }
  }

  lemma RecordKeepsCounts(hash: string -> string, t: Tables, worker: string, ids: seq<string>)
    requires TablesInv(hash, t) && CountsInv(hash, t) && TablesInv(hash, AfterRecord(hash, t, worker, ids))
    ensures CountsInv(hash, AfterRecord(hash, t, worker, ids))
  {
    hide DigestOf, AllWithout, NulFree, Injective;
    var u := AfterRecord(hash, t, worker, ids);
    assert ids in u.ever && forall l :: l in t.ever ==> l in u.ever;
    if Clean(hash, u.ever) {
      forall w | w in u.lists
        ensures u.counts[u.digests[w]] == |u.lists[w]|
      {
        SameDigestSameList(hash, u.lists[w], ids);
      }
    }
  }

  // Two workers have one digest exactly if they collected one list.
  lemma SameDigestSameList(hash: string -> string, a: seq<string>, b: seq<string>)
    requires Injective(hash) && NulFree(a) && NulFree(b)
    ensures DigestOf(hash, a) == DigestOf(hash, b) <==> a == b
  {
    if DigestOf(hash, a) == DigestOf(hash, b) {
      EncodedInjective(a, b);
    }
  }

  // Whether the collections disagree is what the digests say, and likewise of
  // the tests without their parameters.
  lemma MismatchIffListsDiffer(hash: string -> string, t: Tables)
    requires TablesInv(hash, t) && Clean(hash, t.ever)
    ensures |t.digests.Values| > 1 <==> exists v, w :: v in t.lists && w in t.lists && t.lists[v] != t.lists[w]
    ensures |t.stable.Values| > 1 <==>
              exists v, w :: v in t.lists && w in t.lists && AllWithout(t.lists[v]) != AllWithout(t.lists[w])
  {
    hide DigestOf, NulFree, Injective;
    ValuesDiffer(t.digests);
    ValuesDiffer(t.stable);
    forall v, w | v in t.lists && w in t.lists
      ensures t.digests[v] == t.digests[w] <==> t.lists[v] == t.lists[w]
      ensures t.stable[v] == t.stable[w] <==> AllWithout(t.lists[v]) == AllWithout(t.lists[w])
    {
      SameDigestSameList(hash, t.lists[v], t.lists[w]);
      SameDigestSameList(hash, AllWithout(t.lists[v]), AllWithout(t.lists[w]));
    }
  }

  lemma OneValue(m: map<string, string>)
    requires m != map[]
    ensures |m.Values| == 1 <==> !(|m.Values| > 1)
  {
    var k :| k in m;
    assert m[k] in m.Values;
  }

  function Of(digests: map<string, string>, digest: string): set<string> {
    set w | w in digests && digests[w] == digest
  }

  function Get(counts: map<string, nat>, digest: string): nat {
    if digest in counts then counts[digest] else 0
  }

  // The row of one distinct collection.
  function RowOf(digests: map<string, string>, counts: map<string, nat>, replacements: set<string>,
                 digest: string): Variant {
    Variant(digest, Of(digests, digest), Get(counts, digest), Of(digests, digest) * replacements)
  }

  // One row per distinct collection, the majority's first; so each worker is
  // in exactly the one its digest names.
  ghost predicate AreVariants(vs: seq<Variant>, digests: map<string, string>, counts: map<string, nat>,
                              replacements: set<string>) {
    && Led(vs) && (forall v :: v in vs ==> v == RowOf(digests, counts, replacements, v.digest))
    && (set v | v in vs :: v.digest) == digests.Values
  }

  lemma RankedRows(vs: seq<Variant>, v: Variant, more: seq<Variant>)
    requires forall x :: x in more <==> x in vs || x == v
    ensures (set x | x in more :: x.digest) == (set x | x in vs :: x.digest) + {v.digest}
  {
    assert v in more;
  }

  lemma NewDigest(vs: seq<Variant>, d: string)
    requires d !in (set v | v in vs :: v.digest)
    ensures forall i :: 0 <= i < |vs| ==> vs[i].digest != d
  {
    forall i | 0 <= i < |vs|
      ensures vs[i].digest != d
    {
      assert vs[i] in vs;
    }
  }

  method RankVariants(digests: map<string, string>, counts: map<string, nat>,
                      replacements: set<string>) returns (vs: seq<Variant>)
    ensures AreVariants(vs, digests, counts, replacements)
  {
    hide Leads, RowOf;
    vs := [];
    var left := digests.Values;
    while left != {}
      invariant left <= digests.Values && Led(vs)
      invariant forall v :: v in vs ==> v == RowOf(digests, counts, replacements, v.digest)
      invariant (set v | v in vs :: v.digest) == digests.Values - left
      decreases |left|
    {
      var d :| d in left;
      RowsDigest(digests, counts, replacements, d);
      NewDigest(vs, d);
      var more := Ranked(vs, RowOf(digests, counts, replacements, d));
      RankedRows(vs, RowOf(digests, counts, replacements, d), more);
      vs := more;
      left := left - {d};
    }
  }

  lemma RowsDigest(digests: map<string, string>, counts: map<string, nat>, replacements: set<string>, d: string)
    ensures RowOf(digests, counts, replacements, d).digest == d
  {
  }

  // Each worker is in the one row its digest names, and in no other.
  lemma VariantsPartition(vs: seq<Variant>, digests: map<string, string>, counts: map<string, nat>,
                          replacements: set<string>, w: string)
    requires AreVariants(vs, digests, counts, replacements) && w in digests
    ensures exists i :: 0 <= i < |vs| && w in vs[i].workers
    ensures forall i, j :: 0 <= i < |vs| && 0 <= j < |vs| && w in vs[i].workers && w in vs[j].workers ==> i == j
    ensures forall i, j :: 0 <= i < j < |vs| ==>
              || |vs[i].workers| > |vs[j].workers|
              || (|vs[i].workers| == |vs[j].workers| && vs[i].testCount > vs[j].testCount)
              || (|vs[i].workers| == |vs[j].workers| && vs[i].testCount == vs[j].testCount
                  && Before(vs[i].digest, vs[j].digest))
    ensures forall i :: 0 <= i < |vs| && w in vs[i].workers ==>
              vs[i].digest == digests[w] && (w in vs[i].replacements <==> w in replacements)
    ensures forall i :: 0 <= i < |vs| ==> vs[i].replacements <= vs[i].workers
  {
    assert digests[w] in digests.Values;
    var v :| v in vs && v.digest == digests[w];
    var i :| 0 <= i < |vs| && vs[i] == v;
    assert w in vs[i].workers;
    forall i, j | 0 <= i < j < |vs|
      ensures w in vs[i].workers && w in vs[j].workers ==> vs[i] == vs[j]
      ensures Leads(vs[i], vs[j]) && vs[i] != vs[j]
    {
      assert vs[i] in vs && vs[j] in vs;
      NeverBeforeItself(vs[i].digest);
    }
  }

  class CollectionTracker {
    const hash: string -> string
    var digestByWorker: map<string, string>
    var stableDigestByWorker: map<string, string>
    var idsByDigest: map<string, seq<string>>
    var countByDigest: map<string, nat>
    var replacements: set<string>

    ghost var lists: map<string, seq<string>>
    ghost var ever: set<seq<string>>

    ghost function Now(): Tables
      reads this
    {
      Tables(digestByWorker, stableDigestByWorker, idsByDigest, countByDigest, lists, ever)
    }

    ghost predicate Valid()
      reads this
    {
      TablesInv(hash, Now()) && CountsInv(hash, Now())
    }

    constructor (hash: string -> string)
      ensures Valid() && this.hash == hash && Now() == Tables(map[], map[], map[], map[], map[], {})
    {
      this.hash := hash;
      digestByWorker, stableDigestByWorker, idsByDigest, countByDigest, replacements := map[], map[], map[], map[], {};
      lists, ever := map[], {};
    }

    method Record(worker: string, ids: seq<string>, replacement: bool)
      requires Valid()
      modifies this
      ensures Valid() && Now() == AfterRecord(hash, old(Now()), worker, ids)
      ensures replacements == old(replacements) + (if replacement then {worker} else {})
    {
      hide TablesInv, CountsInv, DigestOf, AllWithout;
      RecordKeepsTables(hash, Now(), worker, ids);
      RecordKeepsCounts(hash, Now(), worker, ids);
      var digest, stable := DigestOf(hash, ids), DigestOf(hash, AllWithout(ids));
      var kept := idsByDigest;
      if digest !in kept && |kept| < VARIANTS_KEPT {
        kept := kept[digest := ids];
      }
      digestByWorker, stableDigestByWorker, countByDigest, idsByDigest, lists, ever :=
        digestByWorker[worker := digest], stableDigestByWorker[worker := stable], countByDigest[digest := |ids|], kept,
        lists[worker := ids], ever + {ids};
      if replacement {
        replacements := replacements + {worker};
      }
    }

    function HasMismatch(): bool
      reads this
    {
      |digestByWorker.Values| > 1
    }

    // The same tests with different parameters.
    function ParametersUnstable(): bool
      reads this
    {
      HasMismatch() && |stableDigestByWorker.Values| == 1
    }

    lemma MismatchIsReal()
      requires Valid() && Clean(hash, ever)
      ensures HasMismatch() <==> exists v, w :: v in lists && w in lists && lists[v] != lists[w]
      ensures ParametersUnstable() <==>
                && (exists v, w :: v in lists && w in lists && lists[v] != lists[w])
                && forall v, w :: v in lists && w in lists ==> AllWithout(lists[v]) == AllWithout(lists[w])
    {
      MismatchIffListsDiffer(hash, Now());
      hide Clean, CountsInv, AllWithout, DigestOf;
      if stableDigestByWorker != map[] {
        OneValue(stableDigestByWorker);
      }
    }

    // A row's workers all collected one list, as long as the row says.
    lemma VariantsAreReal(vs: seq<Variant>, i: nat, v: string, w: string)
      requires Valid() && Clean(hash, ever) && AreVariants(vs, digestByWorker, countByDigest, replacements)
      requires i < |vs| && v in lists && w in lists && v in vs[i].workers
      ensures w in vs[i].workers <==> lists[w] == lists[v]
      ensures vs[i].testCount == |lists[v]|
    {
      hide DigestOf, NulFree, Injective, AllWithout;
      assert vs[i] in vs;
      SameDigestSameList(hash, lists[v], lists[w]);
      assert countByDigest[digestByWorker[v]] == |lists[v]|;
    }

    method Variants() returns (vs: seq<Variant>)
      ensures AreVariants(vs, digestByWorker, countByDigest, replacements)
    {
      vs := RankVariants(digestByWorker, countByDigest, replacements);
    }

    // Every minority variant against the majority. One whose list was dropped,
    // or all where the majority's was, is not compared.
    method Summarise(kept: nat) returns (rows: seq<Described>)
      requires Valid() && digestByWorker != map[]
      ensures AreVariants(seq(|rows|, i requires 0 <= i < |rows| => rows[i].variant), digestByWorker, countByDigest,
              replacements)
      ensures forall i :: 0 < i < |rows| ==>
                (rows[i].compared <==> rows[0].variant.digest in idsByDigest && rows[i].variant.digest in idsByDigest)
      ensures forall i :: 0 < i < |rows| && rows[i].compared ==>
                && rows[i].difference.Some? && rows[0].variant.digest in idsByDigest
                && rows[i].variant.digest in idsByDigest
                && Explains(rows[i].difference.value, idsByDigest[rows[0].variant.digest],
                    idsByDigest[rows[i].variant.digest], kept)
    {
      hide AreVariants, TablesInv, CountsInv, Explains;
      var vs := Variants();
      SomeVariant(vs, digestByWorker, countByDigest, replacements);
      var base := vs[0].digest;
      rows := [Described(vs[0], true, None)];
      for k := 1 to |vs|
        invariant |rows| == k && forall i :: 0 <= i < k ==> rows[i].variant == vs[i]
        invariant forall i :: 0 < i < k ==> (rows[i].compared <==> base in idsByDigest && vs[i].digest in idsByDigest)
        invariant forall i :: 0 < i < k && rows[i].compared ==>
                    rows[i].difference.Some?
                        && Explains(rows[i].difference.value, idsByDigest[base], idsByDigest[vs[i].digest], kept)
      {
        if base !in idsByDigest || vs[k].digest !in idsByDigest {
          rows := rows + [Described(vs[k], false, None)];
        } else {
          var d := MakeDifference(idsByDigest[base], idsByDigest[vs[k].digest], kept);
          rows := rows + [Described(vs[k], true, Some(d))];
        }
      }
      assert vs == seq(|rows|, i requires 0 <= i < |rows| => rows[i].variant);
    }
  }

  lemma SomeVariant(vs: seq<Variant>, digests: map<string, string>, counts: map<string, nat>, replacements: set<string>)
    requires AreVariants(vs, digests, counts, replacements) && digests != map[]
    ensures vs != []
  {
    var w :| w in digests;
    assert digests[w] in digests.Values;
  }
}
