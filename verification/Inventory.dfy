// A bounded inventory of the regular files under a root: a worklist walk that
// follows no link and stays out of one excluded tree, and the difference
// between a complete inventory and the first complete one.
module Inventory {
  import opened Basics

  // Path components below the root, which is [] itself.
  type Path = seq<string>

  // What a directory entry turns out to be. `Unknown` is one whose status
  // cannot be read.
  datatype Kind = Regular(size: nat) | Directory(readable: bool) | Link | Special | Unknown

  // A tree that stands still: what is at each path, and what each directory lists.
  datatype Tree = Tree(kinds: map<Path, Kind>, names: map<Path, seq<string>>, excluded: Option<Path>)

  function Parent(p: Path): Path
    requires p != []
  {
    p[..|p| - 1]
  }

  predicate HasRoot(t: Tree) {
    [] in t.kinds && t.kinds[[]].Directory? && t.excluded != Some([])
  }

  // Everything but the root is listed, once, by the directory it is in.
  predicate ListsAll(t: Tree) {
    && (forall p :: p in t.kinds && p != [] ==>
          Parent(p) in t.names && p[|p| - 1] in t.names[Parent(p)])
    && (forall d :: d in t.names ==> forall i, j :: 0 <= i < j < |t.names[d]| ==> t.names[d][i] != t.names[d][j])
  }

  predicate ListsNoMore(t: Tree) {
    && (forall d :: d in t.kinds && t.kinds[d].Directory? ==> d in t.names)
    && (forall d :: d in t.names ==> forall i :: 0 <= i < |t.names[d]| ==> d + [t.names[d][i]] in t.kinds)
  }

  predicate WellFormed(t: Tree) {
    HasRoot(t) && ListsAll(t) && ListsNoMore(t)
  }

  // Whether `d` is a directory the walk should read: reached from the root
  // through directories alone, none of them the excluded one.
  predicate Open(t: Tree, d: Path)
    decreases |d|
  {
    && d in t.kinds && t.kinds[d].Directory? && Some(d) != t.excluded
    && (d == [] || (Open(t, Parent(d)) && t.kinds[Parent(d)].readable))
  }

  // Whether the walk should meet `p` as an entry.
  predicate Listed(t: Tree, p: Path) {
    p != [] && p in t.kinds && Open(t, Parent(p)) && t.kinds[Parent(p)].readable
  }

  predicate Wanted(t: Tree, p: Path) {
    Listed(t, p) && t.kinds[p].Regular? && Some(p) != t.excluded
  }

  function AllListed(t: Tree): set<Path> {
    set p | p in t.kinds && Listed(t, p)
  }

  // The inventory a complete scan should leave.
  function AllFiles(t: Tree): map<Path, nat> {
    map p | p in t.kinds && Wanted(t, p) :: t.kinds[p].size
  }

  // Whether anything the walk should read cannot be.
  predicate Troubled(t: Tree, p: Path) {
    (Listed(t, p) && t.kinds[p].Unknown?) || (Open(t, p) && !t.kinds[p].readable)
  }

  ghost function AllTroubled(t: Tree): set<Path> {
    set p | p in t.kinds && Troubled(t, p)
  }

  // ---- sums over a table ----

  ghost function Sum(m: map<Path, int>): int
    decreases |m|
  {
    if m == map[] then 0
    else
      var k :| k in m;
      m[k] + Sum(m - {k})
  }

  lemma {:induction false} SumPick(m: map<Path, int>, k: Path)
    requires k in m
    ensures Sum(m) == m[k] + Sum(m - {k})
    decreases |m|
  {
    var j :| j in m && Sum(m) == m[j] + Sum(m - {j});
    if j != k {
      SumPick(m - {j}, k);
      SumPick(m - {k}, j);
      assert (m - {j}) - {k} == (m - {k}) - {j};
    }
  }

  lemma SumOfNone()
    ensures Sum(map[]) == 0
  {
  }

  lemma SumAdds(m: map<Path, int>, k: Path, v: int)
    requires k !in m
    ensures Sum(m[k := v]) == Sum(m) + v && |m[k := v]| == |m| + 1
  {
    SumPick(m[k := v], k);
    assert m[k := v] - {k} == m;
  }

  // ---- the walk ----

  // Where the walk is: directories waiting, directories read, and entries met.
  datatype Walk = Walk(stack: seq<Path>, walked: set<Path>, seen: set<Path>, current: map<Path, nat>)

  const START := Walk([[]], {}, {}, map[])

  predicate Met(t: Tree, w: Walk, p: Path) {
    Listed(t, p) && Parent(p) in w.walked
  }

  ghost predicate WalkInv(t: Tree, w: Walk) {
    && (forall i :: 0 <= i < |w.stack| ==> Open(t, w.stack[i]) && w.stack[i] !in w.walked)
    && (forall i, j :: 0 <= i < j < |w.stack| ==> w.stack[i] != w.stack[j])
    && (forall d :: d in w.walked ==> Open(t, d))
    && (if w.walked == {} then w.stack == [[]] else [] in w.walked)
    && (forall d :: d in w.seen && Open(t, d) ==> d in w.walked || d in w.stack)
    && (forall d :: d in w.walked || d in w.stack ==> d == [] || d in w.seen)
    && (forall p :: p in w.seen ==> Listed(t, p))
    && (forall p :: p in w.current <==> p in w.seen && Wanted(t, p))
    && (forall p :: p in w.current ==> w.current[p] == t.kinds[p].size)
  }

  // Between two directories every entry of those read has been met, and no other.
  ghost predicate AtRest(t: Tree, w: Walk) {
    WalkInv(t, w) && forall p :: p in t.kinds ==> (p in w.seen <==> Met(t, w, p))
  }

  // Inside directory `d`, of which the first `i` names have been met.
  ghost predicate InDirectory(t: Tree, w: Walk, d: Path, i: nat) {
    && d in t.names && d in t.kinds && t.kinds[d].Directory? && t.kinds[d].readable && i <= |t.names[d]|
    && WalkInv(t, w) && d in w.walked
    && MetElsewhere(t, w, d) && MetHere(t, w, d, i)
  }

  ghost predicate MetElsewhere(t: Tree, w: Walk, d: Path) {
    forall p :: p in t.kinds && p != [] && Parent(p) != d ==> (p in w.seen <==> Met(t, w, p))
  }

  predicate MetHere(t: Tree, w: Walk, d: Path, i: nat)
    requires d in t.names
  {
    forall k :: 0 <= k < |t.names[d]| ==> (d + [t.names[d][k]] in w.seen <==> k < i)
  }

  function Popped(w: Walk): Walk
    requires w.stack != []
  {
    w.(stack := w.stack[..|w.stack| - 1], walked := w.walked + {w.stack[|w.stack| - 1]})
  }

  function WithEntry(t: Tree, w: Walk, p: Path): Walk
    requires p in t.kinds
  {
    w.(seen := w.seen + {p},
       stack := if t.kinds[p].Directory? && Some(p) != t.excluded then w.stack + [p] else w.stack,
       current := if t.kinds[p].Regular? && Some(p) != t.excluded then w.current[p := t.kinds[p].size] else w.current)
  }

  lemma StartsAtRest(t: Tree)
    requires HasRoot(t)
    ensures AtRest(t, START)
  {
    hide Wanted;
    assert Open(t, []);
  }

  lemma ChildOf(t: Tree, d: Path, k: nat)
    requires ListsNoMore(t) && d in t.names && k < |t.names[d]|
    ensures var p := d + [t.names[d][k]]; p != [] && p in t.kinds && Parent(p) == d
  {
    assert d + [t.names[d][k]] in t.kinds;
  }

  lemma PoppedIsOpen(t: Tree, w: Walk)
    requires AtRest(t, w) && w.stack != []
    ensures var d := w.stack[|w.stack| - 1];
            Open(t, d) && d in t.kinds && t.kinds[d].Directory? && d !in w.walked && WalkInv(t, Popped(w))
  {
    hide Wanted, Listed;
    var d := w.stack[|w.stack| - 1];
    var v := Popped(w);
    forall e | e in w.walked || e in w.stack
      ensures e in v.walked || e in v.stack
    {
      if e in w.stack && e != d {
        var i :| 0 <= i < |w.stack| && w.stack[i] == e;
        assert v.stack[i] == e;
      }
    }
    forall e | e in v.walked || e in v.stack
      ensures e in w.walked || e in w.stack
    {
    }
  }

  lemma EntersDirectory(t: Tree, w: Walk)
    requires ListsNoMore(t) && AtRest(t, w) && w.stack != []
    requires w.stack[|w.stack| - 1] in t.kinds && t.kinds[w.stack[|w.stack| - 1]] == Directory(true)
    ensures InDirectory(t, Popped(w), w.stack[|w.stack| - 1], 0)
  {
    PoppedIsOpen(t, w);
    hide WalkInv, Wanted, Listed;
    var d := w.stack[|w.stack| - 1];
    assert d in t.names;
    forall k | 0 <= k < |t.names[d]|
      ensures d + [t.names[d][k]] !in w.seen
    {
      ChildOf(t, d, k);
    }
    hide ListsNoMore;
  }

  lemma SkipsDirectory(t: Tree, w: Walk)
    requires AtRest(t, w) && w.stack != []
    requires w.stack[|w.stack| - 1] in t.kinds && t.kinds[w.stack[|w.stack| - 1]] == Directory(false)
    ensures AtRest(t, Popped(w))
  {
    PoppedIsOpen(t, w);
    hide WalkInv, Wanted;
  }

  // The next entry of the directory being read.
  lemma EntryIsNew(t: Tree, w: Walk, d: Path, i: nat)
    requires ListsNoMore(t) && InDirectory(t, w, d, i) && i < |t.names[d]|
    ensures var p := d + [t.names[d][i]];
            && p != [] && p in t.kinds && Parent(p) == d && Listed(t, p) && p !in w.seen && p !in w.current
            && p !in w.walked && p !in w.stack
            && (t.kinds[p].Directory? && Some(p) != t.excluded <==> Open(t, p))
            && (Wanted(t, p) <==> t.kinds[p].Regular? && Some(p) != t.excluded)
  {
    ChildOf(t, d, i);
    hide ListsNoMore;
  }

  lemma EntryKeepsWalk(t: Tree, w: Walk, p: Path)
    requires WalkInv(t, w) && w.walked != {} && Listed(t, p) && p !in w.seen && p !in w.walked && p !in w.stack
    requires t.kinds[p].Directory? && Some(p) != t.excluded <==> Open(t, p)
    ensures WalkInv(t, WithEntry(t, w, p))
  {
    hide Open;
    var v := WithEntry(t, w, p);
    forall d | d in w.stack
      ensures d in v.stack
    {
      var i :| 0 <= i < |w.stack| && w.stack[i] == d;
      assert v.stack[i] == d;
    }
    if v.stack != w.stack {
      assert v.stack[|v.stack| - 1] == p;
    }
  }

  // The names of a directory tell its entries apart, and leave none out.
  lemma NamesDiffer(t: Tree, d: Path, i: nat, k: nat)
    requires ListsAll(t) && d in t.names && i < |t.names[d]| && k < |t.names[d]|
    ensures d + [t.names[d][k]] == d + [t.names[d][i]] <==> k == i
  {
    assert (d + [t.names[d][k]])[|d|] == t.names[d][k] && (d + [t.names[d][i]])[|d|] == t.names[d][i];
    assert i < k ==> t.names[d][i] != t.names[d][k];
    assert k < i ==> t.names[d][k] != t.names[d][i];
  }

  lemma NameOf(t: Tree, p: Path) returns (k: nat)
    requires ListsAll(t) && p in t.kinds && p != []
    ensures Parent(p) in t.names && k < |t.names[Parent(p)]| && p == Parent(p) + [t.names[Parent(p)][k]]
  {
    assert p[|p| - 1] in t.names[Parent(p)];
    k :| k < |t.names[Parent(p)]| && t.names[Parent(p)][k] == p[|p| - 1];
  }

  lemma EntryIsHere(t: Tree, w: Walk, d: Path, i: nat)
    requires ListsAll(t) && d in t.names && i < |t.names[d]| && MetHere(t, w, d, i) && d + [t.names[d][i]] in t.kinds
    ensures MetHere(t, WithEntry(t, w, d + [t.names[d][i]]), d, i + 1)
  {
    forall k | 0 <= k < |t.names[d]|
      ensures d + [t.names[d][k]] in WithEntry(t, w, d + [t.names[d][i]]).seen <==> k < i + 1
    {
      NamesDiffer(t, d, i, k);
    }
    hide ListsAll;
  }

  lemma EntryKeepsDirectory(t: Tree, w: Walk, d: Path, i: nat)
    requires ListsAll(t) && ListsNoMore(t) && InDirectory(t, w, d, i) && i < |t.names[d]|
    ensures var p := d + [t.names[d][i]]; p in t.kinds && InDirectory(t, WithEntry(t, w, p), d, i + 1)
  {
    hide WalkInv, ListsAll, ListsNoMore, Wanted, Open, Listed, MetHere;
    EntryIsNew(t, w, d, i);
    var p := d + [t.names[d][i]];
    EntryIsHere(t, w, d, i);
    EntryKeepsWalk(t, w, p);
  }

  lemma DirectoryDone(t: Tree, w: Walk, d: Path)
    requires ListsAll(t) && d in t.names && InDirectory(t, w, d, |t.names[d]|)
    ensures AtRest(t, w)
  {
    hide Wanted, ListsAll, WalkInv;
    forall p | p in t.kinds && p != [] && Parent(p) == d
      ensures p in w.seen && Met(t, w, p)
    {
      var k := NameOf(t, p);
      WalkedIsOpen(t, w, d);
    }
    RootUnseen(t, w);
  }

  lemma WalkedIsOpen(t: Tree, w: Walk, d: Path)
    requires WalkInv(t, w) && d in w.walked
    ensures Open(t, d)
  {
    hide Open, Listed, Wanted;
  }

  lemma RootUnseen(t: Tree, w: Walk)
    requires WalkInv(t, w)
    ensures [] !in w.seen
  {
    hide Open, Wanted;
  }

  // Nothing waiting: every directory there is to read has been.
  lemma {:induction false} AllWalked(t: Tree, w: Walk, d: Path)
    requires AtRest(t, w) && w.stack == [] && Open(t, d)
    ensures d in w.walked
    decreases |d|
  {
    if d != [] {
      AllWalked(t, w, Parent(d));
      assert Met(t, w, d);
    }
  }

  lemma WalkIsComplete(t: Tree, w: Walk)
    requires AtRest(t, w) && w.stack == []
    ensures w.seen == AllListed(t) && w.current == AllFiles(t)
  {
    forall p | p in t.kinds
      ensures p in w.seen <==> Listed(t, p)
    {
      if Listed(t, p) {
        AllWalked(t, w, Parent(p));
      }
    }
    hide Open;
  }

  // ---- what stops a scan short ----

  lemma SeenIsListed(t: Tree, w: Walk, p: Path)
    requires WalkInv(t, w) && Listed(t, p) && p !in w.seen
    ensures |w.seen| < |AllListed(t)|
  {
    hide Open;
    assert p in AllListed(t) && w.seen <= AllListed(t) - {p};
    SubsetSize(w.seen, AllListed(t) - {p});
    assert |AllListed(t) - {p}| == |AllListed(t)| - 1;
  }

  lemma {:induction false} ShortStack(stack: seq<Path>, seen: set<Path>)
    requires forall i, j :: 0 <= i < j < |stack| ==> stack[i] != stack[j]
    requires forall i :: 0 <= i < |stack| ==> stack[i] in seen
    ensures |stack| <= |seen|
    decreases |stack|
  {
    if stack != [] {
      var p := stack[|stack| - 1];
      ShortStack(stack[..|stack| - 1], seen - {p});
      assert |seen - {p}| == |seen| - 1;
    }
  }

  // Neither the list of directories waiting nor that of files found can reach
  // a limit that the entries met have not.
  lemma ListsAreShort(t: Tree, w: Walk, d: Path, i: nat)
    requires InDirectory(t, w, d, i)
    ensures |w.stack| <= |w.seen| && |w.current| <= |w.seen|
  {
    forall k | 0 <= k < |w.stack|
      ensures w.stack[k] in w.seen
    {
      assert w.stack[k] in w.stack;
    }
    ShortStack(w.stack, w.seen);
    hide Open, Listed, Wanted;
    SubsetSize(w.current.Keys, w.seen);
    assert |w.current| == |w.current.Keys|;
  }

  predicate BadEntry(t: Tree, p: Path) {
    p in t.kinds && t.kinds[p].Unknown?
  }

  predicate BadDirectory(t: Tree, d: Path) {
    d in t.kinds && t.kinds[d] == Directory(false)
  }

  // What has been met that could not be read.
  ghost function Spotted(t: Tree, w: Walk): set<Path> {
    set p | p in w.seen + w.walked && ((p in w.seen && BadEntry(t, p)) || (p in w.walked && BadDirectory(t, p)))
  }

  // The scan's own counters are those of the walk.
  datatype Tally = Tally(stack: seq<Path>, current: map<Path, nat>, count: nat, total: int, errors: nat, visited: nat)

  ghost predicate Tallies(t: Tree, w: Walk, y: Tally) {
    && y.stack == w.stack && y.current == w.current && y.count == |w.current| && y.total == Sum(w.current)
    && y.visited == |w.seen| && y.errors == |Spotted(t, w)|
  }

  lemma StartsTallied(t: Tree)
    ensures Tallies(t, START, Tally([[]], map[], 0, 0, 0, 0))
  {
  }

  // Reading a directory, or failing to.
  function TallyPopped(t: Tree, y: Tally): Tally
    requires y.stack != []
  {
    y.(stack := y.stack[..|y.stack| - 1], errors := y.errors + if BadDirectory(t, y.stack[|y.stack| - 1]) then 1 else 0)
  }

  lemma PoppedTallies(t: Tree, w: Walk, y: Tally)
    requires w.stack != [] && Tallies(t, w, y) && w.stack[|w.stack| - 1] !in w.walked
    ensures Tallies(t, Popped(w), TallyPopped(t, y))
  {
    hide Sum, Spotted, BadDirectory;
    PoppedSpots(t, w);
  }

  lemma PoppedSpots(t: Tree, w: Walk)
    requires w.stack != [] && w.stack[|w.stack| - 1] !in w.walked
    ensures |Spotted(t, Popped(w))|
            == |Spotted(t, w)| + (if BadDirectory(t, w.stack[|w.stack| - 1]) then 1 else 0)
  {
    var d := w.stack[|w.stack| - 1];
    if BadDirectory(t, d) {
      assert Spotted(t, Popped(w)) == Spotted(t, w) + {d};
    } else {
      assert Spotted(t, Popped(w)) == Spotted(t, w);
    }
  }

  function TallyEntry(t: Tree, y: Tally, p: Path): Tally
    requires p in t.kinds
  {
    var kind := t.kinds[p];
    var z := y.(visited := y.visited + 1);
    if kind.Unknown? then z.(errors := y.errors + 1)
    else if Some(p) == t.excluded || kind.Link? then z
    else if kind.Directory? then z.(stack := y.stack + [p])
    else if kind.Regular?
        then z.(current := y.current[p := kind.size], count := y.count + 1, total := y.total + kind.size)
    else z
  }

  lemma EntryTallies(t: Tree, w: Walk, y: Tally, p: Path)
    requires Tallies(t, w, y) && p in t.kinds && p !in w.seen && p !in w.current
    ensures Tallies(t, WithEntry(t, w, p), TallyEntry(t, y, p))
  {
    hide Sum, Spotted, WithEntry, TallyEntry;
    EntryTable(t, w, y, p);
    EntryCounts(t, w, y, p);
    EntrySpots(t, w, p);
  }

  lemma EntryTable(t: Tree, w: Walk, y: Tally, p: Path)
    requires p in t.kinds && p !in w.current && y.stack == w.stack && y.current == w.current
    requires y.count == |w.current| && y.total == Sum(w.current)
    ensures var (v, z) := (WithEntry(t, w, p), TallyEntry(t, y, p));
            z.stack == v.stack && z.current == v.current && z.count == |v.current| && z.total == Sum(v.current)
  {
    hide Sum;
    if t.kinds[p].Regular? {
      SumAdds(w.current, p, t.kinds[p].size);
    }
  }

  lemma EntryCounts(t: Tree, w: Walk, y: Tally, p: Path)
    requires p in t.kinds && p !in w.seen && y.visited == |w.seen|
    ensures TallyEntry(t, y, p).visited == |WithEntry(t, w, p).seen|
    ensures TallyEntry(t, y, p).errors == y.errors + (if t.kinds[p].Unknown? then 1 else 0)
  {
  }

  lemma EntrySpots(t: Tree, w: Walk, p: Path)
    requires p in t.kinds && p !in w.seen
    ensures |Spotted(t, WithEntry(t, w, p))| == |Spotted(t, w)| + (if t.kinds[p].Unknown? then 1 else 0)
  {
    if t.kinds[p].Unknown? {
      assert Spotted(t, WithEntry(t, w, p)) == Spotted(t, w) + {p};
    } else {
      assert Spotted(t, WithEntry(t, w, p)) == Spotted(t, w);
    }
  }

  // A walk that is done has met everything there is to trouble it.
  lemma DoneSpotsAll(t: Tree, w: Walk)
    requires AtRest(t, w) && w.stack == []
    ensures Spotted(t, w) == AllTroubled(t)
  {
    WalkIsComplete(t, w);
    forall p
      ensures p in Spotted(t, w) <==> p in AllTroubled(t)
    {
      if p in AllTroubled(t) {
        if Open(t, p) {
          AllWalked(t, w, p);
        }
      }
      if p in Spotted(t, w) && p in w.walked && BadDirectory(t, p) {
        WalkedIsOpen(t, w, p);
      }
    }
  }

  // ---- what changed between two complete inventories ----

  function Added(b: map<Path, nat>, c: map<Path, nat>): map<Path, nat> {
    map p | p in c && p !in b :: c[p]
  }

  function Grown(b: map<Path, nat>, c: map<Path, nat>): map<Path, nat> {
    map p | p in c && p in b && c[p] > b[p] :: c[p] - b[p]
  }

  // What a complete scan after the baseline reports.
  datatype Change = Change(newCount: nat, newBytes: int, netBytes: int, deletedCount: nat, grownBytes: int)

  ghost function ChangeOf(b: map<Path, nat>, c: map<Path, nat>): Change {
    Change(|Added(b, c)|, Sum(Added(b, c)), Sum(c) - Sum(b), |Added(c, b)|, Sum(Grown(b, c)))
  }

  // The sizes the two have in common: of each file in both, the smaller.
  function Least(b: map<Path, nat>, c: map<Path, nat>): map<Path, nat> {
    map p | p in c && p in b :: if c[p] < b[p] then c[p] else b[p]
  }

  lemma LessFromUnion(a: map<Path, int>, b: map<Path, int>, p: Path)
    requires a.Keys !! b.Keys && p in a
    ensures (a + b) - {p} == (a - {p}) + b && p in a + b && (a + b)[p] == a[p]
  {
  }

  lemma UnionSize(a: map<Path, int>, b: map<Path, int>)
    requires a.Keys !! b.Keys
    ensures |a + b| == |a| + |b|
  {
    assert (a + b).Keys == a.Keys + b.Keys;
    assert |a + b| == |(a + b).Keys| && |a| == |a.Keys| && |b| == |b.Keys|;
  }

  // A table cut in two.
  lemma {:induction false} SumSplits(a: map<Path, int>, b: map<Path, int>)
    requires a.Keys !! b.Keys
    ensures Sum(a + b) == Sum(a) + Sum(b)
    decreases |a|
  {
    hide Sum;
    if a == map[] {
      SumOfNone();
      assert a + b == b;
    } else {
      var p :| p in a;
      LessFromUnion(a, b, p);
      SumPick(a + b, p);
      SumPick(a, p);
      SumSplits(a - {p}, b);
    }
  }

  lemma {:induction false} SumDifference(a: map<Path, int>, b: map<Path, int>, g: map<Path, int>, s: map<Path, int>)
    requires a.Keys == b.Keys && g.Keys <= a.Keys && s.Keys <= a.Keys && g.Keys !! s.Keys
    requires forall p :: p in a ==> a[p] - b[p] == (if p in g then g[p] else 0) - (if p in s then s[p] else 0)
    ensures Sum(a) - Sum(b) == Sum(g) - Sum(s)
    decreases |a|
  {
    if a != map[] {
      var p :| p in a;
      SumPick(a, p);
      SumPick(b, p);
      if p in g {
        SumPick(g, p);
      } else {
        assert g - {p} == g;
      }
      if p in s {
        SumPick(s, p);
      } else {
        assert s - {p} == s;
      }
      SumDifference(a - {p}, b - {p}, g - {p}, s - {p});
    } else {
      assert g == map[] && s == map[] && b == map[];
    }
  }

  function Common(m: map<Path, nat>, other: map<Path, nat>): map<Path, nat> {
    map p | p in m && p in other :: m[p]
  }

  // Between two complete inventories the count changed by what is new less
  // what is gone, and the bytes by what is new and what grew less what is
  // gone and what shrank.
  lemma DifferenceAddsUp(b: map<Path, nat>, c: map<Path, nat>)
    ensures var d := ChangeOf(b, c);
            && |c| - |b| == d.newCount - d.deletedCount
            && d.netBytes == d.newBytes + d.grownBytes - Sum(Added(c, b)) - Sum(Grown(c, b))
            && d.netBytes == Sum(c) - Sum(b)
            // the files of one that the other has not, and no others, are new or gone
            && d.newCount == |c.Keys - b.Keys| && d.deletedCount == |b.Keys - c.Keys|
            && d.newBytes == Sum(c) - Sum(Common(c, b))
            && d.grownBytes == Sum(Common(c, b)) - Sum(Least(b, c))
  {
    CountsByKeys(b, c);
    CountsByKeys(c, b);
    GrownOverLeast(b, c);
    hide Sum, Added, Common, Grown, Least;
    AddedAndCommon(b, c);
    AddedAndCommon(c, b);
    CommonDiffers(b, c);
  }

  lemma CountsByKeys(b: map<Path, nat>, c: map<Path, nat>)
    ensures |Added(b, c)| == |c.Keys - b.Keys|
  {
    assert Added(b, c).Keys == c.Keys - b.Keys;
    assert |Added(b, c)| == |Added(b, c).Keys|;
  }

  lemma GrownOverLeast(b: map<Path, nat>, c: map<Path, nat>)
    ensures Sum(Grown(b, c)) == Sum(Common(c, b)) - Sum(Least(b, c))
  {
    hide Sum;
    SumOfNone();
    SumDifference(Common(c, b), Least(b, c), Grown(b, c), map[]);
  }

  lemma AddedAndCommon(b: map<Path, nat>, c: map<Path, nat>)
    ensures Sum(c) == Sum(Added(b, c)) + Sum(Common(c, b)) && |c| == |Added(b, c)| + |Common(c, b)|
    ensures |Common(c, b)| == |Common(b, c)|
  {
    CutInTwo(b, c);
    hide Sum, Added, Common;
    SumSplits(Added(b, c), Common(c, b));
    UnionSize(Added(b, c), Common(c, b));
    assert |Common(c, b)| == |Common(c, b).Keys| && |Common(b, c)| == |Common(b, c).Keys|;
  }

  lemma CutInTwo(b: map<Path, nat>, c: map<Path, nat>)
    ensures Added(b, c) + Common(c, b) == c && Added(b, c).Keys !! Common(c, b).Keys
    ensures Common(c, b).Keys == Common(b, c).Keys
  {
  }

  lemma CommonDiffers(b: map<Path, nat>, c: map<Path, nat>)
    ensures Sum(Common(c, b)) - Sum(Common(b, c)) == Sum(Grown(b, c)) - Sum(Grown(c, b))
  {
    hide Sum;
    SumDifference(Common(c, b), Common(b, c), Grown(b, c), Grown(c, b));
  }

  // ---- the scanner ----

  lemma DirectoryMeans(t: Tree, w: Walk, d: Path, i: nat)
    requires InDirectory(t, w, d, i)
    ensures d in t.names && i <= |t.names[d]|
  {
    hide WalkInv, MetElsewhere, MetHere;
  }

  lemma LastEntryRead(t: Tree, w: Walk, d: Path)
    requires WellFormed(t) && d in t.names && InDirectory(t, w, d, |t.names[d]|)
    ensures AtRest(t, w)
  {
    hide InDirectory, AtRest, ListsAll, ListsNoMore, HasRoot;
    DirectoryDone(t, w, d);
  }

  // All one entry does, and what is known of the limits when it is met.
  lemma EntryStep(t: Tree, w: Walk, y: Tally, d: Path, i: nat)
    requires WellFormed(t) && d in t.names && i < |t.names[d]| && InDirectory(t, w, d, i) && Tallies(t, w, y)
    ensures var p := d + [t.names[d][i]];
            && p in t.kinds && InDirectory(t, WithEntry(t, w, p), d, i + 1)
            && Tallies(t, WithEntry(t, w, p), TallyEntry(t, y, p))
            && TallyEntry(t, y, p).visited == y.visited + 1 && WithEntry(t, w, p).walked == w.walked
            && |y.stack| <= y.visited && y.count <= y.visited && y.visited < |AllListed(t)|
  {
    hide InDirectory, ListsAll, ListsNoMore, HasRoot, Tallies, Wanted, Open, Listed, WalkInv, AllListed;
    EntryIsNew(t, w, d, i);
    var p := d + [t.names[d][i]];
    EntryKeepsDirectory(t, w, d, i);
    EntryTallies(t, w, y, p);
    TalliesMean(t, w, y);
    ListsAreShort(t, w, d, i);
    InsideKeepsWalk(t, w, d, i);
    SeenIsListed(t, w, p);
  }

  lemma InsideKeepsWalk(t: Tree, w: Walk, d: Path, i: nat)
    requires InDirectory(t, w, d, i)
    ensures WalkInv(t, w)
  {
    hide WalkInv, MetElsewhere, MetHere;
  }

  datatype Result =
    | Excluded
    | Scanned(complete: bool, count: nat, total: int, errors: nat, capped: bool, change: Option<Change>)

  class Scanner {
    const maxEntries: nat
    var baseline: Option<map<Path, nat>>
    var baselineBytes: int
    var current: map<Path, nat>

    ghost predicate Valid()
      reads this
    {
      baseline.Some? ==> baselineBytes == Sum(baseline.value)
    }

    constructor (maxEntries: nat)
      ensures Valid() && this.maxEntries == maxEntries && baseline == None
    {
      this.maxEntries := maxEntries;
      baseline, baselineBytes, current := None, 0, map[];
    }

    // One directory's entries, until the limit.
    method ReadEntries(t: Tree, d: Path, y: Tally, ghost w: Walk) returns (z: Tally, capped: bool, ghost v: Walk)
      requires WellFormed(t) && InDirectory(t, w, d, 0) && Tallies(t, w, y) && y.visited <= maxEntries
      ensures Tallies(t, v, z) && v.walked == w.walked
      ensures !capped ==> AtRest(t, v) && z.visited <= maxEntries
      ensures capped ==> |AllListed(t)| > maxEntries
    {
      hide InDirectory, AtRest, WellFormed, Tallies, TallyEntry, WithEntry, AllListed;
      z, capped, v := y, false, w;
      DirectoryMeans(t, w, d, 0);
      var i := 0;
      while i < |t.names[d]|
        invariant i <= |t.names[d]| && InDirectory(t, v, d, i) && Tallies(t, v, z) && v.walked == w.walked
        invariant z.visited <= maxEntries
      {
        var p := d + [t.names[d][i]];
        EntryStep(t, v, z, d, i);
        var kind := t.kinds[p];
        capped := z.visited + 1 > maxEntries;
        if !capped && !kind.Unknown? && Some(p) != t.excluded && !kind.Link? {
          capped := if kind.Directory? then |z.stack| >= maxEntries else kind.Regular? && z.count >= maxEntries;
        }
        if capped {
          return;
        }
        z, v := TallyEntry(t, z, p), WithEntry(t, v, p);
        i := i + 1;
      }
      LastEntryRead(t, v, d);
    }

    method SumOf(m: map<Path, int>) returns (s: int)
      ensures s == Sum(m)
    {
      hide Sum;
      var left := m;
      s := 0;
      SumOfNone();
      while left != map[]
        invariant left.Keys <= m.Keys
        invariant s + Sum(left) == Sum(m)
        decreases |left|
      {
        var p :| p in left;
        SumPick(left, p);
        s := s + left[p];
        left := left - {p};
      }
    }

    method Compare(b: map<Path, nat>, total: int) returns (d: Change)
      requires total == Sum(current) && baselineBytes == Sum(b)
      ensures d == ChangeOf(b, current)
    {
      var newBytes := SumOf(Added(b, current));
      var grownBytes := SumOf(Grown(b, current));
      d := Change(|Added(b, current)|, newBytes, total - baselineBytes, |Added(current, b)|, grownBytes);
    }

    // The walk from the root, until nothing waits or the limit is reached.
    method WalkTree(t: Tree) returns (y: Tally, capped: bool)
      requires WellFormed(t)
      ensures y.count == |y.current| && y.total == Sum(y.current)
      ensures capped <==> |AllListed(t)| > maxEntries
      ensures !capped ==> y.current == AllFiles(t) && y.errors == |AllTroubled(t)|
    {
      hide InDirectory, AtRest, WellFormed, Tallies, TallyPopped, Popped, AllListed, AllFiles, Sum, AllTroubled;
      y, capped := Tally([[]], map[], 0, 0, 0, 0), false;
      ghost var w := START;
      WalkStarts(t);
      while y.stack != [] && !capped
        invariant Tallies(t, w, y)
        invariant !capped ==> AtRest(t, w) && y.visited <= maxEntries
        invariant capped ==> |AllListed(t)| > maxEntries
        decreases |t.kinds.Keys - w.walked|
      {
        var d := y.stack[|y.stack| - 1];
        DirectoryStep(t, w, y);
        y, w := TallyPopped(t, y), Popped(w);
        if !BadDirectory(t, d) {
          y, capped, w := ReadEntries(t, d, y, w);
        }
      }
      TalliesMean(t, w, y);
      if !capped {
        WalkEnds(t, w);
      }
    }

    // `apart`: the root is a link, or in the excluded tree.
    method Scan(t: Tree, apart: bool) returns (r: Result)
      requires Valid() && WellFormed(t)
      modifies this
      ensures Valid()
      ensures apart ==> r == Excluded && baseline == old(baseline)
      ensures !apart ==>
                && r.Scanned?
                && (r.complete <==> |AllListed(t)| <= maxEntries && AllTroubled(t) == {})
                && (!r.capped ==> r.errors == |AllTroubled(t)|)
                && (r.capped <==> |AllListed(t)| > maxEntries)
                && (r.complete ==> current == AllFiles(t))
                && r.count == |current| && r.total == Sum(current)
                && baseline == (if old(baseline).None? && r.complete then Some(AllFiles(t)) else old(baseline))
                && r.change == (if old(baseline).Some? && r.complete
                    then Some(ChangeOf(old(baseline).value, AllFiles(t))) else None)
    {
      hide WellFormed, AllListed, AllFiles, Sum, AllTroubled, ChangeOf;
      if apart {
        return Excluded;
      }
      var y, capped := WalkTree(t);
      current := y.current;
      var complete := !capped && y.errors == 0;
      var change := None;
      if baseline.None? {
        if complete {
          baseline, baselineBytes := Some(current), y.total;
        }
      } else if complete {
        var d := Compare(baseline.value, y.total);
        change := Some(d);
      }
      r := Scanned(complete, y.count, y.total, y.errors, capped, change);
    }
  }

  lemma WalkStarts(t: Tree)
    requires WellFormed(t)
    ensures AtRest(t, START) && Tallies(t, START, Tally([[]], map[], 0, 0, 0, 0))
  {
    hide ListsAll, ListsNoMore, HasRoot, AtRest, Tallies;
    StartsAtRest(t);
    StartsTallied(t);
  }

  lemma WalkEnds(t: Tree, w: Walk)
    requires AtRest(t, w) && w.stack == []
    ensures w.current == AllFiles(t) && |w.seen| == |AllListed(t)|
    ensures Spotted(t, w) == AllTroubled(t)
  {
    hide AtRest, AllFiles, AllListed, Spotted, AllTroubled;
    WalkIsComplete(t, w);
    DoneSpotsAll(t, w);
  }

  // All that taking the last directory waiting does.
  lemma DirectoryStep(t: Tree, w: Walk, y: Tally)
    requires WellFormed(t) && AtRest(t, w) && Tallies(t, w, y) && y.stack != []
    ensures w.stack == y.stack && Tallies(t, Popped(w), TallyPopped(t, y)) && TallyPopped(t, y).visited == y.visited
    ensures var d := y.stack[|y.stack| - 1];
            && (BadDirectory(t, d) ==> AtRest(t, Popped(w)))
            && (!BadDirectory(t, d) ==> InDirectory(t, Popped(w), d, 0))
    ensures |t.kinds.Keys - Popped(w).walked| < |t.kinds.Keys - w.walked|
  {
    hide ListsAll, ListsNoMore, HasRoot, AtRest, InDirectory, Tallies, Sum, WalkInv, Open, Spotted;
    TalliesMean(t, w, y);
    PoppedIsOpen(t, w);
    PoppedTallies(t, w, y);
    var d := y.stack[|y.stack| - 1];
    if BadDirectory(t, d) {
      SkipsDirectory(t, w);
    } else {
      EntersDirectory(t, w);
    }
    assert t.kinds.Keys - w.walked == (t.kinds.Keys - Popped(w).walked) + {d};
  }

  lemma TalliesMean(t: Tree, w: Walk, y: Tally)
    requires Tallies(t, w, y)
    ensures y.visited == |w.seen| && |y.stack| == |w.stack| && y.count == |w.current| && y.stack == w.stack
            && y.current == w.current
    ensures y.errors == |Spotted(t, w)|
    ensures y.total == Sum(w.current)
  {
  }
}
