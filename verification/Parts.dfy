// What it is for a sequence to be just some of another.
module Parts {
  // `part` is some of `whole`, in its order.
  predicate InOrderOf<T(==)>(part: seq<T>, whole: seq<T>) {
    part == [] || (whole != [] && InOrderOf(if part[0] == whole[0] then part[1..] else part, whole[1..]))
  }

  // And just those of `whole` that `keep` keeps, each as often.
  ghost predicate JustThose<T(!new)>(part: seq<T>, whole: seq<T>, keep: T -> bool) {
    && InOrderOf(part, whole)
    && forall x :: multiset(part)[x] == if keep(x) then multiset(whole)[x] else 0
  }

  lemma {:induction false} InOrderSnoc<T>(part: seq<T>, whole: seq<T>, x: T)
    requires InOrderOf(part, whole)
    ensures InOrderOf(part, whole + [x]) && InOrderOf(part + [x], whole + [x])
    decreases |whole|
  {
    if whole != [] {
      assert (whole + [x])[1..] == whole[1..] + [x];
      var rest := if part != [] && part[0] == whole[0] then part[1..] else part;
      InOrderSnoc(rest, whole[1..], x);
      InOrderSnoc([], whole[1..], x);
      assert [] + [x] == [x];
      if part != [] {
        assert (part + [x])[1..] == part[1..] + [x];
      }
    }
  }

  lemma JustOneMore<T(!new)>(part: seq<T>, whole: seq<T>, keep: T -> bool, x: T)
    requires JustThose(part, whole, keep)
    ensures JustThose(if keep(x) then part + [x] else part, whole + [x], keep)
  {
    InOrderSnoc(part, whole, x);
  }
}
