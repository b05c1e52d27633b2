/** Removing repeats from a list, keeping first occurrences. */
module Lists {
  import opened Common
  import opened Text

  function Dedup<T(==)>(xs: seq<T>): seq<T> {
    if xs == [] then [] else
    var n := |xs| - 1;
    var rest := Dedup(xs[..n]);
    if xs[n] in rest then rest else rest + [xs[n]]
  }

  function PushNew<T(==)>(xs: seq<T>, x: T): seq<T> {
    if x in xs then xs else xs + [x]
  }

  lemma {:induction false} DedupSnoc<T>(xs: seq<T>, x: T)
    ensures Dedup(xs + [x]) == PushNew(Dedup(xs), x)
  {
  }

  lemma {:induction false} FirstIndexSnoc<T>(xs: seq<T>, x: T, y: T, from: nat)
    requires from <= |xs|
    ensures FirstIndex(xs + [x], y, from) == FirstIndex(xs, y, from)
         || (FirstIndex(xs, y, from) == |xs| && FirstIndex(xs + [x], y, from) >= |xs|)
    decreases |xs| - from
  {
    if from < |xs| && xs[from] != y {
      FirstIndexSnoc(xs, x, y, from + 1);
    }
  }

  /** Same elements, none twice, in order of first appearance. */
  lemma {:induction false} DedupKeepsFirsts<T>(xs: seq<T>)
    ensures forall i | 0 <= i < |Dedup(xs)| :: Dedup(xs)[i] in xs
    ensures forall i | 0 <= i < |xs| :: xs[i] in Dedup(xs)
    ensures forall i, j | 0 <= i < j < |Dedup(xs)| ::
      FirstIndex(xs, Dedup(xs)[i], 0) < FirstIndex(xs, Dedup(xs)[j], 0)
  {
    if xs != [] {
      var n := |xs| - 1;
      var before, last := xs[..n], xs[n];
      assert xs == before + [last];
      DedupKeepsFirsts(before);
      DedupSnoc(before, last);
      var d := Dedup(before);
      forall k | 0 <= k < |d| ensures FirstIndex(xs, d[k], 0) == FirstIndex(before, d[k], 0) < n {
        FirstIndexSnoc(before, last, d[k], 0);
        assert d[k] in before;
      }
      if last !in d {
        assert last !in before;
        assert FirstIndex(xs, last, 0) == n;
      }
    }
  }
}
