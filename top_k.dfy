/** `_top_k`: keep the k lowest-loss (configuration, loss) pairs, in
    ascending order of loss. The source relies on `heapq.nsmallest` over
    (loss, config) tuples, which breaks loss ties by comparing
    configurations; configurations are opaque here, so ties are broken by
    a stable sort and only tie-independent facts are stated. */
module TopKSelection {
  import opened Common

  /** Pairs configs[j] with losses[j], as `zip` does. */
  function Zip<C>(configs: seq<C>, losses: seq<real>): (ps: seq<ConfigEvaluation<C>>)
    requires |configs| == |losses|
  {
    seq(|configs|, j requires 0 <= j < |configs| => ConfigEvaluation(configs[j], losses[j]))
  }

  function Configs<C>(ps: seq<ConfigEvaluation<C>>): (cs: seq<C>)
    ensures |cs| == |ps|
  {
    seq(|ps|, j requires 0 <= j < |ps| => ps[j].config)
  }

  function Losses<C>(ps: seq<ConfigEvaluation<C>>): (ls: seq<real>)
    ensures |ls| == |ps|
  {
    seq(|ps|, j requires 0 <= j < |ps| => ps[j].loss)
  }

  ghost predicate Ascending(ls: seq<real>)
  {
    forall i, j :: 0 <= i < j < |ls| ==> ls[i] <= ls[j]
  }

  ghost predicate SortedByLoss<C>(ps: seq<ConfigEvaluation<C>>)
  {
    forall i, j :: 0 <= i < j < |ps| ==> ps[i].loss <= ps[j].loss
  }

  /** Inserts p before the first entry of larger loss. */
  function Insert<C>(p: ConfigEvaluation<C>, s: seq<ConfigEvaluation<C>>): (r: seq<ConfigEvaluation<C>>)
    ensures |r| == |s| + 1
  {
    if s == [] || p.loss <= s[0].loss then [p] + s else [s[0]] + Insert(p, s[1..])
  }

  /** Insertion into a sorted sequence keeps it sorted and starts it with
      p or with the old head. */
  lemma {:induction false} InsertSorted<C>(p: ConfigEvaluation<C>, s: seq<ConfigEvaluation<C>>)
    requires SortedByLoss(s)
    ensures SortedByLoss(Insert(p, s))
    ensures Insert(p, s)[0] == p || (|s| > 0 && Insert(p, s)[0] == s[0])
  {
    if s != [] && p.loss > s[0].loss {
      InsertSorted(p, s[1..]);
    }
  }

  /** Insertion adds exactly p. */
  lemma {:induction false} InsertPermutes<C>(p: ConfigEvaluation<C>, s: seq<ConfigEvaluation<C>>)
    ensures multiset(Insert(p, s)) == multiset(s) + multiset{p}
  {
    if s != [] && p.loss > s[0].loss {
      InsertPermutes(p, s[1..]);
      assert s == [s[0]] + s[1..];
    }
  }

  /** A stable sort by ascending loss. */
  function SortByLoss<C>(ps: seq<ConfigEvaluation<C>>): (r: seq<ConfigEvaluation<C>>)
    ensures |r| == |ps|
  {
    if ps == [] then [] else Insert(ps[0], SortByLoss(ps[1..]))
  }

  /** The sort's output is sorted by loss. */
  lemma {:induction false} SortSorted<C>(ps: seq<ConfigEvaluation<C>>)
    ensures SortedByLoss(SortByLoss(ps))
  {
    if ps != [] {
      SortSorted(ps[1..]);
      InsertSorted(ps[0], SortByLoss(ps[1..]));
    }
  }

  /** The sort is a permutation of its input. */
  lemma {:induction false} SortPermutes<C>(ps: seq<ConfigEvaluation<C>>)
    ensures multiset(SortByLoss(ps)) == multiset(ps)
  {
    if ps != [] {
      SortPermutes(ps[1..]);
      InsertPermutes(ps[0], SortByLoss(ps[1..]));
      assert ps == [ps[0]] + ps[1..];
    }
  }

  /** The k lowest-loss pairs in ascending order. `k >= 1` is the source's
      assertion; non-empty input is needed by its unpacking of the result. */
  function TopK<C>(configs: seq<C>, losses: seq<real>, k: int): (r: (seq<C>, seq<real>))
    requires |configs| == |losses| >= 1 && k >= 1
    ensures |r.0| == |r.1| == Min(k, |configs|)
    ensures Ascending(r.1)
    ensures multiset(Zip(r.0, r.1)) <= multiset(Zip(configs, losses))
    ensures forall p, j {:trigger (multiset(Zip(configs, losses)) - multiset(Zip(r.0, r.1)))[p], r.1[j]} ::
              p in multiset(Zip(configs, losses)) - multiset(Zip(r.0, r.1)) && 0 <= j < |r.1|
              ==> r.1[j] <= p.loss
  {
    var sorted := SortByLoss(Zip(configs, losses));
    SortSorted(Zip(configs, losses));
    SortPermutes(Zip(configs, losses));
    var kept := sorted[..Min(k, |sorted|)];
    KeptBeforeDropped(sorted, Min(k, |sorted|));
    Unzip(kept);
    (Configs(kept), Losses(kept))
  }

  /** Splitting a sorted sequence into configurations and losses loses
      nothing, and the losses come out ascending. */
  lemma Unzip<C>(ps: seq<ConfigEvaluation<C>>)
    requires SortedByLoss(ps)
    ensures |Configs(ps)| == |Losses(ps)| == |ps|
    ensures Zip(Configs(ps), Losses(ps)) == ps
    ensures Ascending(Losses(ps))
  {
  }

  /** In a sorted sequence split at m, the dropped part is the multiset
      difference and every kept loss is at most every dropped loss. */
  lemma KeptBeforeDropped<C>(sorted: seq<ConfigEvaluation<C>>, m: nat)
    requires SortedByLoss(sorted) && m <= |sorted|
    ensures SortedByLoss(sorted[..m])
    ensures multiset(sorted[..m]) <= multiset(sorted)
    ensures multiset(sorted) - multiset(sorted[..m]) == multiset(sorted[m..])
    ensures forall p, j {:trigger multiset(sorted[m..])[p], sorted[..m][j]} ::
              p in multiset(sorted[m..]) && 0 <= j < m ==> sorted[..m][j].loss <= p.loss
  {
    assert sorted == sorted[..m] + sorted[m..];
    forall p, j {:trigger multiset(sorted[m..])[p], sorted[..m][j]} | p in multiset(sorted[m..]) && 0 <= j < m
      ensures sorted[..m][j].loss <= p.loss
    {
      var t :| m <= t < |sorted| && sorted[t] == p;
    }
  }

  /** The first kept loss is the minimum of all input losses, and the first
      kept pair is one of the input pairs. */
  lemma TopKHeadIsMin<C>(configs: seq<C>, losses: seq<real>, k: int)
    requires |configs| == |losses| >= 1 && k >= 1
    ensures var r := TopK(configs, losses, k);
      (forall j :: 0 <= j < |losses| ==> r.1[0] <= losses[j]) &&
      (exists j :: 0 <= j < |configs| && configs[j] == r.0[0] && losses[j] == r.1[0])
  {
    var r := TopK(configs, losses, k);
    var inp, out := Zip(configs, losses), Zip(r.0, r.1);
    SelectionHead(inp, out);
    forall j | 0 <= j < |losses|
      ensures r.1[0] <= losses[j]
    {
      assert inp[j].loss == losses[j];
    }
    var j :| 0 <= j < |inp| && inp[j] == out[0];
    assert configs[j] == r.0[0] && losses[j] == r.1[0];
  }

  /** A selection that keeps a sub-multiset, ascending, with no dropped
      entry below a kept one, starts with an input entry of least loss. */
  lemma SelectionHead<C>(inp: seq<ConfigEvaluation<C>>, out: seq<ConfigEvaluation<C>>)
    requires |out| >= 1
    requires forall j :: 0 <= j < |out| ==> out[0].loss <= out[j].loss
    requires multiset(out) <= multiset(inp)
    requires forall p, j {:trigger (multiset(inp) - multiset(out))[p], out[j]} ::
               p in multiset(inp) - multiset(out) && 0 <= j < |out| ==> out[j].loss <= p.loss
    ensures forall j :: 0 <= j < |inp| ==> out[0].loss <= inp[j].loss
    ensures out[0] in inp
  {
    forall j | 0 <= j < |inp|
      ensures out[0].loss <= inp[j].loss
    {
      if inp[j] in multiset(out) {
        var t :| 0 <= t < |out| && out[t] == inp[j];
      } else {
        assert inp[j] in multiset(inp) - multiset(out);
      }
    }
    assert out[0] in multiset(out);
  }

  /** With k at least the input length, every pair is kept, only reordered. */
  lemma TopKAllIsPermutation<C>(configs: seq<C>, losses: seq<real>, k: int)
    requires |configs| == |losses| >= 1 && k >= |configs|
    ensures var r := TopK(configs, losses, k);
      multiset(Zip(r.0, r.1)) == multiset(Zip(configs, losses))
  {
    var sorted := SortByLoss(Zip(configs, losses));
    SortPermutes(Zip(configs, losses));
    assert sorted[..|sorted|] == sorted;
    var r := TopK(configs, losses, k);
    assert Zip(r.0, r.1) == sorted;
  }
}
