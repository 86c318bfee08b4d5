/** Successive halving, the body of one bracket: a sequence of rungs, each
    evaluating every survivor at the rung's resource and then culling to
    the rung's cull size. Both variants run this loop; they differ only in
    how many rungs they run. */
module Halving {
  import opened Common
  import opened Arith
  import opened BracketPlanner
  import opened TopKSelection

  /** One rung's losses, positionally matching T: entry j is the evaluator
      applied to T[j] at the given resource. */
  function Evaluate<C>(T: seq<C>, resource: real, evaluate: (C, real) -> real): (ls: seq<real>)
    ensures |ls| == |T|
  {
    seq(|T|, j requires 0 <= j < |T| => evaluate(T[j], resource))
  }

  /** Rung i: evaluate the survivors T at r_i, keep the best max(1, floor(n_i / eta)).
      As many survivors as the cull size allows are kept, each with one
      loss, in ascending order of loss. */
  function Rung<C>(T: seq<C>, n: nat, r: real, eta: nat, evaluate: (C, real) -> real, i: nat)
    : (st: (seq<C>, seq<real>))
    requires eta >= 2 && |T| >= 1
    ensures |st.0| == |st.1| == Min(CullSize(n, eta, i), |T|)
    ensures Ascending(st.1)
  {
    TopK(T, Evaluate(T, RungResource(r, eta, i), evaluate), CullSize(n, eta, i))
  }

  /** The losses a rung keeps stay paired with the configurations they were
      computed for: every survivor is one of the rung's entrants, and its
      loss is its own evaluation at the rung's resource r_i. */
  lemma SurvivorsKeepTheirLosses<C>(T: seq<C>, n: nat, r: real, eta: nat,
                                    evaluate: (C, real) -> real, i: nat)
    requires eta >= 2 && |T| >= 1
    ensures var st := Rung(T, n, r, eta, evaluate, i);
      |st.0| == |st.1| &&
      forall j :: 0 <= j < |st.0| ==>
        st.0[j] in T && st.1[j] == evaluate(st.0[j], RungResource(r, eta, i))
  {
    var ri := RungResource(r, eta, i);
    var L := Evaluate(T, ri, evaluate);
    var st := TopK(T, L, CullSize(n, eta, i));
    forall j | 0 <= j < |st.0|
      ensures st.0[j] in T && st.1[j] == evaluate(st.0[j], ri)
    {
      var p := Zip(st.0, st.1)[j];
      assert p in multiset(Zip(st.0, st.1));
      assert p in multiset(Zip(T, L));
      var u :| 0 <= u < |T| && Zip(T, L)[u] == p;
    }
  }

  /** Survivors and their losses after the first `count` rungs, starting
      from the sampled population T0 (no losses before the first rung). */
  function Rungs<C>(T0: seq<C>, n: nat, r: real, eta: nat, evaluate: (C, real) -> real, count: nat)
    : (st: (seq<C>, seq<real>))
    requires eta >= 2 && |T0| >= 1
    ensures |st.0| >= 1
    ensures count >= 1 ==> |st.1| == |st.0|
  {
    if count == 0 then (T0, [])
    else Rung(Rungs(T0, n, r, eta, evaluate, count - 1).0, n, r, eta, evaluate, count - 1)
  }

  /** The rung loop `for i in range(count)` of a bracket, starting from the
      sampled population T0 of size n: after it, T and losses are the
      survivors and their ascending losses after `count` rungs. */
  method HalveRungs<C>(T0: seq<C>, n: nat, r: real, eta: nat, evaluate: (C, real) -> real, count: nat)
    returns (T: seq<C>, losses: seq<real>)
    requires eta >= 2 && |T0| >= 1
    ensures (T, losses) == Rungs(T0, n, r, eta, evaluate, count)
  {
    T, losses := T0, [];
    for i := 0 to count
      invariant (T, losses) == Rungs(T0, n, r, eta, evaluate, i)
    {
      var kept := Rung(T, n, r, eta, evaluate, i);
      T, losses := kept.0, kept.1;
    }
  }

  /** The bracket's result after `count` rungs: `(T[0], losses[0])`. It is
      a sampled configuration, carrying its own evaluation at the last
      rung's resource. */
  function Winner<C>(T0: seq<C>, n: nat, r: real, eta: nat, evaluate: (C, real) -> real, count: nat)
    : (w: ConfigEvaluation<C>)
    requires eta >= 2 && |T0| >= 1 && count >= 1
    ensures w.config in T0
    ensures w.loss == evaluate(w.config, RungResource(r, eta, count - 1))
  {
    var st := Rungs(T0, n, r, eta, evaluate, count);
    SurvivorsAreSampled(T0, n, r, eta, evaluate, count);
    SurvivorsKeepTheirLosses(Rungs(T0, n, r, eta, evaluate, count - 1).0, n, r, eta, evaluate, count - 1);
    ConfigEvaluation(st.0[0], st.1[0])
  }

  /** Every survivor of any number of rungs is one of the sampled configurations. */
  lemma {:induction false} SurvivorsAreSampled<C>(T0: seq<C>, n: nat, r: real, eta: nat,
                                                  evaluate: (C, real) -> real, count: nat)
    requires eta >= 2 && |T0| >= 1
    ensures forall t :: t in Rungs(T0, n, r, eta, evaluate, count).0 ==> t in T0
  {
    if count > 0 {
      var P := Rungs(T0, n, r, eta, evaluate, count - 1).0;
      SurvivorsAreSampled(T0, n, r, eta, evaluate, count - 1);
      SurvivorsKeepTheirLosses(P, n, r, eta, evaluate, count - 1);
      forall t | t in Rungs(T0, n, r, eta, evaluate, count).0
        ensures t in T0
      {
        var st := Rung(P, n, r, eta, evaluate, count - 1);
        var j :| 0 <= j < |st.0| && st.0[j] == t;
      }
    }
  }

  /** Rungs run by the stand-alone successive halving on n configurations:
      floor(log_eta n) + 1, a count set by n alone. */
  function RungCount(n: nat, eta: nat): (c: nat)
    requires n >= 1 && eta >= 2
    ensures c >= 1
    ensures RungSize(n, eta, c - 1) >= 1 && RungSize(n, eta, c) == 0
  {
    var s := ILog(eta, n);
    DivAtLeastOne(n, Pow(eta, s));
    DivUnique(n, Pow(eta, s + 1), 0, n);
    s + 1
  }

  /** When the sampler returned n configurations, the population entering
      rung i is max(1, n_i): n at rung 0, and each cull keeps exactly
      max(1, floor(n_i / eta)) because that never exceeds the population. */
  lemma {:induction false} PopulationSize<C>(T0: seq<C>, n: nat, r: real, eta: nat,
                                             evaluate: (C, real) -> real, i: nat)
    requires eta >= 2 && |T0| == n >= 1
    ensures |Rungs(T0, n, r, eta, evaluate, i).0| == Max(1, RungSize(n, eta, i))
  {
    if i == 0 {
      assert RungSize(n, eta, 0) == n / 1 == n;
    } else {
      PopulationSize(T0, n, r, eta, evaluate, i - 1);
      CullKeepsCullSize(Rungs(T0, n, r, eta, evaluate, i - 1).0, n, r, eta, evaluate, i - 1);
    }
  }

  /** A rung entered by max(1, n_i) survivors leaves max(1, n_(i+1)). */
  lemma CullKeepsCullSize<C>(T: seq<C>, n: nat, r: real, eta: nat, evaluate: (C, real) -> real, i: nat)
    requires eta >= 2 && |T| == Max(1, RungSize(n, eta, i))
    ensures |Rung(T, n, r, eta, evaluate, i).0| == Max(1, RungSize(n, eta, i + 1))
  {
    CullSizeBounds(n, eta, i);
  }

  /** The bracket result is a survivor of the final rung, its loss is that
      survivor's evaluation at the final rung's resource, and no survivor
      of the final rung evaluated lower. */
  lemma WinnerIsBestOfLastRung<C>(T0: seq<C>, n: nat, r: real, eta: nat,
                                  evaluate: (C, real) -> real, count: nat)
    requires eta >= 2 && |T0| >= 1 && count >= 1
    ensures var P := Rungs(T0, n, r, eta, evaluate, count - 1).0;
      var ri := RungResource(r, eta, count - 1);
      var w := Winner(T0, n, r, eta, evaluate, count);
      w.config in P && w.loss == evaluate(w.config, ri) &&
      forall t :: t in P ==> w.loss <= evaluate(t, ri)
  {
    var P := Rungs(T0, n, r, eta, evaluate, count - 1).0;
    var ri := RungResource(r, eta, count - 1);
    var L := Evaluate(P, ri, evaluate);
    var k := CullSize(n, eta, count - 1);
    assert Rungs(T0, n, r, eta, evaluate, count) == TopK(P, L, k);
    TopKHeadIsMin(P, L, k);
    var j :| 0 <= j < |P| && P[j] == TopK(P, L, k).0[0] && L[j] == TopK(P, L, k).1[0];
    forall t | t in P
      ensures TopK(P, L, k).1[0] <= evaluate(t, ri)
    {
      var u :| 0 <= u < |P| && P[u] == t;
      assert L[u] == evaluate(t, ri);
    }
  }
}
