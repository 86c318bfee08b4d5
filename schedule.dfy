/** The Hyperband schedule: what the constructor checks and fixes (R, eta,
    s_max, B), the (n, r) pair of each bracket, and the population n_i,
    resource r_i and cull size of each rung of a bracket. Both variants use
    the same formulas. */
module BracketPlanner {
  import opened Common
  import opened Arith

  /** The fields the constructor sets: R, eta, s_max and B. */
  datatype Schedule = Schedule(R: nat, eta: nat, sMax: int, B: int)

  /** What every constructed schedule satisfies. s_max is left free: the
      bracket loop and the run are specified for every integer s_max,
      including the negative ones a fractional eta would produce. */
  ghost predicate ScheduleOk(p: Schedule)
  {
    p.R >= 1 && p.eta >= 2 && p.B == (p.sMax + 1) * p.R
  }

  /** The constructor's validation and schedule. R is checked before eta;
      eta == 1 passes validation but makes math.log(R, eta) divide by zero. */
  function Plan(R: int, eta: int): (res: Result<Schedule>)
    ensures res.Err? <==> R < 1 || eta <= 1
    ensures R < 1 ==> res == Err(RTooSmall)
    ensures R >= 1 && eta <= 0 ==> res == Err(EtaNotPositive)
    ensures R >= 1 && eta == 1 ==> res == Err(LogBaseOne)
    ensures res.Ok? ==>
      var p := res.value;
      ScheduleOk(p) && p.R == R && p.eta == eta && p.sMax >= 0 &&
      Pow(p.eta, p.sMax) <= R < Pow(p.eta, p.sMax + 1)
  {
    if R < 1 then Err(RTooSmall)
    else if eta <= 0 then Err(EtaNotPositive)
    else if eta == 1 then Err(LogBaseOne)
    else
      var sMax := ILog(eta, R);
      Ok(Schedule(R, eta, sMax, (sMax + 1) * R))
  }

  /** Number of iterations of `range(s_max, -1, -1)`: none when s_max < 0,
      otherwise enough that the last bracket run is s = 0. */
  function BracketCount(sMax: int): (c: nat)
    ensures c == 0 <==> sMax < 0
    ensures c > 0 ==> sMax - (c - 1) == 0
  {
    if sMax < 0 then 0 else sMax + 1
  }

  /** n = ceil(B * eta^s / (R * (s + 1))): the bracket's initial population. */
  function BracketSize(p: Schedule, s: nat): (n: nat)
    requires ScheduleOk(p) && s <= p.sMax
    ensures n >= 1
  {
    var e := Pow(p.eta, s);
    var n := CeilDiv(p.B * e, p.R * (s + 1));
    CeilDivBounds(p.B * e, p.R * (s + 1));
    BracketSizeFacts(p.R, p.sMax, s, e, n);
    n
  }

  /** R cancels in n's formula, so n is the ceiling of (s_max + 1) * eta^s
      / (s + 1); it is at least eta^s because s <= s_max. */
  lemma BracketSizeIsCeiling(p: Schedule, s: nat)
    requires ScheduleOk(p) && s <= p.sMax
    ensures var n := BracketSize(p, s);
      (s + 1) * (n - 1) < (p.sMax + 1) * Pow(p.eta, s) <= (s + 1) * n &&
      n >= Pow(p.eta, s)
  {
    var e := Pow(p.eta, s);
    CeilDivBounds(p.B * e, p.R * (s + 1));
    BracketSizeFacts(p.R, p.sMax, s, e, BracketSize(p, s));
  }

  lemma BracketSizeFacts(R: nat, sMax: nat, s: nat, e: nat, n: nat)
    requires R >= 1 && s <= sMax && e >= 1
    requires (R * (s + 1)) * (n - 1) < ((sMax + 1) * R) * e <= (R * (s + 1)) * n
    ensures (s + 1) * (n - 1) < (sMax + 1) * e <= (s + 1) * n
    ensures n >= e
  {
    var lo, mid, hi := (s + 1) * (n - 1), (sMax + 1) * e, (s + 1) * n;
    MulAssoc(R, s + 1, n - 1);
    MulAssoc(R, s + 1, n);
    MulAssoc(sMax + 1, R, e);
    MulRotate(sMax + 1, R, e);
    CancelLt(R, lo, mid);
    CancelLe(R, mid, hi);
    MulLeft(e, s + 1, sMax + 1);
    assert (s + 1) * e <= hi;
    CancelLe(s + 1, e, n);
  }

  lemma CancelLt(k: nat, x: int, y: int)
    requires k >= 1 && k * x < k * y
    ensures x < y
  {
    if x >= y {
      MulLeft(k, y, x);
    }
  }

  lemma CancelLe(k: nat, x: int, y: int)
    requires k >= 1 && k * x <= k * y
    ensures x <= y
  {
    if x > y {
      MulLeft(k, y + 1, x);
    }
  }

  /** r = R * eta^-s: the bracket's minimum resource. */
  function MinResource(p: Schedule, s: nat): (r: real)
    requires ScheduleOk(p)
    ensures r > 0.0
  {
    (p.R as real) / (Pow(p.eta, s) as real)
  }

  /** r is positive, and scaling it back by eta^s gives R. */
  lemma MinResourceScales(p: Schedule, s: nat)
    requires ScheduleOk(p)
    ensures MinResource(p, s) > 0.0
    ensures MinResource(p, s) * (Pow(p.eta, s) as real) == p.R as real
  {
  }

  /** n_i = floor(n * eta^-i): the population bound of rung i. */
  function RungSize(n: nat, eta: nat, i: nat): (ni: nat)
    requires eta >= 2
    ensures ni <= n
  {
    DivAtMost(n, Pow(eta, i));
    n / Pow(eta, i)
  }

  /** r_i = r * eta^i: the resource every survivor gets at rung i; the
      first rung gets r itself. */
  function RungResource(r: real, eta: nat, i: nat): (ri: real)
    ensures i == 0 ==> ri == r
  {
    r * (Pow(eta, i) as real)
  }

  /** max(1, floor(n_i / eta)): how many configurations survive rung i. */
  function CullSize(n: nat, eta: nat, i: nat): (k: nat)
    requires eta >= 2
    ensures 1 <= k <= Max(1, RungSize(n, eta, i))
  {
    DivAtMost(RungSize(n, eta, i), eta);
    Max(1, RungSize(n, eta, i) / eta)
  }

  /** Population bounds never grow from one rung to the next: n_(i+1) is
      n_i / eta, so it is at most n_i. */
  lemma RungSizeStep(n: nat, eta: nat, i: nat)
    requires eta >= 2
    ensures RungSize(n, eta, i + 1) == RungSize(n, eta, i) / eta
    ensures RungSize(n, eta, i + 1) <= RungSize(n, eta, i)
  {
    PowSucc(eta, i);
    DivStep(n, Pow(eta, i), eta);
  }

  /** Population bounds are non-increasing across a bracket's rungs. */
  lemma {:induction false} RungSizeNonIncreasing(n: nat, eta: nat, i: nat, j: nat)
    requires eta >= 2 && i <= j
    ensures RungSize(n, eta, j) <= RungSize(n, eta, i)
    decreases j - i
  {
    if i < j {
      RungSizeStep(n, eta, i);
      RungSizeNonIncreasing(n, eta, i + 1, j);
    }
  }

  /** Each rung's resource is eta times the previous one's. */
  lemma RungResourceStep(r: real, eta: nat, i: nat)
    ensures RungResource(r, eta, i + 1) == RungResource(r, eta, i) * (eta as real)
  {
    var e := Pow(eta, i);
    PowSucc(eta, i);
    assert (eta * e) as real == (eta as real) * (e as real);
  }

  /** Resource levels are non-decreasing across a bracket's rungs. */
  lemma {:induction false} RungResourceNonDecreasing(r: real, eta: nat, i: nat, j: nat)
    requires eta >= 2 && r >= 0.0 && i <= j
    ensures RungResource(r, eta, i) <= RungResource(r, eta, j)
    decreases j - i
  {
    if i < j {
      RungResourceNonDecreasing(r, eta, i + 1, j);
      RungResourceStep(r, eta, i);
      assert RungResource(r, eta, i) >= 0.0;
      ScaleUp(RungResource(r, eta, i), eta as real);
    }
  }

  /** The cull size is at least 1 even when n_i < eta, never more than
      max(1, n_i), and equals max(1, n_(i+1)). */
  lemma CullSizeBounds(n: nat, eta: nat, i: nat)
    requires eta >= 2
    ensures 1 <= CullSize(n, eta, i) <= Max(1, RungSize(n, eta, i))
    ensures CullSize(n, eta, i) == Max(1, RungSize(n, eta, i + 1))
  {
    RungSizeStep(n, eta, i);
  }

  /** Bracket s of a valid schedule: its last rung (i = s) runs at exactly
      R, no rung runs above R, and every rung's population bound is at
      least 1. */
  lemma BracketStaysWithinR(p: Schedule, s: nat, i: nat)
    requires ScheduleOk(p) && s <= p.sMax && i <= s
    ensures RungResource(MinResource(p, s), p.eta, s) == p.R as real
    ensures RungResource(MinResource(p, s), p.eta, i) <= p.R as real
    ensures RungSize(BracketSize(p, s), p.eta, i) >= 1
  {
    LastRungAtR(p, s);
    RungResourceNonDecreasing(MinResource(p, s), p.eta, i, s);
    RungsNonEmpty(p, s, i);
  }

  lemma LastRungAtR(p: Schedule, s: nat)
    requires ScheduleOk(p)
    ensures RungResource(MinResource(p, s), p.eta, s) == p.R as real
    ensures MinResource(p, s) >= 0.0
  {
    MinResourceScales(p, s);
  }

  lemma RungsNonEmpty(p: Schedule, s: nat, i: nat)
    requires ScheduleOk(p) && s <= p.sMax && i <= s
    ensures RungSize(BracketSize(p, s), p.eta, i) >= 1
  {
    BracketSizeIsCeiling(p, s);
    PowMonotone(p.eta, i, s);
    DivAtLeastOne(BracketSize(p, s), Pow(p.eta, i));
  }

  /** The worked example R = 81, eta = 3: s_max = 4, B = 405 and brackets
      (n, r) = (81, 1), (34, 3), (15, 9), (8, 27), (5, 81) for s = 4 .. 0. */
  lemma Schedule81()
    ensures Plan(81, 3) == Ok(Schedule(81, 3, 4, 405))
    ensures var p := Schedule(81, 3, 4, 405);
      BracketSize(p, 4) == 81 && MinResource(p, 4) == 1.0 &&
      BracketSize(p, 3) == 34 && MinResource(p, 3) == 3.0 &&
      BracketSize(p, 2) == 15 && MinResource(p, 2) == 9.0 &&
      BracketSize(p, 1) == 8 && MinResource(p, 1) == 27.0 &&
      BracketSize(p, 0) == 5 && MinResource(p, 0) == 81.0
  {
    assert Pow(3, 4) == 81 && Pow(3, 5) == 243;
    assert ILog(3, 81) == 4;
  }
}
