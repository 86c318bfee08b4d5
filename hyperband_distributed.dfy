/** The distributed variant: every bracket is one call of a stand-alone
    successive halving, which recomputes its own rung count floor(log_eta n)
    from n; `run` submits one call per bracket and returns the entry of
    least loss among their results. The worker pool is modelled as running
    each rung's evaluations, and then each bracket, one after another. */
module Distributed {
  import opened Common
  import opened Arith
  import opened BracketPlanner
  import opened Halving
  import opened Aggregate
  import opened Brackets

  /** `successive_halving(n, r, eta, ...)`: ValueError from math.log when
      n or eta is not positive, ZeroDivisionError when eta == 1, otherwise
      the first survivor of RungCount(n, eta) rungs and its loss. */
  function HalvingResult<C>(sample: nat -> seq<C>, evaluate: (C, real) -> real, n: int, r: real, eta: int)
    : (res: Result<ConfigEvaluation<C>>)
    requires SamplerOk(sample)
    ensures res.Err? <==> n < 1 || eta <= 1
    ensures n < 1 || eta <= 0 ==> res == Err(MathDomain)
    ensures n >= 1 && eta == 1 ==> res == Err(LogBaseOne)
  {
    if n < 1 || eta <= 0 then Err(MathDomain)
    else if eta == 1 then Err(LogBaseOne)
    else Ok(Winner(sample(n), n, r, eta, evaluate, RungCount(n, eta)))
  }

  /** A successful result is a survivor of the final rung, carrying its
      evaluation at that rung's resource r * eta^s, and no survivor of the
      final rung evaluated lower. */
  lemma HalvingResultIsBestOfLastRung<C>(sample: nat -> seq<C>, evaluate: (C, real) -> real,
                                         n: int, r: real, eta: int)
    requires SamplerOk(sample)
    requires HalvingResult(sample, evaluate, n, r, eta).Ok?
    ensures var s := RungCount(n, eta) - 1;
      var P := Rungs(sample(n), n, r, eta, evaluate, s).0;
      var w := HalvingResult(sample, evaluate, n, r, eta).value;
      w.config in P && w.loss == evaluate(w.config, RungResource(r, eta, s)) &&
      forall t :: t in P ==> w.loss <= evaluate(t, RungResource(r, eta, s))
  {
    WinnerIsBestOfLastRung(sample(n), n, r, eta, evaluate, RungCount(n, eta));
  }

  /** `successive_halving`: sample n configurations, compute the rung count,
      run the rung loop, and return the first survivor with its loss. */
  method SuccessiveHalving<C>(n: int, r: real, eta: int, sample: nat -> seq<C>, evaluate: (C, real) -> real)
    returns (res: Result<ConfigEvaluation<C>>)
    requires SamplerOk(sample)
    ensures res == HalvingResult(sample, evaluate, n, r, eta)
  {
    if n < 1 || eta <= 0 {
      res := Err(MathDomain);
    } else if eta == 1 {
      res := Err(LogBaseOne);
    } else {
      var T := sample(n);
      var s := ILog(eta, n);
      var losses: seq<real>;
      assert s + 1 == RungCount(n, eta);
      T, losses := HalveRungs(T, n, r, eta, evaluate, s + 1);
      res := Ok(ConfigEvaluation(T[0], losses[0]));
    }
  }

  /** What `run` returns: ValueError from `min` of an empty list exactly
      when no bracket ran; otherwise a bracket result of least loss. */
  function RunResult<C>(sample: nat -> seq<C>, evaluate: (C, real) -> real, p: Schedule)
    : (res: Result<ConfigEvaluation<C>>)
    requires ScheduleOk(p) && SamplerOk(sample)
    ensures res.Err? <==> p.sMax < 0
    ensures res.Err? ==> res.error == EmptyMin
    ensures res.Ok? ==>
      var ws := Winners(PopulationLog, sample, evaluate, p);
      res.value in ws && forall j :: 0 <= j < |ws| ==> res.value.loss <= ws[j].loss
  {
    var ws := Winners(PopulationLog, sample, evaluate, p);
    MinByLossIsBestOf(ws);
    MinByLoss(ws)
  }

  /** `run`'s result read off any list of the bracket results. */
  lemma RunResultOf<C>(sample: nat -> seq<C>, evaluate: (C, real) -> real, p: Schedule,
                       ws: seq<ConfigEvaluation<C>>)
    requires ResultsOf(PopulationLog, sample, evaluate, p, ws)
    ensures RunResult(sample, evaluate, p) == MinByLoss(ws)
  {
    ResultsOfIsWinners(PopulationLog, sample, evaluate, p, ws);
  }

  /** One `client.submit(successive_halving, n, r, eta, ...)` for bracket s,
      awaited: its result is entry s_max - s of the bracket results. */
  method Submit<C>(sample: nat -> seq<C>, evaluate: (C, real) -> real, p: Schedule, s: nat,
                   ghost ws: seq<ConfigEvaluation<C>>)
    returns (w: ConfigEvaluation<C>)
    requires ResultsOf(PopulationLog, sample, evaluate, p, ws) && s <= p.sMax
    ensures w == ws[p.sMax - s]
  {
    var n := BracketSize(p, s);
    var r := MinResource(p, s);
    var res := SuccessiveHalving(n, r, p.eta, sample, evaluate);
    w := res.value;
    assert w == BracketWinner(PopulationLog, sample, evaluate, p, s);
  }

  /** A rung beyond the sequential variant's last one (i > s) runs above R. */
  lemma ExtraRungsExceedR(p: Schedule, s: nat, i: nat)
    requires ScheduleOk(p) && s <= p.sMax && s < i
    ensures RungResource(MinResource(p, s), p.eta, i) > p.R as real
  {
    var r := MinResource(p, s);
    BracketStaysWithinR(p, s, s);
    MinResourceScales(p, s);
    RungResourceNonDecreasing(r, p.eta, s + 1, i);
    RungResourceStep(r, p.eta, s);
  }

  /** When the stand-alone rung count exceeds s + 1, the last rung the
      bracket runs is allocated more than R. */
  lemma PopulationRungsExceedR(p: Schedule, s: nat)
    requires ScheduleOk(p) && s <= p.sMax && BracketRungs(PopulationLog, p, s) > s + 1
    ensures RungResource(MinResource(p, s), p.eta, BracketRungs(PopulationLog, p, s) - 1) > p.R as real
  {
    ExtraRungsExceedR(p, s, BracketRungs(PopulationLog, p, s) - 1);
  }

  /** For R = 81 and eta = 3, bracket 0 has n = 5 and r = 81, so it runs
      two rungs (one in the sequential variant), the second at 243 > R. */
  lemma Bracket0Of81()
    ensures var p := Schedule(81, 3, 4, 405);
      BracketSize(p, 0) == 5 && MinResource(p, 0) == 81.0 &&
      RungCount(5, 3) == 2 && RungResource(81.0, 3, 1) == 243.0
  {
    Schedule81();
    assert Pow(3, 1) == 3 && Pow(3, 2) == 9;
    assert ILog(3, 5 / 3) == 0;
  }

  class Hyperband<C> {
    const sample: nat -> seq<C>           // get_hyperparameter_configuration
    const evaluate: (C, real) -> real     // run_then_return_val_loss
    const schedule: Schedule              // R, eta, s_max, B

    ghost predicate Valid()
    {
      ScheduleOk(schedule)
    }

    constructor (sample: nat -> seq<C>, evaluate: (C, real) -> real, schedule: Schedule)
      requires ScheduleOk(schedule)
      ensures Valid()
      ensures this.sample == sample && this.evaluate == evaluate && this.schedule == schedule
    {
      this.sample := sample;
      this.evaluate := evaluate;
      this.schedule := schedule;
    }

    /** `Hyperband(...)`: the same validation and schedule as the sequential
        variant; the dask client is not part of this model. */
    static method New(sample: nat -> seq<C>, evaluate: (C, real) -> real, R: int, eta: int)
      returns (res: Result<Hyperband<C>>)
      ensures res.Err? <==> Plan(R, eta).Err?
      ensures res.Err? ==> res.error == Plan(R, eta).error
      ensures res.Ok? ==>
        fresh(res.value) && res.value.Valid() && res.value.schedule == Plan(R, eta).value &&
        res.value.sample == sample && res.value.evaluate == evaluate
    {
      var plan := Plan(R, eta);
      if plan.Err? {
        return Err(plan.error);
      }
      var h := new Hyperband(sample, evaluate, plan.value);
      return Ok(h);
    }

    /** `run()`: submit one successive halving per bracket s = s_max .. 0,
        gather the results in submission order, and take `min` by loss. */
    method Run() returns (res: Result<ConfigEvaluation<C>>)
      requires Valid() && SamplerOk(sample)
      ensures res == RunResult(sample, evaluate, schedule)
    {
      ghost var ws := BracketResults(PopulationLog, sample, evaluate, schedule);
      var futures: seq<ConfigEvaluation<C>> := [];
      var s := schedule.sMax;
      while s >= 0
        invariant Min(-1, schedule.sMax) <= s <= schedule.sMax
        invariant |futures| == schedule.sMax - s
        invariant futures == ws[..|futures|]
      {
        var w := Submit(sample, evaluate, schedule, s, ws);
        futures := futures + [w];
        s := s - 1;
      }
      assert futures == ws;
      RunResultOf(sample, evaluate, schedule, ws);
      res := MinByLoss(futures);
    }
  }
}
