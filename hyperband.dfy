/** The sequential variant: a Hyperband object whose generator runs one
    bracket of successive halving per step (s = s_max down to 0, bracket s
    running s + 1 rungs) and yields the best configuration seen so far;
    `run` drains the generator and returns its last value. */
module Sequential {
  import opened Common
  import opened BracketPlanner
  import opened TopKSelection
  import opened Halving
  import opened Aggregate
  import opened Brackets

  /** What `run` returns: RuntimeError exactly when no bracket ran;
      otherwise the generator's last value, which is a least-loss bracket
      result over all brackets. */
  function RunResult<C>(sample: nat -> seq<C>, evaluate: (C, real) -> real, p: Schedule)
    : (res: Result<ConfigEvaluation<C>>)
    requires ScheduleOk(p) && SamplerOk(sample)
    ensures res.Err? <==> p.sMax < 0
    ensures res.Err? ==> res.error == NoConfigsEvaluated
    ensures res.Ok? ==>
      var ws := Winners(BracketIndex, sample, evaluate, p);
      res.value in ws && (forall j :: 0 <= j < |ws| ==> res.value.loss <= ws[j].loss) &&
      res.value == BestSoFar(ws)[|ws| - 1]
  {
    var ws := Winners(BracketIndex, sample, evaluate, p);
    BestSoFarMonotone(ws);
    match BestOf(ws)
    case None => Err(NoConfigsEvaluated)
    case Some(b) => Ok(b)
  }

  /** `run`'s result read off any list of the bracket results. */
  lemma RunResultOf<C>(sample: nat -> seq<C>, evaluate: (C, real) -> real, p: Schedule,
                       ws: seq<ConfigEvaluation<C>>)
    requires ResultsOf(BracketIndex, sample, evaluate, p, ws)
    ensures RunResult(sample, evaluate, p) ==
      if BestOf(ws).None? then Err(NoConfigsEvaluated) else Ok(BestOf(ws).value)
  {
    ResultsOfIsWinners(BracketIndex, sample, evaluate, p, ws);
  }

  /** The body of the bracket loop for bracket s: sample n configurations,
      run s + 1 rungs from r, and take the first survivor and its loss. */
  method RunBracket<C>(sample: nat -> seq<C>, evaluate: (C, real) -> real, p: Schedule, s: nat,
                       ghost ws: seq<ConfigEvaluation<C>>)
    returns (w: ConfigEvaluation<C>)
    requires ResultsOf(BracketIndex, sample, evaluate, p, ws) && s <= p.sMax
    ensures w == ws[p.sMax - s]
  {
    var n := BracketSize(p, s);
    var r := MinResource(p, s);
    var T, losses := HalveRungs(sample(n), n, r, p.eta, evaluate, s + 1);
    w := ConfigEvaluation(T[0], losses[0]);
    assert w == BracketWinner(BracketIndex, sample, evaluate, p, s);
  }

  /** The generator yields exactly one value per bracket, s_max + 1 in all
      (none for a negative s_max), and the yielded losses never increase. */
  lemma GeneratorYields<C>(sample: nat -> seq<C>, evaluate: (C, real) -> real, p: Schedule)
    requires ScheduleOk(p) && SamplerOk(sample)
    ensures var ys := BestSoFar(Winners(BracketIndex, sample, evaluate, p));
      |ys| == BracketCount(p.sMax) &&
      forall i, j :: 0 <= i <= j < |ys| ==> ys[j].loss <= ys[i].loss
  {
    BestSoFarMonotone(Winners(BracketIndex, sample, evaluate, p));
  }

  class Hyperband<C> {
    const sample: nat -> seq<C>           // get_hyperparameter_configuration
    const evaluate: (C, real) -> real     // run_then_return_val_loss
    const schedule: Schedule              // R, eta, s_max, B

    ghost predicate Valid()
    {
      ScheduleOk(schedule)
    }

    constructor (sample: nat -> seq<C>, evaluate: (C, real) -> real, schedule: Schedule)
      requires ScheduleOk(schedule)
      ensures Valid()
      ensures this.sample == sample && this.evaluate == evaluate && this.schedule == schedule
    {
      this.sample := sample;
      this.evaluate := evaluate;
      this.schedule := schedule;
    }

    /** `Hyperband(...)`: ValueError when R < 1 or eta <= 0 (ZeroDivisionError
        when eta == 1), otherwise an object holding R, eta, s_max and B. */
    static method New(sample: nat -> seq<C>, evaluate: (C, real) -> real, R: int, eta: int)
      returns (res: Result<Hyperband<C>>)
      ensures res.Err? <==> Plan(R, eta).Err?
      ensures res.Err? ==> res.error == Plan(R, eta).error
      ensures res.Ok? ==>
        fresh(res.value) && res.value.Valid() && res.value.schedule == Plan(R, eta).value &&
        res.value.sample == sample && res.value.evaluate == evaluate
    {
      var plan := Plan(R, eta);
      if plan.Err? {
        return Err(plan.error);
      }
      var h := new Hyperband(sample, evaluate, plan.value);
      return Ok(h);
    }

    /** `step_generator()`: a fresh generator positioned before bracket s_max. */
    method StepGenerator() returns (g: Generator<C>)
      requires Valid() && SamplerOk(sample)
      ensures fresh(g) && g.Valid() && g.hb == this
      ensures g.winners == Winners(BracketIndex, sample, evaluate, schedule)
      ensures g.s == schedule.sMax && g.best == None && g.yielded == []
    {
      g := new Generator(this);
    }

    /** `run()`: drain the generator, keeping its last value. */
    method Run() returns (res: Result<ConfigEvaluation<C>>)
      requires Valid() && SamplerOk(sample)
      ensures res == RunResult(sample, evaluate, schedule)
    {
      var gen := StepGenerator();
      var bestConfig: Option<ConfigEvaluation<C>> := None;
      while true
        invariant fresh(gen) && gen.Valid() && gen.hb == this
        invariant bestConfig == gen.best
        decreases gen.s + 1
      {
        var y := gen.Next();
        if y.None? {
          break;
        }
        bestConfig := y;
      }
      assert gen.winners[..gen.Done()] == gen.winners;
      RunResultOf(sample, evaluate, schedule, gen.winners);
      if bestConfig.None? {
        res := Err(NoConfigsEvaluated);
      } else {
        res := Ok(bestConfig.value);
      }
    }
  }

  /** The state of a running `step_generator`: the bracket it runs next
      and `best_config`, with the results of all brackets and the values
      yielded so far kept as ghosts. */
  class Generator<C> {
    const hb: Hyperband<C>
    ghost const winners: seq<ConfigEvaluation<C>>  // bracket results, s = s_max first
    var s: int                                      // next bracket index
    var best: Option<ConfigEvaluation<C>>           // best_config
    ghost var yielded: seq<ConfigEvaluation<C>>     // values yielded so far

    /** Number of brackets already run. */
    ghost function Done(): int
      reads this
    {
      BracketCount(hb.schedule.sMax) - BracketCount(s)
    }

    ghost predicate Valid()
      reads this
    {
      hb.Valid() && ResultsOf(BracketIndex, hb.sample, hb.evaluate, hb.schedule, winners) &&
      Min(-1, hb.schedule.sMax) <= s <= hb.schedule.sMax &&
      0 <= Done() <= |winners| &&
      best == BestOf(winners[..Done()]) &&
      yielded == BestSoFar(winners[..Done()])
    }

    constructor (hb: Hyperband<C>)
      requires hb.Valid() && SamplerOk(hb.sample)
      ensures Valid() && this.hb == hb
      ensures winners == Winners(BracketIndex, hb.sample, hb.evaluate, hb.schedule)
      ensures s == hb.schedule.sMax && best == None && yielded == []
    {
      this.hb := hb;
      winners := Winners(BracketIndex, hb.sample, hb.evaluate, hb.schedule);
      s := hb.schedule.sMax;
      best := None;
      yielded := [];
      new;
      ResultsOfIsWinners(BracketIndex, hb.sample, hb.evaluate, hb.schedule, winners);
    }

    /** One step of the generator: StopIteration (None) once s has passed 0;
        otherwise run bracket s, replace best_config only by a strictly lower
        loss, and yield it. */
    method Next() returns (y: Option<ConfigEvaluation<C>>)
      requires Valid()
      modifies this
      ensures Valid()
      ensures old(s) < 0 ==> y == None && s == old(s) && best == old(best) && yielded == old(yielded)
      ensures old(s) >= 0 ==> s == old(s) - 1 && y.Some? && y == best && yielded == old(yielded) + [y.value]
    {
      if s < 0 {
        return None;
      }
      var cur := s;
      var w := RunBracket(hb.sample, hb.evaluate, hb.schedule, cur, winners);
      ghost var d := Done();
      assert w == winners[d];
      BestOfPrefixStep(winners, d, best, yielded);
      if best.None? || w.loss < best.value.loss {
        best := Some(w);
      }
      yielded := yielded + [best.value];
      s := cur - 1;
      assert Done() == d + 1;
      y := best;
    }
  }
}
