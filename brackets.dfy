/** The brackets both variants run, s = s_max down to 0, each one a run of
    successive halving from n = BracketSize and r = MinResource. The two
    variants differ only in how many rungs a bracket runs. */
module Brackets {
  import opened Common
  import opened Arith
  import opened BracketPlanner
  import opened Halving

  /** How a bracket's rung count is chosen: s + 1 from the bracket index
      (the sequential generator), or floor(log_eta n) + 1 from the
      population (the stand-alone successive halving). */
  datatype RungRule = BracketIndex | PopulationLog

  /** Rungs run by bracket s. Either rule runs at least s + 1 of them,
      because n >= eta^s. */
  function BracketRungs(rule: RungRule, p: Schedule, s: nat): (c: nat)
    requires ScheduleOk(p) && s <= p.sMax
    ensures c >= s + 1
  {
    match rule
    case BracketIndex => s + 1
    case PopulationLog =>
      AtLeastSequentialRungs(p, s);
      RungCount(BracketSize(p, s), p.eta)
  }

  /** The stand-alone rung count of bracket s is at least s + 1: n >= eta^s,
      so floor(log_eta n) >= s. */
  lemma AtLeastSequentialRungs(p: Schedule, s: nat)
    requires ScheduleOk(p) && s <= p.sMax
    ensures RungCount(BracketSize(p, s), p.eta) >= s + 1
  {
    BracketSizeIsCeiling(p, s);
    ILogAtLeast(p.eta, BracketSize(p, s), s);
  }

  /** Under the sequential rule every rung a bracket runs stays within R:
      rung i < s + 1 runs at r * eta^i <= r * eta^s = R. */
  lemma IndexRungsWithinR(p: Schedule, s: nat, i: nat)
    requires ScheduleOk(p) && s <= p.sMax && i < BracketRungs(BracketIndex, p, s)
    ensures RungResource(MinResource(p, s), p.eta, i) <= p.R as real
    ensures RungSize(BracketSize(p, s), p.eta, i) >= 1
  {
    BracketStaysWithinR(p, s, i);
  }

  /** The result of bracket s: the first survivor of its last rung and that
      survivor's loss. It is one of the configurations sampled for it. */
  function BracketWinner<C>(rule: RungRule, sample: nat -> seq<C>, evaluate: (C, real) -> real,
                            p: Schedule, s: nat): (w: ConfigEvaluation<C>)
    requires ScheduleOk(p) && SamplerOk(sample) && s <= p.sMax
    ensures w.config in sample(BracketSize(p, s))
  {
    var n := BracketSize(p, s);
    Winner(sample(n), n, MinResource(p, s), p.eta, evaluate, BracketRungs(rule, p, s))
  }

  /** The results of all brackets, in the order they run: entry j is the
      result of bracket s_max - j; none when s_max < 0. */
  function Winners<C>(rule: RungRule, sample: nat -> seq<C>, evaluate: (C, real) -> real, p: Schedule)
    : (ws: seq<ConfigEvaluation<C>>)
    requires ScheduleOk(p) && SamplerOk(sample)
    ensures |ws| == BracketCount(p.sMax)
  {
    seq(BracketCount(p.sMax), j requires 0 <= j < BracketCount(p.sMax) =>
      BracketWinner(rule, sample, evaluate, p, p.sMax - j))
  }

  /** ws lists the bracket results in run order: entry s_max - s is the
      result of bracket s. The fact is indexed by the bracket result itself,
      so a proof that never names a bracket result never unfolds one. */
  ghost predicate ResultsOf<C>(rule: RungRule, sample: nat -> seq<C>, evaluate: (C, real) -> real,
                               p: Schedule, ws: seq<ConfigEvaluation<C>>)
  {
    ScheduleOk(p) && SamplerOk(sample) && |ws| == BracketCount(p.sMax) &&
    forall s: nat {:trigger BracketWinner(rule, sample, evaluate, p, s)} :: s <= p.sMax ==>
      ws[p.sMax - s] == BracketWinner(rule, sample, evaluate, p, s)
  }

  /** The winners are the only sequence of bracket results. */
  lemma ResultsOfIsWinners<C>(rule: RungRule, sample: nat -> seq<C>, evaluate: (C, real) -> real,
                              p: Schedule, ws: seq<ConfigEvaluation<C>>)
    requires ScheduleOk(p) && SamplerOk(sample)
    ensures ResultsOf(rule, sample, evaluate, p, ws) <==> ws == Winners(rule, sample, evaluate, p)
  {
    WinnersAreResults(rule, sample, evaluate, p);
    if ResultsOf(rule, sample, evaluate, p, ws) {
      ResultsAreWinners(rule, sample, evaluate, p, ws);
    }
  }

  lemma WinnersAreResults<C>(rule: RungRule, sample: nat -> seq<C>, evaluate: (C, real) -> real, p: Schedule)
    requires ScheduleOk(p) && SamplerOk(sample)
    ensures ResultsOf(rule, sample, evaluate, p, Winners(rule, sample, evaluate, p))
  {
    var wn := Winners(rule, sample, evaluate, p);
    forall s: nat | s <= p.sMax
      ensures wn[p.sMax - s] == BracketWinner(rule, sample, evaluate, p, s)
    {
      var j := p.sMax - s;
      assert wn[j] == BracketWinner(rule, sample, evaluate, p, p.sMax - j);
    }
  }

  lemma ResultsAreWinners<C>(rule: RungRule, sample: nat -> seq<C>, evaluate: (C, real) -> real,
                             p: Schedule, ws: seq<ConfigEvaluation<C>>)
    requires ResultsOf(rule, sample, evaluate, p, ws)
    ensures ws == Winners(rule, sample, evaluate, p)
  {
    var wn := Winners(rule, sample, evaluate, p);
    forall j | 0 <= j < |ws|
      ensures ws[j] == wn[j]
    {
      var s: nat := p.sMax - j;
      assert ws[p.sMax - s] == BracketWinner(rule, sample, evaluate, p, s);
    }
  }

  /** The bracket results exist: the winners list them. */
  lemma BracketResults<C>(rule: RungRule, sample: nat -> seq<C>, evaluate: (C, real) -> real, p: Schedule)
    returns (ws: seq<ConfigEvaluation<C>>)
    requires ScheduleOk(p) && SamplerOk(sample)
    ensures ResultsOf(rule, sample, evaluate, p, ws)
  {
    ws := Winners(rule, sample, evaluate, p);
    ResultsOfIsWinners(rule, sample, evaluate, p, ws);
  }
}
