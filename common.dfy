/** Values shared by both variants of the Hyperband scheduler. */
module Common {

  datatype Option<T> = None | Some(value: T)

  /** The exceptions the two variants raise, one constructor per raise site. */
  datatype Error =
    | RTooSmall          // ValueError: R must be >= 1.0
    | EtaNotPositive     // ValueError: eta must be > 0
    | LogBaseOne         // ZeroDivisionError inside math.log(x, eta) when eta == 1
    | MathDomain         // ValueError from math.log(n, eta) when n or eta is not positive
    | NoConfigsEvaluated // RuntimeError from the sequential run when no bracket ran
    | EmptyMin           // ValueError from min() over an empty list of bracket results

  datatype Result<T> = Ok(value: T) | Err(error: Error)

  /** A configuration paired with the loss it obtained (the source's ConfigEvaluation). */
  datatype ConfigEvaluation<C> = ConfigEvaluation(config: C, loss: real)

  function Min(a: int, b: int): (m: int)
    ensures m <= a && m <= b && (m == a || m == b)
  {
    if a <= b then a else b
  }

  function Max(a: int, b: int): (m: int)
    ensures m >= a && m >= b && (m == a || m == b)
  {
    if a >= b then a else b
  }

  /** The sampler's documented contract: asked for m configurations, it returns m of them. */
  ghost predicate SamplerOk<C>(sample: nat -> seq<C>)
  {
    forall m: nat :: |sample(m)| == m
  }
}
