/** Combining bracket winners: the sequential variant's best-so-far update
    (replace only on a strictly lower loss) and the distributed variant's
    `min(results, key=lambda x: x.loss)`. */
module Aggregate {
  import opened Common

  /** The best-so-far after the given winners, folded left to right as the
      generator does: the first winner is taken, and a later one replaces
      the current best only when its loss is strictly lower. None before
      any winner. */
  function BestOf<C>(ws: seq<ConfigEvaluation<C>>): (b: Option<ConfigEvaluation<C>>)
    ensures b.Some? <==> |ws| > 0
    ensures b.Some? ==> b.value in ws
    ensures b.Some? ==> forall j :: 0 <= j < |ws| ==> b.value.loss <= ws[j].loss
  {
    if |ws| == 0 then None
    else
      var prev := BestOf(ws[..|ws| - 1]);
      var last := ws[|ws| - 1];
      assert ws == ws[..|ws| - 1] + [last];
      if prev.None? || last.loss < prev.value.loss then Some(last) else prev
  }

  /** The values the generator yields, one per completed bracket. */
  function BestSoFar<C>(ws: seq<ConfigEvaluation<C>>): (ys: seq<ConfigEvaluation<C>>)
    ensures |ys| == |ws|
  {
    if |ws| == 0 then [] else BestSoFar(ws[..|ws| - 1]) + [BestOf(ws).value]
  }

  /** One more winner: the best-so-far changes only to a strictly lower
      loss, and one more value is yielded. */
  lemma BestOfSnoc<C>(ws: seq<ConfigEvaluation<C>>, w: ConfigEvaluation<C>)
    ensures BestOf(ws + [w]) ==
      (if BestOf(ws).None? || w.loss < BestOf(ws).value.loss then Some(w) else BestOf(ws))
    ensures BestSoFar(ws + [w]) == BestSoFar(ws) + [BestOf(ws + [w]).value]
  {
    assert (ws + [w])[..|ws|] == ws;
  }

  /** The generator's step over a prefix: with the best-so-far and the
      yielded values of the first d winners in hand, the (d + 1)-th winner
      replaces the best only by a strictly lower loss, and the new best is
      yielded. */
  lemma BestOfPrefixStep<C>(ws: seq<ConfigEvaluation<C>>, d: nat, best: Option<ConfigEvaluation<C>>,
                            yielded: seq<ConfigEvaluation<C>>)
    requires d < |ws| && best == BestOf(ws[..d]) && yielded == BestSoFar(ws[..d])
    ensures var best' := if best.None? || ws[d].loss < best.value.loss then Some(ws[d]) else best;
      best' == BestOf(ws[..d + 1]) && yielded + [best'.value] == BestSoFar(ws[..d + 1])
  {
    assert ws[..d + 1] == ws[..d] + [ws[d]];
    BestOfSnoc(ws[..d], ws[d]);
  }

  /** The j-th yielded value is the best of the first j + 1 winners. */
  lemma {:induction false} BestSoFarAt<C>(ws: seq<ConfigEvaluation<C>>, j: nat)
    requires j < |ws|
    ensures BestSoFar(ws)[j] == BestOf(ws[..j + 1]).value
    decreases |ws|
  {
    if j < |ws| - 1 {
      BestSoFarAt(ws[..|ws| - 1], j);
      assert ws[..|ws| - 1][..j + 1] == ws[..j + 1];
    } else {
      assert ws[..j + 1] == ws;
    }
  }

  /** Yielded losses never increase, and the last yielded value is the
      best over all winners. */
  lemma BestSoFarMonotone<C>(ws: seq<ConfigEvaluation<C>>)
    ensures var ys := BestSoFar(ws);
      forall i, j :: 0 <= i <= j < |ys| ==> ys[j].loss <= ys[i].loss
    ensures |ws| > 0 ==> BestSoFar(ws)[|ws| - 1] == BestOf(ws).value
  {
    var ys := BestSoFar(ws);
    forall i, j | 0 <= i <= j < |ys|
      ensures ys[j].loss <= ys[i].loss
    {
      BestSoFarAt(ws, i);
      BestSoFarAt(ws, j);
      var yi := BestOf(ws[..i + 1]).value;
      var t :| 0 <= t < i + 1 && ws[..i + 1][t] == yi;
      assert ws[..j + 1][t] == yi;
    }
    if |ws| > 0 {
      BestSoFarAt(ws, |ws| - 1);
      assert ws[..|ws|] == ws;
    }
  }

  /** Python's `min(ws, key=loss)`: ValueError on an empty list, otherwise
      the running minimum, replaced only by a strictly lower loss. */
  function MinByLoss<C>(ws: seq<ConfigEvaluation<C>>): (res: Result<ConfigEvaluation<C>>)
    ensures res.Err? <==> |ws| == 0
    ensures res.Err? ==> res.error == EmptyMin
  {
    if |ws| == 0 then Err(EmptyMin) else Ok(MinFrom(ws[0], ws[1..]))
  }

  /** The running minimum from cur over rest: one of them, with a loss at
      most every other's. */
  function MinFrom<C>(cur: ConfigEvaluation<C>, rest: seq<ConfigEvaluation<C>>): (m: ConfigEvaluation<C>)
    ensures m == cur || m in rest
    ensures m.loss <= cur.loss && forall j :: 0 <= j < |rest| ==> m.loss <= rest[j].loss
    decreases |rest|
  {
    if |rest| == 0 then cur
    else MinFrom(if rest[0].loss < cur.loss then rest[0] else cur, rest[1..])
  }

  /** `min` by loss and the generator's best-so-far fold pick the same
      entry, so a non-empty list's `min` is an entry of least loss. */
  lemma MinByLossIsBestOf<C>(ws: seq<ConfigEvaluation<C>>)
    ensures MinByLoss(ws) == if |ws| == 0 then Err(EmptyMin) else Ok(BestOf(ws).value)
  {
    if |ws| > 0 {
      assert ws[..1] == [ws[0]];
      assert BestOf(ws[..1]) == Some(ws[0]) by {
        assert ws[..1][..0] == [];
      }
      MinFromIsBestOf(ws[..1], ws[1..]);
      assert ws[..1] + ws[1..] == ws;
    }
  }

  lemma {:induction false} MinFromIsBestOf<C>(pre: seq<ConfigEvaluation<C>>, rest: seq<ConfigEvaluation<C>>)
    requires |pre| > 0
    ensures MinFrom(BestOf(pre).value, rest) == BestOf(pre + rest).value
    decreases |rest|
  {
    if |rest| == 0 {
      assert pre + rest == pre;
    } else {
      var pre' := pre + [rest[0]];
      assert pre'[..|pre'| - 1] == pre;
      MinFromIsBestOf(pre', rest[1..]);
      assert pre' + rest[1..] == pre + rest;
    }
  }
}
