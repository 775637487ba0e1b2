/** Optional values, results, and the one summation every byte and row count of the model uses. */
module Prelude {

  datatype Option<+T> = None | Some(value: T)

  datatype Result<+T, +E> = Ok(value: T) | Err(error: E)

  /** f(1) + ... + f(n): an aggregate over a table whose keys are drawn from 1..n. */
  function Total(n: nat, f: nat -> nat): nat {
    if n == 0 then 0 else Total(n - 1, f) + f(n)
  }

  lemma {:induction false} TotalMonotone(n: nat, f: nat -> nat, g: nat -> nat)
    requires forall i :: 1 <= i <= n ==> f(i) <= g(i)
    ensures Total(n, f) <= Total(n, g)
  {
    if n > 0 {
      TotalMonotone(n - 1, f, g);
    }
  }

  lemma TotalEqual(n: nat, f: nat -> nat, g: nat -> nat)
    requires forall i :: 1 <= i <= n ==> f(i) == g(i)
    ensures Total(n, f) == Total(n, g)
  {
    TotalMonotone(n, f, g);
    TotalMonotone(n, g, f);
  }

  lemma {:induction false} TotalAdds(n: nat, f: nat -> nat, g: nat -> nat, h: nat -> nat)
    requires forall i :: 1 <= i <= n ==> h(i) == f(i) + g(i)
    ensures Total(n, h) == Total(n, f) + Total(n, g)
  {
    if n > 0 {
      TotalAdds(n - 1, f, g, h);
    }
  }
}

/** Runs of any machine, folded over its steps. */
module Runs {
  ghost function Fold<W, S>(apply: (W, S) -> W, w: W, steps: seq<S>): W {
    if steps == [] then w else apply(Fold(apply, w, steps[..|steps| - 1]), steps[|steps| - 1])
  }

  lemma FoldOne<W, S>(apply: (W, S) -> W, w: W, steps: seq<S>, step: S)
    ensures Fold(apply, w, steps + [step]) == apply(Fold(apply, w, steps), step)
  {
    assert (steps + [step])[..|steps|] == steps;
  }

  lemma {:induction false} FoldContinues<W, S>(apply: (W, S) -> W, w: W, steps: seq<S>, more: seq<S>)
    ensures Fold(apply, w, steps + more) == Fold(apply, Fold(apply, w, steps), more)
  {
    if more == [] {
      assert steps + more == steps;
    } else {
      var rest, last := more[..|more| - 1], more[|more| - 1];
      FoldContinues(apply, w, steps, rest);
      FoldOne(apply, w, steps + rest, last);
      assert steps + more == steps + rest + [last];
    }
  }
}
