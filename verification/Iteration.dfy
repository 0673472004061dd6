/** Counted loops as functions, and what is true of two of them at once. */
module Iteration {
  /** The state after `n` turns of a loop whose turn number `i` is `step(_, i)`. */
  function Iterate<T>(step: (T, nat) -> T, v: T, n: nat): T
    decreases n, [v]
  {
    if n == 0 then v else step(Iterate(step, v, n - 1), n - 1)
  }

  lemma {:induction false} IterateKeeps<T(!new)>(step: (T, nat) -> T, inv: T -> bool, v: T, n: nat)
    requires forall w, i: nat :: inv(w) ==> inv(step(w, i))
    requires inv(v)
    ensures inv(Iterate(step, v, n))
    decreases n
  {
    if n > 0 {
      IterateKeeps(step, inv, v, n - 1);
    }
  }

  /** What holds at the end and passes backwards over every turn held throughout. */
  lemma {:induction false} IterateBack<T(!new)>(step: (T, nat) -> T, q: T -> bool, v: T, i: nat, n: nat)
    requires forall w, j: nat :: q(step(w, j)) ==> q(w)
    requires i <= n && q(Iterate(step, v, n))
    ensures q(Iterate(step, v, i))
    decreases n
  {
    if i < n {
      IterateBack(step, q, v, i, n - 1);
    }
  }

  lemma TurnBack<T(!new)>(step: (T, nat) -> T, q: T -> bool, v: T, i: nat, n: nat)
    requires forall w, j: nat :: q(step(w, j)) ==> q(w)
    requires i < n && q(Iterate(step, v, n))
    ensures q(Iterate(step, v, i)) && q(step(Iterate(step, v, i), i))
  {
    IterateBack(step, q, v, i, n);
    IterateBack(step, q, v, i + 1, n);
  }

  /** Two loops stay related if every turn relates them, given that the first ends well. */
  lemma {:induction false} IterateTogether<T(!new)>(f: (T, nat) -> T, g: (T, nat) -> T, q: T -> bool,
      r: (T, T, nat) -> bool, v: T, w: T, n: nat)
    requires forall a, j: nat :: q(f(a, j)) ==> q(a)
    requires forall a, b, j: nat :: q(f(a, j)) && r(a, b, j) ==> r(f(a, j), g(b, j), j + 1)
    requires q(Iterate(f, v, n)) && r(v, w, 0)
    ensures r(Iterate(f, v, n), Iterate(g, w, n), n)
    decreases n
  {
    if n > 0 {
      IterateTogether(f, g, q, r, v, w, n - 1);
    }
  }
}
