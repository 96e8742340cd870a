/** The arithmetic behind the termination bound of an interview: what is
    left of a session's budget of topics, topic turns and retries, the
    number of answers that budget still allows, and the fact that a budget
    lower in lexicographic order allows fewer answers. */
module Budgets {
  /** `x * y`, written out so that the solver unfolds it only on demand. */
  function Mul(x: nat, y: nat): nat
    decreases x
  {
    if x == 0 then 0 else y + Mul(x - 1, y)
  }

  lemma {:induction false} MulIsProduct(x: nat, y: nat)
    ensures Mul(x, y) == x * y
    decreases x
  {
    if x > 0 {
      MulIsProduct(x - 1, y);
    }
  }

  lemma {:induction false} MulMonotone(x: nat, y: nat, c: nat)
    requires x <= y
    ensures Mul(x, c) <= Mul(y, c)
    decreases y
  {
    if x < y {
      MulMonotone(x, y - 1, c);
    }
  }

  /** `a - b`, or zero when `b` exceeds `a`. */
  function Left(a: nat, b: nat): nat {
    if a >= b then a - b else 0
  }

  /** What is left of a session: topics not yet finished, turns left on
      the current topic, retries left on the current question. */
  datatype Budget = Budget(topics: nat, turns: nat, retries: nat)

  /** Lexicographic order on budgets. */
  predicate Below(a: Budget, b: Budget) {
    || a.topics < b.topics
    || (a.topics == b.topics && a.turns < b.turns)
    || (a.topics == b.topics && a.turns == b.turns && a.retries < b.retries)
  }

  /** Below in the first two components, whatever the retries. */
  predicate TurnBelow(a: Budget, b: Budget) {
    a.topics < b.topics || (a.topics == b.topics && a.turns < b.turns)
  }

  /** The answers a budget still allows under the limits `maxIterations`
      on topic turns and `maxRetries` on retries. */
  function Answers(x: Budget, maxIterations: nat, maxRetries: nat): nat {
    Mul(x.topics, Mul(maxIterations + 1, maxRetries + 1)) + Mul(x.turns, maxRetries + 1) + x.retries
  }

  /** Within the limits, a lower budget allows fewer answers. */
  lemma BelowLowersAnswers(a: Budget, b: Budget, maxIterations: nat, maxRetries: nat)
    requires a.turns <= maxIterations && a.retries <= maxRetries
    requires Below(a, b)
    ensures Answers(a, maxIterations, maxRetries) < Answers(b, maxIterations, maxRetries)
  {
    var cycle := Mul(maxIterations + 1, maxRetries + 1);
    if a.topics < b.topics {
      MulMonotone(a.turns, maxIterations, maxRetries + 1);
      assert cycle == maxRetries + 1 + Mul(maxIterations, maxRetries + 1);
      assert Mul(a.topics + 1, cycle) == cycle + Mul(a.topics, cycle);
      MulMonotone(a.topics + 1, b.topics, cycle);
    } else if a.turns < b.turns {
      assert Mul(a.turns + 1, maxRetries + 1) == maxRetries + 1 + Mul(a.turns, maxRetries + 1);
      MulMonotone(a.turns + 1, b.turns, maxRetries + 1);
    }
  }

  /** A full budget of `n` topics allows one answer fewer than
      (n + 1)(I + 1)(R + 1). */
  lemma FullBudget(n: nat, maxIterations: nat, maxRetries: nat)
    ensures Answers(Budget(n, maxIterations, maxRetries), maxIterations, maxRetries) + 1 ==
      Mul(n + 1, Mul(maxIterations + 1, maxRetries + 1))
  {
    assert Mul(maxIterations + 1, maxRetries + 1) == maxRetries + 1 + Mul(maxIterations, maxRetries + 1);
  }
}
