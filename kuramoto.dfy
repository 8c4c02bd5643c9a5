/** The phase half of flownetpy/flowmodel/kuramoto.py: phase wrapping
    (`_mod_pi`), the winding number of each basis cycle (`_omega`) and the
    random initial guess (`_random_stableop_initguess`). The integrator,
    the convergence test, the search and the flow projection are in module
    KuramotoSolver. */
module Kuramoto {
  import opened Numerics
  import opened Network

  // ---------------------------------------------------------------------
  // Phase wrapping (`_mod_pi`)
  // ---------------------------------------------------------------------

  /** `np.remainder(x, 2π)`: the floored remainder, which lies in [0, 2π). */
  function Remainder(x: real): (r: real)
    ensures 0.0 <= r < TWO_PI
    ensures r == x - Turn(Turns(x))
  {
    x - Turn(Turns(x))
  }

  /** The number of whole turns `_mod_pi` takes off its argument. */
  function WrapTurns(x: real): int
  {
    if Remainder(x) <= PI then Turns(x) else Turns(x) + 1
  }

  /** `_mod_pi(x)`: the remainder is kept when it is at most π and moved
      down by 2π otherwise, so the result lies in (-π, π] and differs from
      x by whole turns. */
  function ModPi(x: real): (r: real)
    ensures -PI < r <= PI
    ensures r == x - Turn(WrapTurns(x))
  {
    var rem := Remainder(x);
    if rem <= PI then rem else rem - TWO_PI
  }

  /** `_mod_pi` is the one angle in (-π, π] that differs from x by a whole
      number of turns. */
  lemma ModPiUnique(x: real, r: real, k: int)
    requires -PI < r <= PI
    requires r == x + Turn(k)
    ensures ModPi(x) == r
  {
    var j := k + WrapTurns(x);
    assert r - ModPi(x) == Turn(j);
  }

  /** Adding whole turns does not change the wrapped angle. */
  lemma ModPiPeriodic(x: real, k: int)
    ensures ModPi(x + Turn(k)) == ModPi(x)
  {
    ModPiUnique(x + Turn(k), ModPi(x), -k - WrapTurns(x));
  }

  /** Angles already in (-π, π] are left alone. */
  lemma ModPiFixesRange(x: real)
    requires -PI < x <= PI
    ensures ModPi(x) == x
  {
    ModPiUnique(x, x, 0);
  }

  /** `_mod_pi(2mπ) == 0` (test_mod_pi_even_pi). */
  lemma ModPiEvenMultiple(m: int)
    ensures ModPi(Turn(m)) == 0.0
  {
    ModPiUnique(Turn(m), 0.0, -m);
  }

  /** `_mod_pi((2m+1)π) == π`: the boundary is kept at the top of the
      interval, so `|_mod_pi((2m+1)π)| == π` (test_mod_pi_odd_pi). */
  lemma ModPiOddMultiple(m: int)
    ensures ModPi(Turn(m) + PI) == PI
  {
    ModPiUnique(Turn(m) + PI, PI, -m);
  }

  /** Away from the boundary π, wrapping commutes with negation. */
  lemma ModPiNegate(x: real)
    requires ModPi(x) != PI
    ensures ModPi(-x) == -ModPi(x)
  {
    ModPiUnique(-x, -ModPi(x), WrapTurns(x));
  }

  // ---------------------------------------------------------------------
  // Winding numbers (`_omega`)
  // ---------------------------------------------------------------------

  /** `np.roll(a, 1)`: every entry moves one place right and the last comes
      round to the front. */
  function Roll(a: seq<real>): (r: seq<real>)
    ensures |r| == |a|
    ensures |a| > 0 ==> r[0] == a[|a| - 1]
    ensures forall j :: 0 < j < |a| ==> r[j] == a[j - 1]
  {
    seq(|a|, j requires 0 <= j < |a| => if j == 0 then a[|a| - 1] else a[j - 1])
  }

  /** The raw phase step into entry j from entry j - 1. */
  function Step(a: seq<real>, j: int): real
    requires 0 < j < |a|
  {
    a[j] - a[j - 1]
  }

  /** `_mod_pi(a - b)` on two arrays of the same length. */
  function WrappedDiffs(a: seq<real>, b: seq<real>): (r: seq<real>)
    requires |a| == |b|
    ensures |r| == |a|
    ensures forall j {:trigger r[j]} :: 0 <= j < |a| ==> r[j] == ModPi(a[j] - b[j])
  {
    seq(|a|, j requires 0 <= j < |a| => ModPi(a[j] - b[j]))
  }

  /** The whole turns that `WrappedDiffs(a, b)` takes off the raw differences. */
  function TurnSum(a: seq<real>, b: seq<real>): int
    requires |a| == |b|
  {
    if a == [] then 0 else WrapTurns(a[0] - b[0]) + TurnSum(a[1..], b[1..])
  }

  lemma {:induction false} SumWrappedDiffs(a: seq<real>, b: seq<real>)
    requires |a| == |b|
    ensures Sum(WrappedDiffs(a, b)) == Sum(a) - Sum(b) - Turn(TurnSum(a, b))
  {
    if a != [] {
      assert WrappedDiffs(a, b)[1..] == WrappedDiffs(a[1..], b[1..]);
      SumWrappedDiffs(a[1..], b[1..]);
    }
  }

  lemma SumRoll(a: seq<real>)
    ensures Sum(Roll(a)) == Sum(a)
  {
    if a != [] {
      var n := |a|;
      assert Roll(a) == [a[n - 1]] + a[..n - 1];
      SumCons(a[n - 1], a[..n - 1]);
      SumSnoc(a[..n - 1], a[n - 1]);
      assert a[..n - 1] + [a[n - 1]] == a;
    }
  }

  /** The phases of a cycle's nodes, in traversal order. */
  function CycleAngles(thetas: seq<real>, cycle: seq<nat>): (a: seq<real>)
    requires forall j :: 0 <= j < |cycle| ==> cycle[j] < |thetas|
    ensures |a| == |cycle|
    ensures forall j :: 0 <= j < |cycle| ==> a[j] == thetas[cycle[j]]
  {
    seq(|cycle|, j requires 0 <= j < |cycle| => thetas[cycle[j]])
  }

  /** One cycle's entry of `_omega`: the wrapped phase steps around the
      cycle, the step from the last node back to the first included, summed
      and divided by 2π. */
  function CycleOmega(angles: seq<real>): real
  {
    Sum(WrappedDiffs(angles, Roll(angles))) / PI / 2.0
  }

  /** The winding number as an integer: the raw steps around a closed cycle
      cancel, so only the turns that wrapping removed are left. */
  function WindingNumber(angles: seq<real>): int
  {
    -TurnSum(angles, Roll(angles))
  }

  /** Every entry of `_omega` is a whole number. */
  lemma {:induction false} CycleOmegaIsInteger(angles: seq<real>)
    ensures CycleOmega(angles) == WindingNumber(angles) as real
  {
    SumWrappedDiffs(angles, Roll(angles));
    SumRoll(angles);
    WholeTurns(-TurnSum(angles, Roll(angles)));
  }

  /** The phases i·δ of an n-node ring, node i carrying i·δ
      (`np.arange(n) * delta`). */
  function RingPhases(n: nat, delta: real): (a: seq<real>)
    ensures |a| == n
    ensures forall i :: 0 <= i < n ==> a[i] == i as real * delta
  {
    seq(n, i requires 0 <= i < n => i as real * delta)
  }

  /** Consecutive phases of the ring differ by δ, and node 0 lies n - 1
      steps δ below the last node. */
  lemma RingPhaseSteps(n: nat, delta: real)
    requires n >= 1
    ensures var a := RingPhases(n, delta);
            a[0] - a[n - 1] == -Times(n - 1, delta) &&
            forall j :: 0 < j < n ==> Step(a, j) == delta
  {
    var a := RingPhases(n, delta);
    assert a[0] == 0 as real * delta;
    TimesIsProduct(n - 1, delta);
    forall j | 0 < j < n
      ensures Step(a, j) == delta
    {
      assert j as real * delta - (j - 1) as real * delta == delta;
    }
  }

  /** A raw step in (-π, π] survives wrapping. */
  lemma WrappedStep(a: seq<real>, j: nat)
    requires 0 < j < |a|
    requires -PI < Step(a, j) <= PI
    ensures WrappedDiffs(a, Roll(a))[j] == Step(a, j)
  {
    assert Roll(a)[j] == a[j - 1];
    ModPiFixesRange(Step(a, j));
  }

  /** The first wrapped step of a cycle closes it: it runs from the last
      entry back to the first. */
  lemma ClosingStep(a: seq<real>)
    requires |a| >= 1
    ensures WrappedDiffs(a, Roll(a))[0] == ModPi(a[0] - a[|a| - 1])
  {
  }

  /** A cycle whose phase advances by the same δ in (-π, π] at every node
      but the first: each of those wrapped steps is δ, and the step into
      the first node is the wrapped closing difference. */
  lemma EvenStepsSum(a: seq<real>, delta: real)
    requires |a| >= 1
    requires -PI < delta <= PI
    requires forall j :: 0 < j < |a| ==> Step(a, j) == delta
    ensures Sum(WrappedDiffs(a, Roll(a))) == Times(|a| - 1, delta) + ModPi(a[0] - a[|a| - 1])
  {
    var d := WrappedDiffs(a, Roll(a));
    forall j | 1 <= j < |d|
      ensures d[j] == delta
    {
      WrappedStep(a, j);
    }
    ClosingStep(a);
    SumHeadConstant(d, delta, |a| - 1);
  }

  /** The winding number of a cycle with even steps δ in (-π, π]. */
  lemma EvenStepsOmega(a: seq<real>, delta: real, k: nat)
    requires |a| == k + 1
    requires -PI < delta <= PI
    requires forall j :: 0 < j < |a| ==> Step(a, j) == delta
    ensures CycleOmega(a) == (Times(k, delta) + ModPi(a[0] - a[k])) / 2.0 / PI
  {
    EvenStepsSum(a, delta);
    DivideByTurn(Sum(WrappedDiffs(a, Roll(a))));
  }

  /** test_omega_equispaced: on a ring with equal phase steps δ in (-π, π],
      the winding number is `((n-1)·δ + _mod_pi((1-n)·δ)) / 2 / π`, with
      (n-1)·δ written `Times(n - 1, delta)` (see `TimesIsProduct`). */
  lemma RingOmega(n: nat, delta: real)
    requires n >= 1
    requires -PI < delta <= PI
    ensures CycleOmega(RingPhases(n, delta)) ==
            (Times(n - 1, delta) + ModPi(-Times(n - 1, delta))) / 2.0 / PI
  {
    RingPhaseSteps(n, delta);
    EvenStepsOmega(RingPhases(n, delta), delta, n - 1);
  }

  /** `np.arange(n)`: the nodes 0, ..., n - 1 in order. */
  function Range(n: nat): (r: seq<nat>)
    ensures |r| == n
    ensures forall i :: 0 <= i < n ==> r[i] == i
  {
    seq(n, i requires 0 <= i < n => i)
  }

  /** test_omega_equispaced as it calls `_omega(ring, [np.arange(size)],
      thetas)`: the cycle `np.arange(n)` picks the ring phases in order, so
      the entry `Omega` computes for it is the closed form. */
  lemma RingCycleOmega(n: nat, delta: real)
    requires n >= 1
    requires -PI < delta <= PI
    ensures CycleAngles(RingPhases(n, delta), Range(n)) == RingPhases(n, delta)
    ensures CycleOmega(CycleAngles(RingPhases(n, delta), Range(n))) ==
            (Times(n - 1, delta) + ModPi(-Times(n - 1, delta))) / 2.0 / PI
  {
    var a, b := CycleAngles(RingPhases(n, delta), Range(n)), RingPhases(n, delta);
    assert forall i :: 0 <= i < n ==> a[i] == b[i];
    RingOmega(n, delta);
  }

  /** Dividing by π and then by 2 is dividing by 2 and then by π. */
  lemma DivideByTurn(x: real)
    ensures x / PI / 2.0 == x / 2.0 / PI
  {
  }

  /** `_omega(graph, cycles, thetas)`: one entry per cycle, in the order of
      the cycle basis, each the winding number of that cycle. */
  method Omega(cycles: seq<seq<nat>>, thetas: seq<real>) returns (omegas: seq<real>)
    requires forall c, j :: 0 <= c < |cycles| && 0 <= j < |cycles[c]| ==> cycles[c][j] < |thetas|
    ensures |omegas| == |cycles|
    ensures forall c :: 0 <= c < |cycles| ==>
              omegas[c] == CycleOmega(CycleAngles(thetas, cycles[c])) &&
              omegas[c] == WindingNumber(CycleAngles(thetas, cycles[c])) as real
  {
    omegas := [];
    for c := 0 to |cycles|
      invariant |omegas| == c
      invariant forall i :: 0 <= i < c ==>
                  omegas[i] == WindingNumber(CycleAngles(thetas, cycles[i])) as real
    {
      var angles := CycleAngles(thetas, cycles[c]);
      var phasediffs := WrappedDiffs(angles, Roll(angles));
      var omega := Sum(phasediffs) / PI / 2.0;
      CycleOmegaIsInteger(angles);
      omegas := omegas + [omega];
    }
    forall c | 0 <= c < |cycles|
      ensures omegas[c] == CycleOmega(CycleAngles(thetas, cycles[c]))
    {
      CycleOmegaIsInteger(CycleAngles(thetas, cycles[c]));
    }
  }

  // ---------------------------------------------------------------------
  // Random initial guess (`_random_stableop_initguess`)
  // ---------------------------------------------------------------------

  /** `np.cumsum(d)`: entry k is the sum of the first k + 1 increments. */
  function CumSum(d: seq<real>): (r: seq<real>)
    ensures |r| == |d|
    ensures forall k :: 0 <= k < |d| ==> r[k] == Sum(d[..k + 1])
  {
    seq(|d|, k requires 0 <= k < |d| => Sum(d[..k + 1]))
  }

  /** `np.insert(np.cumsum(d), 0, 0)`: the running sum of the increments,
      anchored at 0. */
  function Anchored(d: seq<real>): (g: seq<real>)
    ensures |g| == |d| + 1
    ensures forall k :: 0 <= k <= |d| ==> g[k] == Sum(d[..k])
  {
    [0.0] + CumSum(d)
  }

  /** Consecutive entries of the anchored running sum differ by exactly one
      increment. */
  lemma AnchoredStep(d: seq<real>, k: nat)
    requires k < |d|
    ensures Step(Anchored(d), k + 1) == d[k]
  {
    var g := Anchored(d);
    assert g[k + 1] == Sum(d[..k + 1]);
    assert g[k] == Sum(d[..k]);
    SumSnoc(d[..k], d[k]);
    assert d[..k + 1] == d[..k] + [d[k]];
  }

  /** The wrap-around test a sampled guess must pass:
      `|_mod_pi(initguess[-1])| <= π/2`. */
  predicate Acceptable(g: seq<real>)
    requires |g| > 0
  {
    -PI / 2.0 <= ModPi(g[|g| - 1]) <= PI / 2.0
  }

  /** One value drawn by `np.random.uniform(-π/2, π/2)`. */
  predicate IsIncrement(x: real)
  {
    -PI / 2.0 <= x < PI / 2.0
  }

  /** What `_random_stableop_initguess` comes to on a given supply of draws:
      the first accepted guess; a size of 0, for which numpy refuses to draw
      -1 values; or running out of draws, where the source would go on
      resampling. */
  datatype Sample = Accepted(guess: seq<real>) | OutOfDraws | InvalidSize

  /** For each draw, whether the guess built from it passes the wrap-around
      test. */
  function Passes(draws: seq<seq<real>>): (p: seq<bool>)
    ensures |p| == |draws|
    ensures forall j :: 0 <= j < |draws| ==> p[j] == Acceptable(Anchored(draws[j]))
  {
    seq(|draws|, j requires 0 <= j < |draws| => Acceptable(Anchored(draws[j])))
  }

  /** Dropping the first draw drops its flag. */
  lemma PassesTail(draws: seq<seq<real>>)
    requires draws != []
    ensures Passes(draws[1..]) == Passes(draws)[1..]
  {
    var p, q := Passes(draws[1..]), Passes(draws)[1..];
    forall j | 0 <= j < |p|
      ensures p[j] == q[j]
    {
      assert draws[1..][j] == draws[j + 1];
    }
  }

  /** The position of the first true flag, or the number of flags when none
      is true. */
  function FirstTrue(flags: seq<bool>): (i: nat)
    ensures i <= |flags|
    ensures i < |flags| ==> flags[i]
    ensures forall j :: 0 <= j < i ==> !flags[j]
    decreases |flags|
  {
    if flags == [] || flags[0] then 0
    else
      var k := FirstTrue(flags[1..]);
      assert forall j :: 0 < j < k + 1 ==> flags[j] == flags[1..][j - 1];
      k + 1
  }

  /** Dropping the first draw keeps every draw's size. */
  lemma DropKeepsSizes(draws: seq<seq<real>>, size: nat)
    requires draws != []
    requires forall i :: 0 <= i < |draws| ==> |draws[i]| + 1 == size
    ensures forall i :: 0 <= i < |draws[1..]| ==> |draws[1..][i]| + 1 == size
  {
    assert forall i :: 0 <= i < |draws| - 1 ==> draws[1..][i] == draws[i + 1];
  }

  /** `_random_stableop_initguess(size)`, where draws[0], draws[1], ... are
      the increment arrays the successive recursive calls draw: a size of 0
      is refused; otherwise each draw is tried in turn until one passes the
      wrap-around test, and the supply can run out. An accepted guess has
      `size` entries and starts at 0. */
  function InitGuess(size: nat, draws: seq<seq<real>>): (r: Sample)
    requires forall i :: 0 <= i < |draws| ==> |draws[i]| + 1 == size
    ensures r.InvalidSize? <==> size == 0
    ensures r.Accepted? ==> |r.guess| == size && r.guess[0] == 0.0
    decreases |draws|
  {
    if size == 0 then InvalidSize
    else if draws == [] then OutOfDraws
    else
      var g := Anchored(draws[0]);
      assert g[0] == Sum(draws[0][..0]);
      if Acceptable(g) then Accepted(g)
      else
        DropKeepsSizes(draws, size);
        InitGuess(size, draws[1..])
  }

  /** A false first flag moves the first true flag one place on. */
  lemma FirstTrueOfTail(flags: seq<bool>)
    requires flags != [] && !flags[0]
    ensures FirstTrue(flags) == FirstTrue(flags[1..]) + 1
  {
  }

  /** The guess accepted is the one built from the first draw that passes,
      and the supply runs out exactly when no draw passes. */
  lemma {:induction false} InitGuessFirstPassing(size: nat, draws: seq<seq<real>>)
    requires forall i :: 0 <= i < |draws| ==> |draws[i]| + 1 == size
    requires size > 0
    ensures var k := FirstTrue(Passes(draws));
            InitGuess(size, draws) == if k < |draws| then Accepted(Anchored(draws[k])) else OutOfDraws
    decreases |draws|
  {
    if draws != [] && !Acceptable(Anchored(draws[0])) {
      DropKeepsSizes(draws, size);
      assert InitGuess(size, draws) == InitGuess(size, draws[1..]);
      InitGuessFirstPassing(size, draws[1..]);
      PassesTail(draws);
      FirstTrueOfTail(Passes(draws));
      var k := FirstTrue(Passes(draws[1..]));
      if k < |draws| - 1 {
        assert draws[1..][k] == draws[k + 1];
      }
    }
  }

  /** The smoothness the test of `_random_stableop_initguess` checks, for one
      candidate: a running sum of increments in [-π/2, π/2) that passes the
      acceptance test has every wrapped cyclic step
      `_mod_pi(g - np.roll(g, 1))` within [-π/2, π/2]. */
  lemma {:induction false} AnchoredSmooth(d: seq<real>)
    requires forall k :: 0 <= k < |d| ==> IsIncrement(d[k])
    requires Acceptable(Anchored(d))
    ensures var g := Anchored(d);
            forall j :: 0 <= j < |g| ==> -PI / 2.0 <= WrappedDiffs(g, Roll(g))[j] <= PI / 2.0
  {
    var g := Anchored(d);
    forall j | 0 <= j < |g|
      ensures -PI / 2.0 <= WrappedDiffs(g, Roll(g))[j] <= PI / 2.0
    {
      if j == 0 {
        assert g[0] == Sum(d[..0]);
        WrapAroundStep(g);
      } else {
        InnerStepSmooth(d, j);
      }
    }
  }

  /** A step inside the guess is one increment, which wrapping leaves alone. */
  lemma InnerStepSmooth(d: seq<real>, j: nat)
    requires forall k :: 0 <= k < |d| ==> IsIncrement(d[k])
    requires 0 < j <= |d|
    ensures -PI / 2.0 <= WrappedDiffs(Anchored(d), Roll(Anchored(d)))[j] <= PI / 2.0
  {
    AnchoredStep(d, j - 1);
    WrappedStep(Anchored(d), j);
  }

  /** The wrap-around step of a guess that starts at 0 is the wrapped
      negation of its last entry, which the acceptance test bounds. */
  lemma WrapAroundStep(g: seq<real>)
    requires |g| > 0 && g[0] == 0.0
    requires Acceptable(g)
    ensures -PI / 2.0 <= WrappedDiffs(g, Roll(g))[0] <= PI / 2.0
  {
    assert WrappedDiffs(g, Roll(g))[0] == ModPi(g[0] - g[|g| - 1]);
    assert g[0] - g[|g| - 1] == -g[|g| - 1];
    ModPiNegate(g[|g| - 1]);
  }

  /** test_random_stableop_initguess: every guess `_random_stableop_initguess`
      accepts has `size` entries, starts at 0, and has every wrapped cyclic
      step within [-π/2, π/2]. */
  lemma {:induction false} InitGuessSmooth(size: nat, draws: seq<seq<real>>, g: seq<real>)
    requires forall i :: 0 <= i < |draws| ==> |draws[i]| + 1 == size
    requires forall i, k :: 0 <= i < |draws| && 0 <= k < |draws[i]| ==> IsIncrement(draws[i][k])
    requires InitGuess(size, draws) == Accepted(g)
    ensures |g| == size && g[0] == 0.0
    ensures forall j :: 0 <= j < size ==> -PI / 2.0 <= WrappedDiffs(g, Roll(g))[j] <= PI / 2.0
  {
    InitGuessFirstPassing(size, draws);
    AnchoredSmooth(draws[FirstTrue(Passes(draws))]);
  }
}
