/** The solver half of flownetpy/flowmodel/kuramoto.py: the integrator's
    result buffer (`odeint`), the convergence test (`_has_converged`), the
    bounded search for a fixed point (`_try_find_fps`), the right-hand side
    of the Kuramoto equations (`_kuramoto_ode`) and the projection of a
    fixed point onto edge flows (`steady_flows`).

    The vode integrator is a parameter `step`: `step(y, t0, t1)` is the
    state `r.integrate(t1)` reaches from state y at time t0. The random
    draws are a parameter too: `supplies[i]` holds the values
    np.random.uniform yields during the i-th try, and the try's guess is
    sampled from them by Kuramoto.InitGuess. */
module KuramotoSolver {
  import opened Numerics
  import opened Network
  import opened Kuramoto
  import FlowTools

  // ---------------------------------------------------------------------
  // Integration (`odeint`)
  // ---------------------------------------------------------------------

  /** The integrator maps a state to a state of the same size: `r.y` keeps
      the shape of the initial value. */
  ghost predicate SizePreserving(step: (seq<real>, real, real) -> seq<real>)
  {
    forall y, t0, t1 :: |step(y, t0, t1)| == |y|
  }

  /** The state after k integration steps along the time grid t, starting
      from x0 at t[0]. */
  function State(step: (seq<real>, real, real) -> seq<real>, x0: seq<real>, t: seq<real>, k: nat): seq<real>
    requires k < |t|
  {
    if k == 0 then x0 else step(State(step, x0, t, k - 1), t[k - 1], t[k])
  }

  lemma {:induction false} StateSize(step: (seq<real>, real, real) -> seq<real>, x0: seq<real>, t: seq<real>, k: nat)
    requires k < |t| && SizePreserving(step)
    ensures |State(step, x0, t, k)| == |x0|
  {
    if k > 0 {
      StateSize(step, x0, t, k - 1);
      var prev, t0, t1 := State(step, x0, t, k - 1), t[k - 1], t[k];
      assert |step(prev, t0, t1)| == |prev|;
    }
  }

  /** The rows `odeint` fills in: one state per time of the grid. */
  function Trajectory(step: (seq<real>, real, real) -> seq<real>, x0: seq<real>, t: seq<real>): (r: seq<seq<real>>)
    ensures |r| == |t|
    ensures forall k :: 0 <= k < |t| ==> r[k] == State(step, x0, t, k)
  {
    seq(|t|, k requires 0 <= k < |t| => State(step, x0, t, k))
  }

  /** The trajectory starts at the initial value and every row has the
      size of the initial value. */
  lemma TrajectoryShape(step: (seq<real>, real, real) -> seq<real>, x0: seq<real>, t: seq<real>)
    requires |t| >= 1 && SizePreserving(step)
    ensures Trajectory(step, x0, t)[0] == x0
    ensures forall k :: 0 <= k < |t| ==> |Trajectory(step, x0, t)[k]| == |x0|
  {
    forall k | 0 <= k < |t|
      ensures |Trajectory(step, x0, t)[k]| == |x0|
    {
      StateSize(step, x0, t, k);
    }
  }

  /** The rows of a two-dimensional array. */
  function Rows(a: array2<real>): (r: seq<seq<real>>)
    reads a
    ensures |r| == a.Length0
    ensures forall i :: 0 <= i < a.Length0 ==> |r[i]| == a.Length1
    ensures forall i, j :: 0 <= i < a.Length0 && 0 <= j < a.Length1 ==> r[i][j] == a[i, j]
  {
    seq(a.Length0, i requires 0 <= i < a.Length0 reads a =>
      seq(a.Length1, j requires 0 <= j < a.Length1 reads a => a[i, j]))
  }

  /** `odeint(func, x0, t, args)`: a zero buffer with one row per time and
      one column per state variable, row 0 set to x0 and row idx + 1 set to
      `r.y` after `r.integrate(t[idx + 1])`. */
  method Odeint(step: (seq<real>, real, real) -> seq<real>, x0: seq<real>, t: seq<real>) returns (res: array2<real>)
    requires |t| >= 1
    requires SizePreserving(step)
    ensures fresh(res)
    ensures res.Length0 == |t| && res.Length1 == |x0|
    ensures Rows(res) == Trajectory(step, x0, t)
  {
    var n := |x0|;
    res := new real[|t|, n]((i, j) => 0.0);
    for j := 0 to n
      invariant forall jj :: 0 <= jj < j ==> res[0, jj] == x0[jj]
    {
      res[0, j] := x0[j];
    }
    var y := x0;
    for idx := 0 to |t| - 1
      invariant y == State(step, x0, t, idx) && |y| == n
      invariant forall k :: 0 <= k <= idx ==> |State(step, x0, t, k)| == n
      invariant forall k, j :: 0 <= k <= idx && 0 <= j < n ==> res[k, j] == State(step, x0, t, k)[j]
    {
      var t0, t1 := t[idx], t[idx + 1];
      assert |step(y, t0, t1)| == |y|;
      y := step(y, t0, t1);
      assert y == State(step, x0, t, idx + 1);
      for j := 0 to n
        invariant forall jj :: 0 <= jj < j ==> res[idx + 1, jj] == y[jj]
        invariant forall k, jj :: 0 <= k <= idx && 0 <= jj < n ==> res[k, jj] == State(step, x0, t, k)[jj]
      {
        res[idx + 1, j] := y[j];
      }
    }
    forall k | 0 <= k < |t|
      ensures Rows(res)[k] == Trajectory(step, x0, t)[k]
    {
      StateSize(step, x0, t, k);
    }
  }

  // ---------------------------------------------------------------------
  // Convergence (`_has_converged`)
  // ---------------------------------------------------------------------

  /** The absolute tolerance of `np.allclose`. */
  const ATOL: real := 0.00000001

  /** The arithmetic mean, `np.mean`. */
  function Mean(xs: seq<real>): real
    requires |xs| > 0
  {
    Sum(xs) / |xs| as real
  }

  function Square(x: real): (r: real)
    ensures 0.0 <= r
  {
    x * x
  }

  /** The squared deviations of xs from m. */
  function SquaredDeviations(xs: seq<real>, m: real): (r: seq<real>)
    ensures |r| == |xs|
    ensures forall i :: 0 <= i < |xs| ==> r[i] == Square(xs[i] - m)
  {
    seq(|xs|, i requires 0 <= i < |xs| => Square(xs[i] - m))
  }

  /** The population variance, `np.var`. */
  function Variance(xs: seq<real>): real
    requires |xs| > 0
  {
    Mean(SquaredDeviations(xs, Mean(xs)))
  }

  /** Column c of a table whose rows all have more than c entries. */
  function Column(rows: seq<seq<real>>, c: nat): (col: seq<real>)
    requires forall i :: 0 <= i < |rows| ==> c < |rows[i]|
    ensures |col| == |rows|
    ensures forall i :: 0 <= i < |rows| ==> col[i] == rows[i][c]
  {
    seq(|rows|, i requires 0 <= i < |rows| => rows[i][c])
  }

  /** The window `_has_converged` inspects: `time_series.shape[0] // 10`
      when `window_size` is 0. */
  function Window(len: nat, windowSize: int): int
  {
    if windowSize == 0 then len / 10 else windowSize
  }

  /** `time_series[-w:]` under Python's slicing rules: w = 0 keeps the whole
      series (`-0` is `0`), a positive w keeps the last w rows (all of them
      when there are fewer), and a negative w drops the first -w rows. */
  function Tail<T>(ts: seq<T>, w: int): (r: seq<T>)
    ensures |r| <= |ts|
  {
    if w == 0 then ts
    else if w > 0 then (if w >= |ts| then ts else ts[|ts| - w..])
    else if -w >= |ts| then [] else ts[-w..]
  }

  /** Every row of ts has `width` entries. */
  ghost predicate Rectangular(ts: seq<seq<real>>, width: nat)
  {
    forall i :: 0 <= i < |ts| ==> |ts[i]| == width
  }

  /** `_has_converged(time_series, window_size)`: every column varies by at
      most the tolerance over the window. The variance of an empty window is
      NaN, which `np.allclose` rejects. */
  predicate HasConverged(ts: seq<seq<real>>, width: nat, windowSize: int)
    requires Rectangular(ts, width)
    ensures HasConverged(ts, width, windowSize) && width > 0 ==> |ts| > 0
  {
    var tail := Tail(ts, Window(|ts|, windowSize));
    width == 0 || (|tail| > 0 && forall c :: 0 <= c < width ==> Variance(Column(tail, c)) <= ATOL)
  }

  /** A variance is never negative. */
  lemma VarianceNonNegative(xs: seq<real>)
    requires |xs| > 0
    ensures 0.0 <= Variance(xs)
  {
    SumBoundsTerm(SquaredDeviations(xs, Mean(xs)), 0);
  }

  /** A column that holds one value throughout has variance 0. */
  lemma VarianceOfConstant(xs: seq<real>, c: real)
    requires |xs| > 0
    requires forall i :: 0 <= i < |xs| ==> xs[i] == c
    ensures Variance(xs) == 0.0
  {
    var n := |xs| as real;
    SumConstant(xs, c);
    TimesIsProduct(|xs|, c);
    assert Sum(xs) == n * c;
    CancelFactor(c, n);
    assert Mean(xs) == c;
    var d := SquaredDeviations(xs, c);
    SumConstant(d, 0.0);
    TimesIsProduct(|d|, 0.0);
  }

  /** No entry lies further from the mean than the variance allows: its
      squared deviation, divided by the number n of entries, is at most the
      variance. */
  lemma DeviationBound(xs: seq<real>, i: nat)
    requires i < |xs|
    ensures SquaredDeviations(xs, Mean(xs))[i] / |xs| as real <= Variance(xs)
  {
    var d := SquaredDeviations(xs, Mean(xs));
    SumBoundsTerm(d, i);
    DivMonotone(d[i], Sum(d), |xs| as real);
  }

  /** The default window is the last tenth of the series, rounded down, or
      the whole series when it has fewer than 10 rows; it is empty only when
      the series is. */
  lemma DefaultWindow<T>(ts: seq<T>)
    ensures |ts| < 10 ==> Tail(ts, Window(|ts|, 0)) == ts
    ensures |ts| >= 10 ==> Tail(ts, Window(|ts|, 0)) == ts[|ts| - |ts| / 10..]
    ensures |ts| > 0 ==> |Tail(ts, Window(|ts|, 0))| > 0
  {
  }

  /** An empty time series never counts as converged (unless it has no
      columns at all). */
  lemma EmptyNotConverged(width: nat, windowSize: int)
    requires width > 0
    ensures !HasConverged([], width, windowSize)
  {
  }

  /** A series whose default window repeats its final row converges. */
  lemma SettledConverges(ts: seq<seq<real>>, width: nat)
    requires |ts| > 0 && Rectangular(ts, width)
    requires forall i :: 0 <= i < |Tail(ts, Window(|ts|, 0))| ==> Tail(ts, Window(|ts|, 0))[i] == ts[|ts| - 1]
    ensures HasConverged(ts, width, 0)
  {
    var tail := Tail(ts, Window(|ts|, 0));
    DefaultWindow(ts);
    forall c | 0 <= c < width
      ensures Variance(Column(tail, c)) <= ATOL
    {
      VarianceOfConstant(Column(tail, c), ts[|ts| - 1][c]);
    }
  }

  /** In a converged series every entry of the window lies close to its
      column's mean: its squared deviation, divided by the window's length,
      is at most ATOL. */
  lemma ConvergedWindowIsTight(ts: seq<seq<real>>, width: nat, c: nat, i: nat)
    requires Rectangular(ts, width) && HasConverged(ts, width, 0)
    requires c < width && i < |Tail(ts, Window(|ts|, 0))|
    ensures var col := Column(Tail(ts, Window(|ts|, 0)), c);
            SquaredDeviations(col, Mean(col))[i] / |col| as real <= ATOL
  {
    var col := Column(Tail(ts, Window(|ts|, 0)), c);
    DeviationBound(col, i);
  }

  // ---------------------------------------------------------------------
  // Search for a fixed point (`_try_find_fps`)
  // ---------------------------------------------------------------------

  /** The default integration time and number of random guesses. */
  const TMAX: real := 200.0
  const NTRY: int := 10

  /** `np.arange(0, tmax, tmax / 1000)`: 1000 equally spaced times from 0. */
  function TimeGrid(tmax: real): (t: seq<real>)
    requires tmax > 0.0
    ensures |t| == 1000 && t[0] == 0.0
  {
    seq(1000, k requires 0 <= k < 1000 => k as real * (tmax / 1000.0))
  }

  /** What `_try_find_fps` returns: the fixed point found, if any, and the
      initial guess it tried last. */
  datatype Search = Search(fixedPoint: Option<seq<real>>, guess: Option<seq<real>>)

  /** One attempt (`_evolve` followed by `_has_converged`): the final state
      of the trajectory from g when the trajectory has converged. */
  function Attempt(step: (seq<real>, real, real) -> seq<real>, t: seq<real>, g: seq<real>): Option<seq<real>>
    requires |t| >= 1 && SizePreserving(step)
  {
    TrajectoryShape(step, g, t);
    var sol := Trajectory(step, g, t);
    if HasConverged(sol, |g|, 0) then Some(sol[|sol| - 1]) else None
  }

  /** Which of the guesses gs lead to a converged trajectory. */
  function Settles(step: (seq<real>, real, real) -> seq<real>, t: seq<real>, gs: seq<seq<real>>): (r: seq<bool>)
    requires |t| >= 1 && SizePreserving(step)
    ensures |r| == |gs|
    ensures forall k :: 0 <= k < |gs| ==> r[k] == Attempt(step, t, gs[k]).Some?
  {
    seq(|gs|, k requires 0 <= k < |gs| => Attempt(step, t, gs[k]).Some?)
  }

  /** The random guesses tried in order: the first that settles wins;
      when none does there is no fixed point and the last guess is reported
      (none at all when there were no guesses). */
  function RandomSearch(step: (seq<real>, real, real) -> seq<real>, t: seq<real>, gs: seq<seq<real>>): Search
    requires |t| >= 1 && SizePreserving(step)
  {
    var k := FirstTrue(Settles(step, t, gs));
    if k < |gs| then Search(Attempt(step, t, gs[k]), Some(gs[k]))
    else Search(None, if gs == [] then None else Some(gs[|gs| - 1]))
  }

  /** The number of random guesses `range(ntry)` produces. */
  function Tries(ntry: int): nat
  {
    if ntry > 0 then ntry else 0
  }

  /** The outcome of `_try_find_fps(ntry, flownet, tmax, tol, initguess)`: a
      supplied guess is the only one tried; otherwise the first Tries(ntry)
      random guesses gs are. */
  function SearchOutcome(ntry: int, step: (seq<real>, real, real) -> seq<real>, t: seq<real>,
                         initguess: Option<seq<real>>, gs: seq<seq<real>>): Search
    requires |t| >= 1 && SizePreserving(step)
    requires initguess.Some? || Tries(ntry) <= |gs|
  {
    if initguess.Some? then Search(Attempt(step, t, initguess.value), initguess)
    else RandomSearch(step, t, gs[..Tries(ntry)])
  }

  /** A fixed point an attempt reports is the final state of a converged
      trajectory. */
  lemma AttemptSound(step: (seq<real>, real, real) -> seq<real>, t: seq<real>, g: seq<real>)
    requires |t| >= 1 && SizePreserving(step)
    ensures Rectangular(Trajectory(step, g, t), |g|)
    ensures Attempt(step, t, g).Some? <==> HasConverged(Trajectory(step, g, t), |g|, 0)
    ensures Attempt(step, t, g).Some? ==> Attempt(step, t, g).value == State(step, g, t, |t| - 1)
  {
    TrajectoryShape(step, g, t);
  }

  /** One attempt as `_try_find_fps` makes it: `_evolve` (which calls
      `odeint`), then `_has_converged` on the solution and `sol[-1]`. */
  method Settle(step: (seq<real>, real, real) -> seq<real>, t: seq<real>, g: seq<real>) returns (fp: Option<seq<real>>)
    requires |t| >= 1 && SizePreserving(step)
    ensures fp == Attempt(step, t, g)
  {
    var sol := Odeint(step, g, t);
    var rows := Rows(sol);
    AttemptSound(step, t, g);
    if HasConverged(rows, |g|, 0) {
      fp := Some(rows[|rows| - 1]);
    } else {
      fp := None;
    }
  }

  /** The tries of `_try_find_fps` over guesses drawn beforehand: integrate
      from the supplied guess, or from up to `ntry` of the guesses, over
      `np.arange(0, tmax, tmax / 1000)` and stop at the first trajectory
      that converges. */
  method SearchGuesses(ntry: int, step: (seq<real>, real, real) -> seq<real>, tmax: real,
                       initguess: Option<seq<real>>, guesses: seq<seq<real>>) returns (r: Search)
    requires tmax > 0.0 && SizePreserving(step)
    requires initguess.Some? || Tries(ntry) <= |guesses|
    ensures r == SearchOutcome(ntry, step, TimeGrid(tmax), initguess, guesses)
  {
    var tarr := TimeGrid(tmax);
    if initguess.Some? {
      var fp := Settle(step, tarr, initguess.value);
      return Search(fp, initguess);
    }
    var count := Tries(ntry);
    ghost var tried := guesses[..count];
    ghost var flags := Settles(step, tarr, tried);
    var guess: Option<seq<real>> := None;
    for i := 0 to count
      invariant FirstTrue(flags) >= i
      invariant guess == if i == 0 then None else Some(guesses[i - 1])
    {
      guess := Some(guesses[i]);
      var fp := Settle(step, tarr, guesses[i]);
      assert tried[i] == guesses[i];
      assert flags[i] == fp.Some?;
      if fp.Some? {
        assert FirstTrue(flags) == i;
        return Search(fp, guess);
      }
      assert FirstTrue(flags) != i;
    }
    return Search(None, guess);
  }

  /** Without a supplied guess, a fixed point is reported exactly when some
      random guess settles, and the reported guess and fixed point are those
      of the first that does. */
  lemma RandomSearchPicksFirst(step: (seq<real>, real, real) -> seq<real>, t: seq<real>, gs: seq<seq<real>>)
    requires |t| >= 1 && SizePreserving(step)
    ensures var k := FirstTrue(Settles(step, t, gs));
            var r := RandomSearch(step, t, gs);
            (r.fixedPoint.Some? <==> k < |gs|) &&
            (r.fixedPoint.Some? ==> r.guess == Some(gs[k]) && r.fixedPoint == Attempt(step, t, gs[k]))
  {
    var flags := Settles(step, t, gs);
    var k := FirstTrue(flags);
    if k < |gs| {
      assert flags[k];
    }
  }

  /** A supplied initial guess is the only one tried: neither `ntry` nor the
      random guesses matter, and the guess is reported back. */
  lemma SuppliedGuessOnly(ntry: int, ntry': int, step: (seq<real>, real, real) -> seq<real>, t: seq<real>,
                          g: seq<real>, gs: seq<seq<real>>, gs': seq<seq<real>>)
    requires |t| >= 1 && SizePreserving(step)
    ensures SearchOutcome(ntry, step, t, Some(g), gs) == SearchOutcome(ntry', step, t, Some(g), gs')
    ensures SearchOutcome(ntry, step, t, Some(g), gs).guess == Some(g)
  {
  }

  /** A fixed point the search reports is the final state of a converged
      trajectory that starts at the guess reported with it. */
  lemma SearchSound(ntry: int, step: (seq<real>, real, real) -> seq<real>, t: seq<real>,
                    initguess: Option<seq<real>>, gs: seq<seq<real>>)
    requires |t| >= 1 && SizePreserving(step)
    requires initguess.Some? || Tries(ntry) <= |gs|
    ensures var r := SearchOutcome(ntry, step, t, initguess, gs);
            r.fixedPoint.Some? ==>
              r.guess.Some? && Rectangular(Trajectory(step, r.guess.value, t), |r.guess.value|) &&
              HasConverged(Trajectory(step, r.guess.value, t), |r.guess.value|, 0) &&
              r.fixedPoint.value == State(step, r.guess.value, t, |t| - 1)
  {
    var r := SearchOutcome(ntry, step, t, initguess, gs);
    if initguess.Some? {
      AttemptSound(step, t, initguess.value);
    } else {
      var tried := gs[..Tries(ntry)];
      RandomSearchPicksFirst(step, t, tried);
      var k := FirstTrue(Settles(step, t, tried));
      if k < |tried| {
        AttemptSound(step, t, tried[k]);
      }
    }
  }

  /** Without a supplied guess, the first random guess whose trajectory
      converges is the one reported, with its fixed point. */
  lemma FirstSettlingGuessWins(ntry: int, step: (seq<real>, real, real) -> seq<real>, t: seq<real>,
                               gs: seq<seq<real>>, k: nat)
    requires |t| >= 1 && SizePreserving(step)
    requires Tries(ntry) <= |gs| && k < Tries(ntry)
    requires Attempt(step, t, gs[k]).Some?
    requires forall j :: 0 <= j < k ==> Attempt(step, t, gs[j]).None?
    ensures SearchOutcome(ntry, step, t, None, gs) == Search(Attempt(step, t, gs[k]), Some(gs[k]))
  {
    var flags := Settles(step, t, gs[..Tries(ntry)]);
    assert flags[k];
    assert FirstTrue(flags) == k;
  }

  /** Without a supplied guess, a failed search tried every one of the
      Tries(ntry) random guesses and reports the last of them, or no guess
      when ntry is not positive. */
  lemma FailedSearchTriedAll(ntry: int, step: (seq<real>, real, real) -> seq<real>, t: seq<real>,
                             gs: seq<seq<real>>)
    requires |t| >= 1 && SizePreserving(step)
    requires Tries(ntry) <= |gs|
    requires SearchOutcome(ntry, step, t, None, gs).fixedPoint.None?
    ensures forall j :: 0 <= j < Tries(ntry) ==> Attempt(step, t, gs[j]).None?
    ensures SearchOutcome(ntry, step, t, None, gs).guess ==
              if ntry <= 0 then None else Some(gs[ntry - 1])
  {
    var tried := gs[..Tries(ntry)];
    var flags := Settles(step, t, tried);
    RandomSearchPicksFirst(step, t, tried);
    forall j | 0 <= j < Tries(ntry)
      ensures Attempt(step, t, gs[j]).None?
    {
      assert tried[j] == gs[j];
      assert !flags[j];
    }
  }

  // ---------------------------------------------------------------------
  // The random guesses of `_try_find_fps`
  // ---------------------------------------------------------------------

  /** Every draw np.random.uniform makes for an n-node network has n - 1
      values: supplies[i][j] is the j-th draw of the i-th call of
      `_random_stableop_initguess(n)`, the draws its resampling consumes. */
  ghost predicate Drawn(n: nat, supplies: seq<seq<seq<real>>>)
  {
    forall i, j :: 0 <= i < |supplies| && 0 <= j < |supplies[i]| ==> |supplies[i][j]| + 1 == n
  }

  /** Every value drawn lies in [-π/2, π/2), as np.random.uniform promises. */
  ghost predicate Increments(supplies: seq<seq<seq<real>>>)
  {
    forall i, j, k :: 0 <= i < |supplies| && 0 <= j < |supplies[i]| && 0 <= k < |supplies[i][j]| ==>
      IsIncrement(supplies[i][j][k])
  }

  /** The draws the i-th call consumes; none beyond the supply. */
  function Supply(supplies: seq<seq<seq<real>>>, i: nat): seq<seq<real>>
  {
    if i < |supplies| then supplies[i] else []
  }

  /** The guess drawn at try i: `_random_stableop_initguess(n)` on its draws. */
  function SampleAt(n: nat, supplies: seq<seq<seq<real>>>, i: nat): (s: Sample)
    requires Drawn(n, supplies)
    ensures s.InvalidSize? <==> n == 0
    ensures s.Accepted? ==> |s.guess| == n && s.guess[0] == 0.0
  {
    InitGuess(n, Supply(supplies, i))
  }

  /** The samples of the first `count` tries. */
  function Samples(n: nat, supplies: seq<seq<seq<real>>>, count: nat): (ss: seq<Sample>)
    requires Drawn(n, supplies)
    ensures |ss| == count
    ensures forall i :: 0 <= i < count ==> ss[i] == SampleAt(n, supplies, i)
  {
    seq(count, i requires 0 <= i < count => SampleAt(n, supplies, i))
  }

  /** Every sample of an n-node network is refused exactly when n is 0, and
      every guess accepted has n phases. */
  ghost predicate SampledFor(ss: seq<Sample>, n: nat)
  {
    forall i :: 0 <= i < |ss| ==>
      (ss[i].InvalidSize? <==> n == 0) && (ss[i].Accepted? ==> |ss[i].guess| == n)
  }

  /** A guess with phase 0 at the first node whose cyclic wrapped
      differences all lie within [-π/2, π/2]. */
  ghost predicate Stable(g: seq<real>)
  {
    |g| > 0 && g[0] == 0.0 &&
    forall j :: 0 <= j < |g| ==> -PI / 2.0 <= WrappedDiffs(g, Roll(g))[j] <= PI / 2.0
  }

  /** Every guess accepted is stable. */
  ghost predicate StableSamples(ss: seq<Sample>)
  {
    forall i :: 0 <= i < |ss| && ss[i].Accepted? ==> Stable(ss[i].guess)
  }

  /** Why a search ends without a result: numpy's ValueError (a negative
      number of draws for an empty network, or a supplied guess whose size
      does not fit the incidence matrix in `_kuramoto_ode`), or the end of
      the finite supply of draws, where the source would go on
      resampling. */
  datatype Failure = ValueError | DrawsExhausted

  /** What `_try_find_fps` comes to: a search result, or a failure. */
  datatype Outcome = Done(search: Search) | Fails(failure: Failure)

  /** The random tries from try i on, ss[i] being the sample of try i and
      `last` the guess tried before: integrate from each guess drawn; stop
      at the first that converges. */
  function Tried(step: (seq<real>, real, real) -> seq<real>, t: seq<real>, ss: seq<Sample>,
                 i: nat, last: Option<seq<real>>): Outcome
    requires |t| >= 1 && SizePreserving(step)
    decreases |ss| - i
  {
    if i >= |ss| then Done(Search(None, last))
    else
      match ss[i]
      case InvalidSize => Fails(ValueError)
      case OutOfDraws => Fails(DrawsExhausted)
      case Accepted(g) =>
        var fp := Attempt(step, t, g);
        if fp.Some? then Done(Search(fp, Some(g)))
        else Tried(step, t, ss, i + 1, Some(g))
  }

  /** The outcome of `_try_find_fps(ntry, flownet, tmax, tol, initguess)` on
      an n-node network: the supplied guess alone, or the random tries. */
  function FindOutcome(ntry: int, step: (seq<real>, real, real) -> seq<real>, t: seq<real>, n: nat,
                       initguess: Option<seq<real>>, supplies: seq<seq<seq<real>>>): Outcome
    requires |t| >= 1 && SizePreserving(step) && Drawn(n, supplies)
  {
    if initguess.Some? then
      if |initguess.value| != n then Fails(ValueError)
      else Done(Search(Attempt(step, t, initguess.value), initguess))
    else Tried(step, t, Samples(n, supplies, Tries(ntry)), 0, None)
  }

  /** `_try_find_fps`: integrate from the supplied guess, or draw up to
      `ntry` random guesses with `_random_stableop_initguess` and integrate
      from each in turn, over `np.arange(0, tmax, tmax / 1000)`, stopping at
      the first trajectory that converges. */
  method TryFindFps(ntry: int, step: (seq<real>, real, real) -> seq<real>, tmax: real, n: nat,
                    initguess: Option<seq<real>>, supplies: seq<seq<seq<real>>>) returns (r: Outcome)
    requires tmax > 0.0 && SizePreserving(step) && Drawn(n, supplies)
    ensures r == FindOutcome(ntry, step, TimeGrid(tmax), n, initguess, supplies)
  {
    var tarr := TimeGrid(tmax);
    if initguess.Some? {
      if |initguess.value| != n {
        return Fails(ValueError);
      }
      var fp := Settle(step, tarr, initguess.value);
      return Done(Search(fp, initguess));
    }
    var count := Tries(ntry);
    ghost var ss := Samples(n, supplies, count);
    var guess: Option<seq<real>> := None;
    for i := 0 to count
      invariant Tried(step, tarr, ss, 0, None) == Tried(step, tarr, ss, i, guess)
    {
      var sample := SampleAt(n, supplies, i);
      assert sample == ss[i];
      if sample.InvalidSize? {
        return Fails(ValueError);
      }
      if sample.OutOfDraws? {
        return Fails(DrawsExhausted);
      }
      guess := Some(sample.guess);
      var fp := Settle(step, tarr, sample.guess);
      if fp.Some? {
        return Done(Search(fp, guess));
      }
    }
    return Done(Search(None, guess));
  }

  /** The samples of the first Tries(ntry) tries satisfy SampledFor, and
      StableSamples when the draws are increments. */
  lemma SamplesShape(n: nat, supplies: seq<seq<seq<real>>>, count: nat)
    requires Drawn(n, supplies)
    ensures SampledFor(Samples(n, supplies, count), n)
    ensures Increments(supplies) ==> StableSamples(Samples(n, supplies, count))
  {
    var ss := Samples(n, supplies, count);
    if Increments(supplies) {
      forall i | 0 <= i < |ss| && ss[i].Accepted?
        ensures Stable(ss[i].guess)
      {
        SampleStable(n, supplies, i);
      }
    }
  }

  /** A guess drawn from increments is stable. */
  lemma SampleStable(n: nat, supplies: seq<seq<seq<real>>>, i: nat)
    requires Drawn(n, supplies) && Increments(supplies)
    requires SampleAt(n, supplies, i).Accepted?
    ensures Stable(SampleAt(n, supplies, i).guess)
  {
    var d := Supply(supplies, i);
    forall j, k | 0 <= j < |d| && 0 <= k < |d[j]|
      ensures IsIncrement(d[j][k])
    {
      assert d[j] == supplies[i][j];
    }
    InitGuessSmooth(n, d, SampleAt(n, supplies, i).guess);
  }

  /** The guesses of the samples, when every sample is accepted. */
  function AcceptedGuesses(ss: seq<Sample>): (gs: seq<seq<real>>)
    requires forall i :: 0 <= i < |ss| ==> ss[i].Accepted?
    ensures |gs| == |ss|
    ensures forall i :: 0 <= i < |ss| ==> gs[i] == ss[i].guess
  {
    seq(|ss|, i requires 0 <= i < |ss| => ss[i].guess)
  }

  /** The search over gs picks guess k when k is the first that settles
      (none settles when k == |gs|). */
  lemma RandomSearchAt(step: (seq<real>, real, real) -> seq<real>, t: seq<real>, gs: seq<seq<real>>, k: nat)
    requires |t| >= 1 && SizePreserving(step)
    requires k <= |gs|
    requires forall j :: 0 <= j < k ==> Attempt(step, t, gs[j]).None?
    requires k < |gs| ==> Attempt(step, t, gs[k]).Some?
    ensures RandomSearch(step, t, gs) ==
            if k < |gs| then Search(Attempt(step, t, gs[k]), Some(gs[k]))
            else Search(None, if gs == [] then None else Some(gs[|gs| - 1]))
  {
    var flags := Settles(step, t, gs);
    assert forall j :: 0 <= j < k ==> !flags[j];
    assert FirstTrue(flags) == k;
  }

  /** A try whose guess does not settle moves on to the next try. */
  lemma TriedMoves(step: (seq<real>, real, real) -> seq<real>, t: seq<real>, ss: seq<Sample>,
                   i: nat, last: Option<seq<real>>)
    requires |t| >= 1 && SizePreserving(step)
    requires i < |ss| && ss[i].Accepted? && Attempt(step, t, ss[i].guess).None?
    ensures Tried(step, t, ss, i, last) == Tried(step, t, ss, i + 1, Some(ss[i].guess))
  {
  }

  /** A try whose guess settles ends the search with that guess. */
  lemma TriedSettles(step: (seq<real>, real, real) -> seq<real>, t: seq<real>, ss: seq<Sample>,
                     i: nat, last: Option<seq<real>>)
    requires |t| >= 1 && SizePreserving(step)
    requires i < |ss| && ss[i].Accepted? && Attempt(step, t, ss[i].guess).Some?
    ensures Tried(step, t, ss, i, last) == Done(Search(Attempt(step, t, ss[i].guess), Some(ss[i].guess)))
  {
  }

  /** From try i on, when every sample is accepted and k is the first try
      from i on whose guess settles (k == |gs| when none does), the tries
      stop at try k reporting its guess, or report the last guess. */
  lemma {:induction false} TriedStopsAt(step: (seq<real>, real, real) -> seq<real>, t: seq<real>,
                                        ss: seq<Sample>, gs: seq<seq<real>>, i: nat, k: nat)
    requires |t| >= 1 && SizePreserving(step)
    requires forall j :: 0 <= j < |ss| ==> ss[j].Accepted?
    requires gs == AcceptedGuesses(ss)
    requires i <= k <= |gs|
    requires forall j :: i <= j < k ==> Attempt(step, t, gs[j]).None?
    requires k < |gs| ==> Attempt(step, t, gs[k]).Some?
    ensures Tried(step, t, ss, i, if i == 0 then None else Some(gs[i - 1])) ==
            if k < |gs| then Done(Search(Attempt(step, t, gs[k]), Some(gs[k])))
            else Done(Search(None, if gs == [] then None else Some(gs[|gs| - 1])))
    decreases k - i
  {
    var last := if i == 0 then None else Some(gs[i - 1]);
    if i < k {
      TriedMoves(step, t, ss, i, last);
      TriedStopsAt(step, t, ss, gs, i + 1, k);
    } else if k < |gs| {
      TriedSettles(step, t, ss, i, last);
    }
  }

  /** The search with draws is the search over the guesses drawn: a
      supplied guess of the right size is the only one tried, and when
      every try draws a guess the first that settles wins, so the lemmas
      about SearchOutcome apply to `_try_find_fps` itself. */
  lemma FindOutcomeIsSearch(ntry: int, step: (seq<real>, real, real) -> seq<real>, t: seq<real>, n: nat,
                            initguess: Option<seq<real>>, supplies: seq<seq<seq<real>>>)
    requires |t| >= 1 && SizePreserving(step) && Drawn(n, supplies)
    requires initguess.Some? ==> |initguess.value| == n
    requires initguess.None? ==> forall j :: 0 <= j < Tries(ntry) ==> SampleAt(n, supplies, j).Accepted?
    ensures initguess.Some? ==>
              FindOutcome(ntry, step, t, n, initguess, supplies) == Done(SearchOutcome(ntry, step, t, initguess, []))
    ensures initguess.None? ==>
              FindOutcome(ntry, step, t, n, initguess, supplies) ==
              Done(SearchOutcome(ntry, step, t, None, AcceptedGuesses(Samples(n, supplies, Tries(ntry)))))
  {
    if initguess.None? {
      var ss := Samples(n, supplies, Tries(ntry));
      var gs := AcceptedGuesses(ss);
      assert gs[..Tries(ntry)] == gs;
      var flags := Settles(step, t, gs);
      var k := FirstTrue(flags);
      assert forall j :: 0 <= j < k ==> !flags[j];
      TriedStopsAt(step, t, ss, gs, 0, k);
      RandomSearchAt(step, t, gs, k);
    }
  }

  /** From try i on: a ValueError comes exactly from an empty network with
      a try left; every reported guess has n phases; and a fixed point is
      the last state of a converged trajectory from the guess reported. */
  lemma {:induction false} TriedSound(step: (seq<real>, real, real) -> seq<real>, t: seq<real>,
                                      ss: seq<Sample>, n: nat, i: nat, last: Option<seq<real>>)
    requires |t| >= 1 && SizePreserving(step) && SampledFor(ss, n)
    requires last.Some? ==> |last.value| == n
    ensures var r := Tried(step, t, ss, i, last);
            (r == Fails(ValueError) <==> n == 0 && i < |ss|) &&
            (r.Done? && r.search.guess.Some? ==> |r.search.guess.value| == n) &&
            (r.Done? && r.search.fixedPoint.Some? ==>
               r.search.guess.Some? && |r.search.fixedPoint.value| == n &&
               Rectangular(Trajectory(step, r.search.guess.value, t), n) &&
               HasConverged(Trajectory(step, r.search.guess.value, t), n, 0) &&
               r.search.fixedPoint.value == State(step, r.search.guess.value, t, |t| - 1))
    decreases |ss| - i
  {
    if i < |ss| && ss[i].Accepted? {
      var g := ss[i].guess;
      AttemptSound(step, t, g);
      StateSize(step, g, t, |t| - 1);
      if Attempt(step, t, g).None? {
        TriedSound(step, t, ss, n, i + 1, Some(g));
      }
    }
  }

  /** From try i on, every guess reported is stable when every sample
      accepted is and the guess before was. */
  lemma {:induction false} TriedStable(step: (seq<real>, real, real) -> seq<real>, t: seq<real>,
                                       ss: seq<Sample>, i: nat, last: Option<seq<real>>)
    requires |t| >= 1 && SizePreserving(step) && StableSamples(ss)
    requires last.Some? ==> Stable(last.value)
    ensures var r := Tried(step, t, ss, i, last);
            r.Done? && r.search.guess.Some? ==> Stable(r.search.guess.value)
    decreases |ss| - i
  {
    if i < |ss| && ss[i].Accepted? && Attempt(step, t, ss[i].guess).None? {
      TriedStable(step, t, ss, i + 1, Some(ss[i].guess));
    }
  }

  /** `_try_find_fps` raises ValueError exactly for a supplied guess of the
      wrong size, or for random tries on an empty network; a fixed point it
      reports has n phases and ends a converged trajectory from the guess
      reported with it. */
  lemma FindOutcomeSound(ntry: int, step: (seq<real>, real, real) -> seq<real>, t: seq<real>, n: nat,
                         initguess: Option<seq<real>>, supplies: seq<seq<seq<real>>>)
    requires |t| >= 1 && SizePreserving(step) && Drawn(n, supplies)
    ensures var r := FindOutcome(ntry, step, t, n, initguess, supplies);
            (r == Fails(ValueError) <==>
               (initguess.Some? && |initguess.value| != n) || (initguess.None? && n == 0 && ntry > 0)) &&
            (r.Done? && r.search.fixedPoint.Some? ==>
               r.search.guess.Some? && |r.search.guess.value| == n && |r.search.fixedPoint.value| == n &&
               Rectangular(Trajectory(step, r.search.guess.value, t), n) &&
               HasConverged(Trajectory(step, r.search.guess.value, t), n, 0) &&
               r.search.fixedPoint.value == State(step, r.search.guess.value, t, |t| - 1))
  {
    if initguess.Some? {
      AttemptSound(step, t, initguess.value);
      StateSize(step, initguess.value, t, |t| - 1);
    } else {
      SamplesShape(n, supplies, Tries(ntry));
      TriedSound(step, t, Samples(n, supplies, Tries(ntry)), n, 0, None);
    }
  }

  /** Every random guess `_try_find_fps` reports starts at 0 and has all its
      cyclic wrapped differences within [-π/2, π/2]. */
  lemma RandomGuessesAreStable(ntry: int, step: (seq<real>, real, real) -> seq<real>, t: seq<real>, n: nat,
                               supplies: seq<seq<seq<real>>>)
    requires |t| >= 1 && SizePreserving(step) && Drawn(n, supplies) && Increments(supplies)
    ensures var r := FindOutcome(ntry, step, t, n, None, supplies);
            r.Done? && r.search.guess.Some? ==> Stable(r.search.guess.value)
  {
    SamplesShape(n, supplies, Tries(ntry));
    TriedStable(step, t, Samples(n, supplies, Tries(ntry)), 0, None);
  }

  // ---------------------------------------------------------------------
  // The equations of motion (`_kuramoto_ode`)
  // ---------------------------------------------------------------------

  /** sin is an odd function: sin(-x) = -sin(x). */
  ghost predicate Odd(f: real -> real)
  {
    forall x, y :: x + y == 0.0 ==> f(x) == -f(y)
  }

  /** Reading off oddness at one point: f(b - a) = -f(a - b). */
  lemma OddAt(f: real -> real, a: real, b: real)
    requires Odd(f)
    ensures f(b - a) == -f(a - b)
  {
    assert (b - a) + (a - b) == 0.0;
  }

  /** The termwise products of two vectors of one length. */
  function Products(a: seq<real>, b: seq<real>): (r: seq<real>)
    requires |a| == |b|
    ensures |r| == |a|
    ensures forall k :: 0 <= k < |a| ==> r[k] == a[k] * b[k]
  {
    seq(|a|, k requires 0 <= k < |a| => a[k] * b[k])
  }

  /** The dot product `np.dot(a, b)` of two vectors. */
  function Dot(a: seq<real>, b: seq<real>): real
    requires |a| == |b|
  {
    Sum(Products(a, b))
  }

  /** The terms of column k of M against th. */
  function ColumnTerms(M: seq<seq<real>>, th: seq<real>, k: nat): (r: seq<real>)
    requires |M| == |th| && forall i :: 0 <= i < |M| ==> k < |M[i]|
    ensures |r| == |th|
    ensures forall i :: 0 <= i < |th| ==> r[i] == M[i][k] * th[i]
  {
    seq(|th|, i requires 0 <= i < |th| => M[i][k] * th[i])
  }

  /** Entry k of `np.dot(M.T, th)`. */
  function ColumnDot(M: seq<seq<real>>, th: seq<real>, k: nat): real
    requires |M| == |th| && forall i :: 0 <= i < |M| ==> k < |M[i]|
  {
    Sum(ColumnTerms(M, th, k))
  }

  /** `np.sin(np.dot(M.T, th))` for an n-by-m matrix M. */
  function Sines(sin: real -> real, M: seq<seq<real>>, th: seq<real>, m: nat): (r: seq<real>)
    requires IsMatrix(M, |th|, m)
    ensures |r| == m
    ensures forall k :: 0 <= k < m ==> r[k] == sin(ColumnDot(M, th, k))
  {
    seq(m, k requires 0 <= k < m => sin(ColumnDot(M, th, k)))
  }

  /** `_kuramoto_ode(t, th, M_I, M_I_w, P)`: `P - np.dot(M_I_w,
      np.sin(np.dot(M_I.T, th)))` for n-by-m incidence matrices. */
  function KuramotoOde(sin: real -> real, th: seq<real>, M: seq<seq<real>>, Mw: seq<seq<real>>,
                       P: seq<real>, m: nat): (r: seq<real>)
    requires IsMatrix(M, |th|, m) && IsMatrix(Mw, |th|, m) && |P| == |th|
    ensures |r| == |th|
    ensures forall i :: 0 <= i < |th| ==> r[i] == P[i] - Dot(Mw[i], Sines(sin, M, th, m))
  {
    var s := Sines(sin, M, th, m);
    seq(|P|, i requires 0 <= i < |P| => P[i] - Dot(Mw[i], s))
  }

  /** Edge e's share of the flow out of node i: its flow when it leaves i,
      minus its flow when it enters i, nothing for a self-loop. */
  function OutflowTerm(sin: real -> real, th: seq<real>, e: Edge, weighted: bool, i: nat): real
    requires e.u < |th| && e.v < |th|
  {
    if e.u == e.v then 0.0
    else if i == e.u then EdgeFlow(sin, th, e, weighted)
    else if i == e.v then -EdgeFlow(sin, th, e, weighted)
    else 0.0
  }

  function OutflowTerms(sin: real -> real, th: seq<real>, edges: seq<Edge>, weighted: bool, i: nat): (r: seq<real>)
    requires EdgesWithin(edges, |th|)
    ensures |r| == |edges|
    ensures forall k :: 0 <= k < |edges| ==> r[k] == OutflowTerm(sin, th, edges[k], weighted, i)
  {
    seq(|edges|, k requires 0 <= k < |edges| => OutflowTerm(sin, th, edges[k], weighted, i))
  }

  /** The net flow out of node i along the edges. */
  function NetOutflow(sin: real -> real, th: seq<real>, edges: seq<Edge>, weighted: bool, i: nat): real
    requires EdgesWithin(edges, |th|)
  {
    Sum(OutflowTerms(sin, th, edges, weighted, i))
  }

  /** Column k of the unweighted incidence matrix picks out the phase
      difference across edge k: θv - θu, or 0 for a self-loop. */
  lemma {:induction false} ColumnDotIncidence(th: seq<real>, edges: seq<Edge>, k: nat)
    requires EdgesWithin(edges, |th|) && k < |edges|
    ensures ColumnDot(Incidence(|th|, edges, false), th, k) ==
              if edges[k].u == edges[k].v then 0.0 else th[edges[k].v] - th[edges[k].u]
  {
    var e := edges[k];
    var n := |th|;
    var xs := ColumnTerms(Incidence(n, edges, false), th, k);
    if e.u == e.v {
      SumZero(xs);
    } else {
      var a := seq(n, i requires 0 <= i < n => if i == e.v then th[e.v] else 0.0);
      var b := seq(n, i requires 0 <= i < n => if i == e.u then -th[e.u] else 0.0);
      SumPoint(a, e.v);
      SumPoint(b, e.u);
      SumAdd(a, b, xs);
    }
  }

  /** Sign bookkeeping for one entry of the weighted incidence matrix times
      the sine of a reversed difference. */
  lemma ProductSigns(w: real, s: real, y: real)
    requires y == -s
    ensures (-w) * y == s * w
    ensures w * y == -(s * w)
  {
  }

  /** Entry (i, k) of the weighted incidence matrix times the sine of edge
      k's phase difference is edge k's share of the outflow at i. */
  lemma {:induction false} IncidenceTerm(sin: real -> real, th: seq<real>, edges: seq<Edge>, weighted: bool, i: nat, k: nat)
    requires Odd(sin) && EdgesWithin(edges, |th|) && i < |th| && k < |edges|
    ensures Incidence(|th|, edges, weighted)[i][k] * Sines(sin, Incidence(|th|, edges, false), th, |edges|)[k] ==
              OutflowTerm(sin, th, edges[k], weighted, i)
  {
    var e := edges[k];
    ColumnDotIncidence(th, edges, k);
    if e.u != e.v {
      OddAt(sin, th[e.u], th[e.v]);
      ProductSigns(Weight(e, weighted), sin(th[e.u] - th[e.v]), sin(th[e.v] - th[e.u]));
    }
  }

  /** The Kuramoto right-hand side at node i is the power balance there:
      the injection P[i] minus the net flow out of i, with the flows that
      `steady_flows` reports. A fixed point is where every node balances. */
  lemma {:induction false} OdeIsPowerBalance(sin: real -> real, th: seq<real>, edges: seq<Edge>, weighted: bool,
                                             P: seq<real>, i: nat)
    requires Odd(sin) && EdgesWithin(edges, |th|) && |P| == |th| && i < |th|
    ensures KuramotoOde(sin, th, Incidence(|th|, edges, false), Incidence(|th|, edges, weighted), P, |edges|)[i] ==
              P[i] - NetOutflow(sin, th, edges, weighted, i)
  {
    var n := |th|;
    var M := Incidence(n, edges, false);
    var Mw := Incidence(n, edges, weighted);
    var s := Sines(sin, M, th, |edges|);
    forall k | 0 <= k < |edges|
      ensures Products(Mw[i], s)[k] == OutflowTerms(sin, th, edges, weighted, i)[k]
    {
      IncidenceTerm(sin, th, edges, weighted, i, k);
    }
    assert Products(Mw[i], s) == OutflowTerms(sin, th, edges, weighted, i);
  }

  // ---------------------------------------------------------------------
  // Edge flows (`steady_flows`)
  // ---------------------------------------------------------------------

  /** The flow on edge (u, v): `np.sin(thetas[u] - thetas[v])` times the
      edge's weight. */
  function EdgeFlow(sin: real -> real, thetas: seq<real>, e: Edge, weighted: bool): real
    requires e.u < |thetas| && e.v < |thetas|
  {
    sin(thetas[e.u] - thetas[e.v]) * Weight(e, weighted)
  }

  /** The dictionary comprehension of `steady_flows`: one entry per edge,
      keyed (u, v) as the graph lists it; a later edge with the same key
      overwrites an earlier one. */
  function ProjectFlows(sin: real -> real, thetas: seq<real>, edges: seq<Edge>, weighted: bool): (r: map<(nat, nat), real>)
    requires EdgesWithin(edges, |thetas|)
    ensures forall k :: 0 <= k < |edges| ==> Key(edges[k]) in r
    ensures |edges| > 0 ==> r[Key(edges[|edges| - 1])] == EdgeFlow(sin, thetas, edges[|edges| - 1], weighted)
    decreases |edges|
  {
    if edges == [] then map[]
    else
      var last := edges[|edges| - 1];
      ProjectFlows(sin, thetas, edges[..|edges| - 1], weighted)[Key(last) := EdgeFlow(sin, thetas, last, weighted)]
  }

  /** The position of the last edge stored under key, if any. */
  function LastWith(edges: seq<Edge>, key: (nat, nat)): (r: Option<nat>)
    ensures r.Some? ==> r.value < |edges| && Key(edges[r.value]) == key &&
                        forall j :: r.value < j < |edges| ==> Key(edges[j]) != key
    ensures r.None? ==> forall j :: 0 <= j < |edges| ==> Key(edges[j]) != key
    decreases |edges|
  {
    if edges == [] then None
    else if Key(edges[|edges| - 1]) == key then Some(|edges| - 1)
    else LastWith(edges[..|edges| - 1], key)
  }

  /** The flow dictionary holds exactly the keys of the edges, and each key
      holds the flow of the last edge listed under it. */
  lemma {:induction false} ProjectFlowsLookup(sin: real -> real, thetas: seq<real>, edges: seq<Edge>,
                                              weighted: bool, key: (nat, nat))
    requires EdgesWithin(edges, |thetas|)
    ensures key in ProjectFlows(sin, thetas, edges, weighted) <==> LastWith(edges, key).Some?
    ensures key in ProjectFlows(sin, thetas, edges, weighted) ==>
              ProjectFlows(sin, thetas, edges, weighted)[key] ==
              EdgeFlow(sin, thetas, edges[LastWith(edges, key).value], weighted)
    decreases |edges|
  {
    if edges != [] {
      var init := edges[..|edges| - 1];
      ProjectFlowsLookup(sin, thetas, init, weighted, key);
      if Key(edges[|edges| - 1]) != key {
        if LastWith(init, key).Some? {
          assert init[LastWith(init, key).value] == edges[LastWith(init, key).value];
        }
      }
    }
  }

  /** In a simple graph every edge's own flow is stored under its key. */
  lemma SimpleEdgeFlow(sin: real -> real, thetas: seq<real>, edges: seq<Edge>, weighted: bool, k: nat)
    requires EdgesWithin(edges, |thetas|) && Simple(edges) && k < |edges|
    ensures Key(edges[k]) in ProjectFlows(sin, thetas, edges, weighted)
    ensures ProjectFlows(sin, thetas, edges, weighted)[Key(edges[k])] == EdgeFlow(sin, thetas, edges[k], weighted)
  {
    ProjectFlowsLookup(sin, thetas, edges, weighted, Key(edges[k]));
    forall j | 0 <= j < |edges| && j != k
      ensures !Joins(edges[j], edges[k].u, edges[k].v)
    {
      SimpleApart(edges, j, k);
    }
  }

  /** In a simple graph no pair of distinct nodes is stored in both
      directions, so the FlowDict's fallback is what answers reversed keys. */
  lemma SimpleFlowsOneDirection(sin: real -> real, thetas: seq<real>, edges: seq<Edge>, weighted: bool)
    requires EdgesWithin(edges, |thetas|) && Simple(edges)
    ensures FlowTools.OneDirection(ProjectFlows(sin, thetas, edges, weighted))
  {
    var m := ProjectFlows(sin, thetas, edges, weighted);
    forall key | key in m && key.0 != key.1
      ensures FlowTools.Reverse(key) !in m
    {
      ProjectFlowsLookup(sin, thetas, edges, weighted, key);
      ProjectFlowsLookup(sin, thetas, edges, weighted, FlowTools.Reverse(key));
      var i := LastWith(edges, key).value;
      forall j | 0 <= j < |edges| && j != i
        ensures !Joins(edges[j], edges[i].u, edges[i].v)
      {
        SimpleApart(edges, j, i);
      }
    }
  }

  /** Reading an edge of a simple graph backwards through the FlowDict
      answers with minus its flow, and stores that answer. */
  lemma ReverseLookupOfEdge(sin: real -> real, thetas: seq<real>, edges: seq<Edge>, weighted: bool, k: nat)
    requires EdgesWithin(edges, |thetas|) && Simple(edges) && k < |edges|
    requires edges[k].u != edges[k].v
    ensures var e := edges[k];
            var look := FlowTools.LookupIn(ProjectFlows(sin, thetas, edges, weighted), (e.v, e.u));
            look.value == Some(-EdgeFlow(sin, thetas, e, weighted)) &&
            (e.v, e.u) in look.entries && look.entries[(e.v, e.u)] == -EdgeFlow(sin, thetas, e, weighted)
  {
    var e := edges[k];
    SimpleEdgeFlow(sin, thetas, edges, weighted, k);
    SimpleFlowsOneDirection(sin, thetas, edges, weighted);
    assert FlowTools.Reverse(Key(e)) == (e.v, e.u);
  }

  /** With sin odd, minus an edge's flow is the flow computed in the other
      direction: sin(θv - θu) times the weight. */
  lemma NegatedEdgeFlow(sin: real -> real, thetas: seq<real>, e: Edge, weighted: bool)
    requires e.u < |thetas| && e.v < |thetas| && Odd(sin)
    ensures -EdgeFlow(sin, thetas, e, weighted) == sin(thetas[e.v] - thetas[e.u]) * Weight(e, weighted)
  {
    OddAt(sin, thetas[e.u], thetas[e.v]);
    NegateProduct(sin(thetas[e.u] - thetas[e.v]), sin(thetas[e.v] - thetas[e.u]), Weight(e, weighted));
  }

  /** Hence reading an edge of a simple graph backwards through the FlowDict
      answers with the flow computed in the other direction. */
  lemma {:induction false} ReversedEdgeFlow(sin: real -> real, thetas: seq<real>, edges: seq<Edge>, weighted: bool, k: nat)
    requires EdgesWithin(edges, |thetas|) && Simple(edges) && k < |edges|
    requires Odd(sin) && edges[k].u != edges[k].v
    ensures var e := edges[k];
            FlowTools.LookupIn(ProjectFlows(sin, thetas, edges, weighted), (e.v, e.u)).value ==
              Some(sin(thetas[e.v] - thetas[e.u]) * Weight(e, weighted))
  {
    var e := edges[k];
    var look := FlowTools.LookupIn(ProjectFlows(sin, thetas, edges, weighted), (e.v, e.u));
    ReverseLookupOfEdge(sin, thetas, edges, weighted, k);
    assert look.value == Some(-EdgeFlow(sin, thetas, e, weighted));
    NegatedEdgeFlow(sin, thetas, e, weighted);
    assert -EdgeFlow(sin, thetas, e, weighted) == sin(thetas[e.v] - thetas[e.u]) * Weight(e, weighted);
    assert look.value == Some(sin(thetas[e.v] - thetas[e.u]) * Weight(e, weighted));
  }

  // ---------------------------------------------------------------------
  // The steady state (`steady_flows`)
  // ---------------------------------------------------------------------

  /** A reported fixed point has one phase per node when every guess does. */
  lemma {:induction false} FixedPointSize(ntry: int, step: (seq<real>, real, real) -> seq<real>, t: seq<real>,
                                          initguess: Option<seq<real>>, gs: seq<seq<real>>, n: nat)
    requires |t| >= 1 && SizePreserving(step)
    requires initguess.Some? || Tries(ntry) <= |gs|
    requires initguess.Some? ==> |initguess.value| == n
    requires forall j :: 0 <= j < |gs| ==> |gs[j]| == n
    ensures var r := SearchOutcome(ntry, step, t, initguess, gs);
            r.fixedPoint.Some? ==> |r.fixedPoint.value| == n
  {
    var r := SearchOutcome(ntry, step, t, initguess, gs);
    if r.fixedPoint.Some? {
      if initguess.Some? {
        AttemptSound(step, t, initguess.value);
        StateSize(step, initguess.value, t, |t| - 1);
      } else {
        var tried := gs[..Tries(ntry)];
        RandomSearchPicksFirst(step, t, tried);
        var k := FirstTrue(Settles(step, t, tried));
        AttemptSound(step, t, tried[k]);
        StateSize(step, tried[k], t, |t| - 1);
      }
    }
  }

  /** The dictionary `steady_flows` returns beside the flows: the initial
      guess, and on success the phases and the winding numbers. */
  datatype SteadyData = SteadyData(initguess: Option<seq<real>>, thetas: Option<seq<real>>, omega: Option<seq<real>>)

  /** `steady_flows(flownet, initguess, extra_output)`: search for a fixed
      point with NTRY guesses over TMAX; when the search fails, say why; on
      no fixed point return no flows and the last guess; on success return
      the FlowDict of edge flows and, when asked, the guess, the phases and
      the winding numbers of the cycles. */
  method SteadyFlows(n: nat, edges: seq<Edge>, weighted: bool, sin: real -> real,
                     step: (seq<real>, real, real) -> seq<real>, cycles: seq<seq<nat>>,
                     initguess: Option<seq<real>>, extraOutput: bool, supplies: seq<seq<seq<real>>>)
    returns (flows: FlowTools.FlowDict?<nat>, data: Option<SteadyData>, failure: Option<Failure>)
    requires SizePreserving(step) && EdgesWithin(edges, n) && Drawn(n, supplies)
    requires forall c, j :: 0 <= c < |cycles| && 0 <= j < |cycles[c]| ==> cycles[c][j] < n
    ensures var r := FindOutcome(NTRY, step, TimeGrid(TMAX), n, initguess, supplies);
            (r.Fails? ==> failure == Some(r.failure) && flows == null && data.None?) &&
            (r.Done? ==>
               failure.None? &&
               (flows == null <==> r.search.fixedPoint.None?) &&
               (r.search.fixedPoint.None? ==> data == Some(SteadyData(r.search.guess, None, None))) &&
               (r.search.fixedPoint.Some? ==>
                  |r.search.fixedPoint.value| == n && fresh(flows) &&
                  flows.entries == ProjectFlows(sin, r.search.fixedPoint.value, edges, weighted) &&
                  (!extraOutput ==> data.None?) &&
                  (extraOutput ==>
                     data.Some? && data.value.initguess == r.search.guess && data.value.thetas == r.search.fixedPoint &&
                     data.value.omega.Some? && |data.value.omega.value| == |cycles| &&
                     forall c :: 0 <= c < |cycles| ==>
                       data.value.omega.value[c] ==
                       WindingNumber(CycleAngles(r.search.fixedPoint.value, cycles[c])) as real)))
  {
    var outcome := TryFindFps(NTRY, step, TMAX, n, initguess, supplies);
    if outcome.Fails? {
      return null, None, Some(outcome.failure);
    }
    failure := None;
    var search := outcome.search;
    if search.fixedPoint.None? {
      return null, Some(SteadyData(search.guess, None, None)), None;
    }
    FindOutcomeSound(NTRY, step, TimeGrid(TMAX), n, initguess, supplies);
    var thetas := search.fixedPoint.value;
    flows := new FlowTools.FlowDict(ProjectFlows(sin, thetas, edges, weighted));
    if extraOutput {
      var omega := Omega(cycles, thetas);
      data := Some(SteadyData(search.guess, Some(thetas), Some(omega)));
    } else {
      data := None;
    }
  }
}
