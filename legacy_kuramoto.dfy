/** The older Kuramoto solver of flowmodels/kuramoto.py: phase wrapping onto
    [-π, π) (`mod_piby2`), the random initial guess with a computed last
    angle, the orientation-aware winding number `_omega`, which reads the
    flows back through the flow dictionary, the fixed-point search and
    `fixed_point`. The integrator, the convergence test and the right-hand
    side of the ODE are the same code as in the newer module and are shared
    with it. */
module LegacyKuramoto {
  import opened Numerics
  import opened Network
  import K = Kuramoto
  import S = KuramotoSolver
  import FlowTools

  /** The Python exceptions the legacy code can raise. */
  datatype PyError = KeyError | ValueError | ZeroDivisionError | AssertionError

  /** A value, or the exception raised instead of it. */
  datatype Raised<T> = Ok(value: T) | Raises(error: PyError)

  // ---------------------------------------------------------------------
  // Phase wrapping (`mod_piby2`)
  // ---------------------------------------------------------------------

  /** The number of whole turns `mod_piby2` takes off its argument. */
  function HalfOpenTurns(x: real): int
  {
    if K.Remainder(x) < PI then Turns(x) else Turns(x) + 1
  }

  /** `mod_piby2(x)`: the remainder `x % 2π` is kept when it is below π and
      moved down by 2π otherwise, so the result lies in [-π, π) and differs
      from x by whole turns. */
  function ModPiBy2(x: real): (r: real)
    ensures -PI <= r < PI
    ensures r == x - Turn(HalfOpenTurns(x))
  {
    var rem := K.Remainder(x);
    if rem < PI then rem else rem - TWO_PI
  }

  /** `mod_piby2` is the one angle in [-π, π) that differs from x by a whole
      number of turns. */
  lemma ModPiBy2Unique(x: real, r: real, k: int)
    requires -PI <= r < PI
    requires r == x + Turn(k)
    ensures ModPiBy2(x) == r
  {
    var j := k + HalfOpenTurns(x);
    assert r - ModPiBy2(x) == Turn(j);
  }

  /** Adding whole turns does not change the wrapped angle. */
  lemma ModPiBy2Periodic(x: real, k: int)
    ensures ModPiBy2(x + Turn(k)) == ModPiBy2(x)
  {
    ModPiBy2Unique(x + Turn(k), ModPiBy2(x), -k - HalfOpenTurns(x));
  }

  /** The two conventions differ only on odd multiples of π, which the newer
      `_mod_pi` sends to π and `mod_piby2` sends to -π. */
  lemma ModPiBy2AgreesWithModPi(x: real)
    ensures K.ModPi(x) != PI ==> ModPiBy2(x) == K.ModPi(x)
    ensures K.ModPi(x) == PI ==> ModPiBy2(x) == -PI
  {
    if K.ModPi(x) != PI {
      ModPiBy2Unique(x, K.ModPi(x), -K.WrapTurns(x));
    } else {
      ModPiBy2Unique(x, -PI, -K.WrapTurns(x) - 1);
    }
  }

  // ---------------------------------------------------------------------
  // Random initial guess (`random_stableop_initguess`)
  // ---------------------------------------------------------------------

  /** `np.fmod(x, 2π)`: the remainder of the quotient truncated toward zero,
      which has the sign of x. */
  function FMod2Pi(x: real): (r: real)
    ensures 0.0 <= x ==> 0.0 <= r < TWO_PI
    ensures x < 0.0 ==> -TWO_PI < r <= 0.0
    ensures r == x - Turn(Trunc(x / 6.283185307179586))
  {
    x - Turn(Trunc(x / 6.283185307179586))
  }

  /** fmod agrees with the floored remainder `x % 2π` on non-negative x; on
      negative x it is one turn below it unless both are 0. */
  lemma FModAndRemainder(x: real)
    ensures 0.0 <= x ==> FMod2Pi(x) == K.Remainder(x)
    ensures FMod2Pi(x) == 0.0 <==> K.Remainder(x) == 0.0
    ensures x < 0.0 && FMod2Pi(x) != 0.0 ==> FMod2Pi(x) == K.Remainder(x) - TWO_PI
  {
    var j := Turns(x) - Trunc(x / 6.283185307179586);
    assert FMod2Pi(x) - K.Remainder(x) == Turn(j);
    if j >= 1 {
      assert Turn(j) >= Turn(1);
    }
  }

  /** The last angle `random_stableop_initguess` appends after the running
      sum ending at prev: with fm = fmod(prev, 2π), `fm/2 - π` when fm > π
      and fm/2 otherwise. It lies in (-π, π/2]. */
  function LastAngle(prev: real): (a: real)
    ensures -PI < a <= PI / 2.0
  {
    var fm := FMod2Pi(prev);
    if fm > PI then fm / 2.0 - PI else fm / 2.0
  }

  /** `random_stableop_initguess(size)` on the `size - 2` increments d that
      `np.random.uniform` draws: the running sum of d from 0, then the last
      angle. numpy refuses a negative number of draws, so a size below 2
      raises ValueError. */
  function InitGuess(size: nat, d: seq<real>): (r: Raised<seq<real>>)
    requires size >= 2 ==> |d| + 2 == size
    ensures r.Raises? <==> size < 2
    ensures r.Raises? ==> r.error == ValueError
    ensures r.Ok? ==> |r.value| == size && r.value[0] == 0.0 &&
                      (forall k :: 0 <= k < size - 1 ==> r.value[k] == Sum(d[..k])) &&
                      r.value[size - 1] == LastAngle(r.value[size - 2])
  {
    if size < 2 then Raises(ValueError)
    else
      var g := K.Anchored(d);
      Ok(g + [LastAngle(g[|g| - 1])])
  }

  /** The last angle as evidently intended: halfway round from prev to the
      next whole turn, using the floored remainder `prev % 2π` in place of
      fmod. It lies in (-π/2, π/2]. */
  function StableLastAngle(prev: real): (a: real)
    ensures -PI / 2.0 < a <= PI / 2.0
  {
    var rem := K.Remainder(prev);
    if rem > PI then rem / 2.0 - PI else rem / 2.0
  }

  /** The two last angles agree unless fmod(prev, 2π) is at most -π, where
      the one written in the source is half a turn too low. */
  lemma LastAngleAgreement(prev: real)
    ensures FMod2Pi(prev) > -PI ==> StableLastAngle(prev) == LastAngle(prev)
    ensures FMod2Pi(prev) <= -PI ==> StableLastAngle(prev) == LastAngle(prev) + PI
  {
    FModAndRemainder(prev);
  }

  /** `random_stableop_initguess` with the intended last angle. */
  function StableInitGuess(size: nat, d: seq<real>): (r: Raised<seq<real>>)
    requires size >= 2 ==> |d| + 2 == size
    ensures r.Raises? <==> size < 2
    ensures r.Raises? ==> r.error == ValueError
    ensures r.Ok? ==> |r.value| == size && r.value[0] == 0.0 &&
                      (forall k :: 0 <= k < size - 1 ==> r.value[k] == Sum(d[..k])) &&
                      r.value[size - 1] == StableLastAngle(r.value[size - 2])
  {
    if size < 2 then Raises(ValueError)
    else
      var g := K.Anchored(d);
      Ok(g + [StableLastAngle(g[|g| - 1])])
  }

  /** The running sum of three equal increments x. */
  lemma AnchoredThree(x: real)
    ensures K.Anchored([x, x, x]) == [0.0, x, x + x, x + x + x]
  {
    var d := [x, x, x];
    var g := K.Anchored(d);
    var h := [0.0, x, x + x, x + x + x];
    assert d[..0] == [];
    K.AnchoredStep(d, 0);
    K.AnchoredStep(d, 1);
    K.AnchoredStep(d, 2);
    assert g[0] == h[0] && g[1] == h[1] && g[2] == h[2] && g[3] == h[3];
    SameEntries(g, h);
  }

  /** Sequences of one length that agree at every index are equal. */
  lemma SameEntries(a: seq<real>, b: seq<real>)
    requires |a| == |b| == 4 && a[0] == b[0] && a[1] == b[1] && a[2] == b[2] && a[3] == b[3]
    ensures a == b
  {
  }

  /** The running sum of three increments -1.5. */
  lemma CounterexampleSums()
    ensures K.Anchored([-1.5, -1.5, -1.5]) == [0.0, -1.5, -3.0, -4.5]
  {
    AnchoredThree(-1.5);
  }

  /** fmod(-4.5, 2π) is -4.5 itself, so the last angle is -2.25. */
  lemma CounterexampleLastAngle()
    ensures LastAngle(-4.5) == -2.25
  {
    assert Trunc(-4.5 / 6.283185307179586) == 0;
  }

  /** The wrapped step into the last entry of [0, -1.5, -3, -4.5, -2.25]. */
  lemma CounterexampleStep()
    ensures var g := [0.0, -1.5, -3.0, -4.5, -2.25];
            K.WrappedDiffs(g, K.Roll(g))[4] == 2.25
  {
    var g := [0.0, -1.5, -3.0, -4.5, -2.25];
    assert K.Roll(g)[4] == -4.5;
    K.ModPiFixesRange(2.25);
  }

  /** The guess promises phase differences below π/2, yet from the
      increments -1.5, -1.5, -1.5 (each within [-π/2, π/2)) it builds
      [0, -1.5, -3, -4.5, -2.25], whose last step is 2.25 even after
      wrapping: fmod(-4.5, 2π) is -4.5, not 2π - 4.5. */
  lemma InitGuessBreaksPromise()
    ensures forall k :: 0 <= k < 3 ==> K.IsIncrement([-1.5, -1.5, -1.5][k])
    ensures InitGuess(5, [-1.5, -1.5, -1.5]) == Ok([0.0, -1.5, -3.0, -4.5, -2.25])
    ensures var g := [0.0, -1.5, -3.0, -4.5, -2.25];
            K.WrappedDiffs(g, K.Roll(g))[4] == 2.25 && 2.25 > PI / 2.0
  {
    CounterexampleSums();
    CounterexampleLastAngle();
    CounterexampleStep();
    assert [0.0, -1.5, -3.0, -4.5] + [-2.25] == [0.0, -1.5, -3.0, -4.5, -2.25];
  }

  /** The step from prev to the intended last angle, and the step from that
      angle back to 0, are both within [-π/2, π/2] after wrapping. */
  lemma StableLastSteps(prev: real)
    ensures -PI / 2.0 <= K.ModPi(StableLastAngle(prev) - prev) <= PI / 2.0
    ensures -PI / 2.0 <= K.ModPi(-StableLastAngle(prev)) <= PI / 2.0
  {
    var rem := K.Remainder(prev);
    var c := StableLastAngle(prev);
    if rem > PI {
      K.ModPiUnique(c - prev, PI - rem / 2.0, Turns(prev) + 1);
    } else {
      K.ModPiUnique(c - prev, -rem / 2.0, Turns(prev));
    }
    K.ModPiFixesRange(-c);
  }

  /** Appending one angle keeps the wrapped steps inside the running sum. */
  lemma AppendedInnerStep(d: seq<real>, c: real, j: nat)
    requires forall k :: 0 <= k < |d| ==> K.IsIncrement(d[k])
    requires 0 < j <= |d|
    ensures var g := K.Anchored(d) + [c];
            -PI / 2.0 <= K.WrappedDiffs(g, K.Roll(g))[j] <= PI / 2.0
  {
    var a := K.Anchored(d);
    var g := a + [c];
    K.AnchoredStep(d, j - 1);
    assert K.Step(g, j) == K.Step(a, j);
    K.WrappedStep(g, j);
  }

  /** The wrapped step from the intended last angle round to the first
      entry 0. */
  lemma ClosingStep(a: seq<real>, prev: real)
    requires |a| > 0 && a[0] == 0.0
    ensures var g := a + [StableLastAngle(prev)];
            -PI / 2.0 <= K.WrappedDiffs(g, K.Roll(g))[0] <= PI / 2.0
  {
    var c := StableLastAngle(prev);
    StableLastSteps(prev);
    var g := a + [c];
    assert K.Roll(g)[0] == c && g[0] == 0.0;
    assert K.WrappedDiffs(g, K.Roll(g))[0] == K.ModPi(g[0] - K.Roll(g)[0]);
    assert g[0] - K.Roll(g)[0] == -c;
  }

  /** The wrapped step into the intended last angle. */
  lemma AppendedStep(a: seq<real>)
    requires |a| > 0
    ensures var g := a + [StableLastAngle(a[|a| - 1])];
            -PI / 2.0 <= K.WrappedDiffs(g, K.Roll(g))[|a|] <= PI / 2.0
  {
    var prev := a[|a| - 1];
    var c := StableLastAngle(prev);
    StableLastSteps(prev);
    var g := a + [c];
    assert K.Roll(g)[|a|] == prev && g[|a|] == c;
    assert K.WrappedDiffs(g, K.Roll(g))[|a|] == K.ModPi(c - prev);
  }

  /** The promise of `random_stableop_initguess`, for the intended last
      angle: on increments within [-π/2, π/2) every wrapped cyclic step
      `_mod_pi(g - np.roll(g, 1))` of the guess is within [-π/2, π/2]. */
  lemma {:induction false} StableInitGuessSmooth(size: nat, d: seq<real>)
    requires size >= 2 && |d| + 2 == size
    requires forall k :: 0 <= k < |d| ==> K.IsIncrement(d[k])
    ensures var g := StableInitGuess(size, d).value;
            forall j :: 0 <= j < size ==> -PI / 2.0 <= K.WrappedDiffs(g, K.Roll(g))[j] <= PI / 2.0
  {
    var a := K.Anchored(d);
    var c := StableLastAngle(a[|a| - 1]);
    var g := a + [c];
    assert StableInitGuess(size, d).value == g;
    assert a[0] == Sum(d[..0]);
    ClosingStep(a, a[|a| - 1]);
    AppendedStep(a);
    forall j | 0 < j < size - 1
      ensures -PI / 2.0 <= K.WrappedDiffs(g, K.Roll(g))[j] <= PI / 2.0
    {
      AppendedInnerStep(d, c, j);
    }
  }

  // ---------------------------------------------------------------------
  // Edge flows (`fixed_point`)
  // ---------------------------------------------------------------------

  /** The flow comprehensions of `fixed_point`: with a weight attribute,
      `sin(θu - θv) * dat[weight_attr]`, which raises KeyError at an edge
      without that attribute; without one, `sin(θu - θv)` unscaled. Keys
      are (u, v) as the graph lists the edge, and a later edge with the same
      key overwrites an earlier one. */
  function Flows(sin: real -> real, thetas: seq<real>, edges: seq<Edge>, weighted: bool): (r: Raised<map<(nat, nat), real>>)
    requires EdgesWithin(edges, |thetas|)
    ensures r.Raises? ==> r.error == KeyError
    ensures !weighted ==> r.Ok?
    decreases |edges|
  {
    if edges == [] then Ok(map[])
    else
      var e := edges[|edges| - 1];
      match Flows(sin, thetas, edges[..|edges| - 1], weighted)
      case Raises(err) => Raises(err)
      case Ok(m) =>
        match ScaledFlow(sin, thetas, e, weighted)
        case Raises(err) => Raises(err)
        case Ok(f) => Ok(m[Key(e) := f])
  }

  /** One entry of the comprehension: KeyError when the edge lacks the
      weight attribute, the flow of `steady_flows` otherwise. */
  function ScaledFlow(sin: real -> real, thetas: seq<real>, e: Edge, weighted: bool): (r: Raised<real>)
    requires e.u < |thetas| && e.v < |thetas|
    ensures r.Ok? <==> (weighted ==> e.weight.Some?)
    ensures r.Raises? ==> r.error == KeyError
    ensures r.Ok? ==> r.value == S.EdgeFlow(sin, thetas, e, weighted)
  {
    if !weighted then Ok(sin(thetas[e.u] - thetas[e.v]))
    else if e.weight.None? then Raises(KeyError)
    else Ok(sin(thetas[e.u] - thetas[e.v]) * e.weight.value)
  }

  /** Every edge carries the attribute the flows are scaled by, when there
      is one. */
  ghost predicate WeightsPresent(edges: seq<Edge>, weighted: bool)
  {
    weighted ==> forall k :: 0 <= k < |edges| ==> edges[k].weight.Some?
  }

  /** The legacy flows raise KeyError exactly when the network is weighted
      and some edge lacks the attribute; otherwise they are the flows of the
      newer `steady_flows`, `sin(θu - θv) * dat.get(weight_attr, 1)`. */
  lemma {:induction false} FlowsMatchProjection(sin: real -> real, thetas: seq<real>, edges: seq<Edge>, weighted: bool)
    requires EdgesWithin(edges, |thetas|)
    ensures Flows(sin, thetas, edges, weighted).Ok? <==> WeightsPresent(edges, weighted)
    ensures Flows(sin, thetas, edges, weighted).Raises? ==> Flows(sin, thetas, edges, weighted).error == KeyError
    ensures Flows(sin, thetas, edges, weighted).Ok? ==>
              Flows(sin, thetas, edges, weighted).value == S.ProjectFlows(sin, thetas, edges, weighted)
    decreases |edges|
  {
    if edges != [] {
      var init, e := edges[..|edges| - 1], edges[|edges| - 1];
      assert forall k :: 0 <= k < |init| ==> init[k] == edges[k];
      FlowsMatchProjection(sin, thetas, init, weighted);
      assert WeightsPresent(edges, weighted) <==> WeightsPresent(init, weighted) && (weighted ==> e.weight.Some?);
    }
  }

  // ---------------------------------------------------------------------
  // Winding numbers (`_omega`)
  // ---------------------------------------------------------------------

  /** Which weight `_omega` divides each flow by. The source reads the
      attribute literally named "weight" (`flownet[u][v]['weight']`); the
      evident intent is the factor the flows were scaled by. */
  datatype Divisor = AttributeNamedWeight | AsProjected(weighted: bool)

  /** The divisor for the pair (u, v), or None where looking it up raises
      KeyError: no edge joins u and v, or the edge lacks the attribute. */
  function EdgeDivisor(edges: seq<Edge>, rule: Divisor, u: nat, v: nat): Option<real>
  {
    match FindEdge(edges, u, v)
    case None => None
    case Some(k) =>
      match rule
      case AttributeNamedWeight => edges[k].weight
      case AsProjected(weighted) => Some(Weight(edges[k], weighted))
  }

  /** `math.asin`, which raises ValueError outside [-1, 1]. */
  function Asin(asin: real -> real, x: real): Raised<real>
  {
    if -1.0 <= x <= 1.0 then Ok(asin(x)) else Raises(ValueError)
  }

  /** `asin(f / w)`: dividing a float by zero raises ZeroDivisionError. */
  function ArcOf(asin: real -> real, f: real, w: real): Raised<real>
  {
    if w == 0.0 then Raises(ZeroDivisionError) else Asin(asin, f / w)
  }

  /** One pass of the inner loop of `_omega` for the pair (u, v): inside the
      `try`, the arc of the flow stored under (u, v); when that lookup or
      the divisor's raises KeyError, minus the arc of the flow stored under
      (v, u), where a second KeyError is not caught. Other exceptions
      propagate from either branch. */
  function PairTerm(flows: map<(nat, nat), real>, w: Option<real>, asin: real -> real, u: nat, v: nat): (r: Raised<real>)
    ensures w.None? ==> r == Raises(KeyError)
    ensures (u, v) !in flows && (v, u) !in flows ==> r == Raises(KeyError)
    ensures r.Raises? ==> r.error == KeyError || r.error == ValueError || r.error == ZeroDivisionError
    ensures w.Some? && w.value != 0.0 && (u, v) in flows && -1.0 <= flows[(u, v)] / w.value <= 1.0 ==>
              r == Ok(asin(flows[(u, v)] / w.value))
  {
    if (u, v) in flows && w.Some? then ArcOf(asin, flows[(u, v)], w.value)
    else if (v, u) !in flows || w.None? then Raises(KeyError)
    else match ArcOf(asin, flows[(v, u)], w.value)
      case Raises(err) => Raises(err)
      case Ok(t) => Ok(-t)
  }

  /** The node after cycle[j], the last node followed by the first:
      `cycle[(idx + 1) % nnodes]`. */
  function Succ(cycle: seq<nat>, j: nat): nat
    requires j < |cycle|
  {
    if j + 1 < |cycle| then cycle[j + 1] else cycle[0]
  }

  /** The pass of the inner loop for the pair (cycle[j], the node after it). */
  function PassTerm(flows: map<(nat, nat), real>, edges: seq<Edge>, rule: Divisor, asin: real -> real,
                    cycle: seq<nat>, j: nat): Raised<real>
    requires j < |cycle|
  {
    var u, v := cycle[j], Succ(cycle, j);
    PairTerm(flows, EdgeDivisor(edges, rule, u, v), asin, u, v)
  }

  /** The accumulator `omega` after the first k passes over the pairs
      (cycle[idx], cycle[(idx + 1) % nnodes]), or the first exception. */
  function CycleSum(flows: map<(nat, nat), real>, edges: seq<Edge>, rule: Divisor, asin: real -> real,
                    cycle: seq<nat>, k: nat): Raised<real>
    requires k <= |cycle|
  {
    if k == 0 then Ok(0.0)
    else
      match CycleSum(flows, edges, rule, asin, cycle, k - 1)
      case Raises(err) => Raises(err)
      case Ok(s) =>
        match PassTerm(flows, edges, rule, asin, cycle, k - 1)
        case Raises(err) => Raises(err)
        case Ok(t) => Ok(s + t)
  }

  /** `int(omega / pi / 2)`: the turns in an angle, truncated toward zero. */
  function Winding(omega: real): (w: int)
    ensures omega == 0.0 ==> w == 0
  {
    Trunc(omega / PI / 2.0)
  }

  /** One cycle's entry in the list `omegas`. */
  function CycleEntry(flows: map<(nat, nat), real>, edges: seq<Edge>, rule: Divisor, asin: real -> real,
                      cycle: seq<nat>): Raised<int>
  {
    match CycleSum(flows, edges, rule, asin, cycle, |cycle|)
    case Raises(err) => Raises(err)
    case Ok(s) => Ok(Winding(s))
  }

  /** The list `omegas` after the first c cycles, or the first exception. */
  function Omegas(flows: map<(nat, nat), real>, edges: seq<Edge>, rule: Divisor, asin: real -> real,
                  cycles: seq<seq<nat>>, c: nat): (r: Raised<seq<int>>)
    requires c <= |cycles|
    ensures r.Ok? ==> |r.value| == c
  {
    if c == 0 then Ok([])
    else
      match Omegas(flows, edges, rule, asin, cycles, c - 1)
      case Raises(err) => Raises(err)
      case Ok(prefix) =>
        match CycleEntry(flows, edges, rule, asin, cycles[c - 1])
        case Raises(err) => Raises(err)
        case Ok(w) => Ok(prefix + [w])
  }

  /** An exception in a pass ends the cycle's sum. */
  lemma {:induction false} CycleSumSticks(flows: map<(nat, nat), real>, edges: seq<Edge>, rule: Divisor,
                                          asin: real -> real, cycle: seq<nat>, k: nat, k': nat)
    requires k <= k' <= |cycle|
    requires CycleSum(flows, edges, rule, asin, cycle, k).Raises?
    ensures CycleSum(flows, edges, rule, asin, cycle, k') == CycleSum(flows, edges, rule, asin, cycle, k)
    decreases k' - k
  {
    if k < k' {
      CycleSumSticks(flows, edges, rule, asin, cycle, k, k' - 1);
    }
  }

  /** An exception in a cycle ends `_omega`. */
  lemma {:induction false} OmegasSticks(flows: map<(nat, nat), real>, edges: seq<Edge>, rule: Divisor,
                                        asin: real -> real, cycles: seq<seq<nat>>, c: nat, c': nat)
    requires c <= c' <= |cycles|
    requires Omegas(flows, edges, rule, asin, cycles, c).Raises?
    ensures Omegas(flows, edges, rule, asin, cycles, c') == Omegas(flows, edges, rule, asin, cycles, c)
    decreases c' - c
  {
    if c < c' {
      OmegasSticks(flows, edges, rule, asin, cycles, c, c' - 1);
    }
  }

  /** `_omega` succeeds exactly when every cycle's entry does, and then it
      holds one entry per cycle, in the order of the cycle basis. */
  lemma {:induction false} OmegasEntries(flows: map<(nat, nat), real>, edges: seq<Edge>, rule: Divisor,
                                         asin: real -> real, cycles: seq<seq<nat>>, c: nat)
    requires c <= |cycles|
    ensures Omegas(flows, edges, rule, asin, cycles, c).Ok? <==>
              forall i :: 0 <= i < c ==> CycleEntry(flows, edges, rule, asin, cycles[i]).Ok?
    ensures Omegas(flows, edges, rule, asin, cycles, c).Ok? ==>
              var ws := Omegas(flows, edges, rule, asin, cycles, c).value;
              |ws| == c && forall i :: 0 <= i < c ==> ws[i] == CycleEntry(flows, edges, rule, asin, cycles[i]).value
  {
    if c > 0 {
      OmegasEntries(flows, edges, rule, asin, cycles, c - 1);
    }
  }

  /** The inner loop of `_omega` over one cycle: accumulate the arc of
      every pair of consecutive nodes, the last node paired with the first;
      an exception in a pass ends the loop. */
  method CycleTotal(flows: map<(nat, nat), real>, edges: seq<Edge>, rule: Divisor, asin: real -> real,
                    cycle: seq<nat>) returns (r: Raised<real>)
    ensures r == CycleSum(flows, edges, rule, asin, cycle, |cycle|)
  {
    var nnodes := |cycle|;
    var omega: real := 0.0;
    for idx := 0 to nnodes
      invariant CycleSum(flows, edges, rule, asin, cycle, idx) == Ok(omega)
    {
      var term := PassTerm(flows, edges, rule, asin, cycle, idx);
      if term.Raises? {
        CycleSumSticks(flows, edges, rule, asin, cycle, idx + 1, nnodes);
        return Raises(term.error);
      }
      omega := omega + term.value;
    }
    return Ok(omega);
  }

  /** `_omega(flownet, flows)`: for each basis cycle, append the truncated
      number of turns in its accumulated arcs; any exception a pass raises
      leaves the function. */
  method Omega(flows: map<(nat, nat), real>, edges: seq<Edge>, rule: Divisor, asin: real -> real,
               cycles: seq<seq<nat>>) returns (r: Raised<seq<int>>)
    ensures r == Omegas(flows, edges, rule, asin, cycles, |cycles|)
    ensures r.Ok? ==> |r.value| == |cycles|
  {
    OmegasEntries(flows, edges, rule, asin, cycles, |cycles|);
    var omegas: seq<int> := [];
    for c := 0 to |cycles|
      invariant Omegas(flows, edges, rule, asin, cycles, c) == Ok(omegas)
    {
      var total := CycleTotal(flows, edges, rule, asin, cycles[c]);
      if total.Raises? {
        OmegasSticks(flows, edges, rule, asin, cycles, c + 1, |cycles|);
        return Raises(total.error);
      }
      omegas := omegas + [Winding(total.value)];
    }
    return Ok(omegas);
  }

  /** On a network without "weight" attributes, the divisor `_omega` reads
      is missing for every pair, so the first pair of a non-empty cycle
      raises KeyError and so does `_omega`, whatever the flows. */
  lemma UnweightedOmegaRaises(flows: map<(nat, nat), real>, edges: seq<Edge>, asin: real -> real, cycles: seq<seq<nat>>)
    requires forall k :: 0 <= k < |edges| ==> edges[k].weight.None?
    requires |cycles| > 0 && |cycles[0]| > 0
    ensures Omegas(flows, edges, AttributeNamedWeight, asin, cycles, |cycles|) == Raises(KeyError)
  {
    var cycle := cycles[0];
    var u, v := cycle[0], Succ(cycle, 0);
    assert EdgeDivisor(edges, AttributeNamedWeight, u, v).None?;
    assert PassTerm(flows, edges, AttributeNamedWeight, asin, cycle, 0) == Raises(KeyError);
    assert CycleSum(flows, edges, AttributeNamedWeight, asin, cycle, 1) == Raises(KeyError);
    CycleSumSticks(flows, edges, AttributeNamedWeight, asin, cycle, 1, |cycle|);
    assert Omegas(flows, edges, AttributeNamedWeight, asin, cycles, 1) == Raises(KeyError);
    OmegasSticks(flows, edges, AttributeNamedWeight, asin, cycles, 1, |cycles|);
  }

  /** asin undoes sin on [-π/2, π/2]. */
  ghost predicate InvertsNearZero(sin: real -> real, asin: real -> real)
  {
    forall x :: -PI / 2.0 <= x <= PI / 2.0 ==> asin(sin(x)) == x
  }

  /** sin takes values in [-1, 1]. */
  ghost predicate Bounded(sin: real -> real)
  {
    forall x :: -1.0 <= sin(x) <= 1.0
  }

  /** An odd function applied to -x. */
  lemma OddNegate(f: real -> real, x: real)
    requires S.Odd(f)
    ensures f(-x) == -f(x)
  {
    assert -x + x == 0.0;
  }

  /** Every node of the cycle is one of the first n nodes. */
  ghost predicate NodesWithin(cycle: seq<nat>, n: nat)
  {
    forall i :: 0 <= i < |cycle| ==> cycle[i] < n
  }

  /** The arc of the pair (cycle[j], cycle[j + 1]) read off the phases:
      `asin(sin(θu - θv))`. */
  function Arc(sin: real -> real, asin: real -> real, thetas: seq<real>, cycle: seq<nat>, j: nat): real
    requires j < |cycle| && NodesWithin(cycle, |thetas|)
  {
    asin(sin(thetas[cycle[j]] - thetas[Succ(cycle, j)]))
  }

  /** The first k arcs of a cycle, added up in order. */
  function ArcSum(sin: real -> real, asin: real -> real, thetas: seq<real>, cycle: seq<nat>, k: nat): real
    requires k <= |cycle| && NodesWithin(cycle, |thetas|)
  {
    if k == 0 then 0.0 else ArcSum(sin, asin, thetas, cycle, k - 1) + Arc(sin, asin, thetas, cycle, k - 1)
  }

  /** The conditions under which the flows of `fixed_point` can be read back
      by `_omega`: a simple network whose edges carry the scaling attribute
      when there is one, all scale factors non-zero, and sin, asin odd with
      sin bounded by 1. */
  ghost predicate Readable(sin: real -> real, asin: real -> real, thetas: seq<real>, edges: seq<Edge>, weighted: bool)
  {
    EdgesWithin(edges, |thetas|) && Simple(edges) && WeightsPresent(edges, weighted) &&
    (forall k :: 0 <= k < |edges| ==> Weight(edges[k], weighted) != 0.0) &&
    Bounded(sin) && S.Odd(sin) && S.Odd(asin)
  }

  /** A flow map that holds every edge's flow under the edge's own key and
      never both directions of a pair of distinct nodes. */
  ghost predicate StoresEdgeFlows(m: map<(nat, nat), real>, sin: real -> real, thetas: seq<real>,
                                  edges: seq<Edge>, weighted: bool)
    requires EdgesWithin(edges, |thetas|)
  {
    (forall k :: 0 <= k < |edges| ==>
       Key(edges[k]) in m && m[Key(edges[k])] == S.EdgeFlow(sin, thetas, edges[k], weighted)) &&
    FlowTools.OneDirection(m)
  }

  /** The flows of a simple network are stored that way. */
  lemma ProjectionStoresEdgeFlows(sin: real -> real, thetas: seq<real>, edges: seq<Edge>, weighted: bool)
    requires EdgesWithin(edges, |thetas|) && Simple(edges)
    ensures StoresEdgeFlows(S.ProjectFlows(sin, thetas, edges, weighted), sin, thetas, edges, weighted)
  {
    forall k | 0 <= k < |edges|
      ensures Key(edges[k]) in S.ProjectFlows(sin, thetas, edges, weighted)
      ensures S.ProjectFlows(sin, thetas, edges, weighted)[Key(edges[k])] == S.EdgeFlow(sin, thetas, edges[k], weighted)
    {
      S.SimpleEdgeFlow(sin, thetas, edges, weighted, k);
    }
    S.SimpleFlowsOneDirection(sin, thetas, edges, weighted);
  }

  /** What reading one edge's flow back needs: a non-zero scale factor, a
      sine within [-1, 1], and sin and asin odd at the edge's difference. */
  ghost predicate EdgeReadable(sin: real -> real, asin: real -> real, thetas: seq<real>, e: Edge, weighted: bool)
    requires e.u < |thetas| && e.v < |thetas|
  {
    var x := sin(thetas[e.u] - thetas[e.v]);
    Weight(e, weighted) != 0.0 && -1.0 <= x <= 1.0 &&
    sin(thetas[e.v] - thetas[e.u]) == -x && asin(-x) == -asin(x)
  }

  /** `EdgeReadable` at every edge. */
  ghost predicate EdgesReadable(sin: real -> real, asin: real -> real, thetas: seq<real>, edges: seq<Edge>, weighted: bool)
    requires EdgesWithin(edges, |thetas|)
  {
    forall k :: 0 <= k < |edges| ==> EdgeReadable(sin, asin, thetas, edges[k], weighted)
  }

  /** The global conditions give the pointwise ones. */
  lemma ReadableAtEdges(sin: real -> real, asin: real -> real, thetas: seq<real>, edges: seq<Edge>, weighted: bool)
    requires Readable(sin, asin, thetas, edges, weighted)
    ensures EdgesReadable(sin, asin, thetas, edges, weighted)
  {
    forall k | 0 <= k < |edges|
      ensures EdgeReadable(sin, asin, thetas, edges[k], weighted)
    {
      var e := edges[k];
      S.OddAt(sin, thetas[e.u], thetas[e.v]);
      OddNegate(asin, sin(thetas[e.u] - thetas[e.v]));
    }
  }

  /** Whichever orientation the network lists the edge joining u and v in,
      the pass for (u, v) over such flows, divided by the weight they were
      scaled by, is `asin(sin(θu - θv))`. */
  lemma OrientedTerm(m: map<(nat, nat), real>, sin: real -> real, asin: real -> real, thetas: seq<real>,
                     edges: seq<Edge>, weighted: bool, u: nat, v: nat)
    requires EdgesWithin(edges, |thetas|) && EdgesReadable(sin, asin, thetas, edges, weighted)
    requires StoresEdgeFlows(m, sin, thetas, edges, weighted)
    requires FindEdge(edges, u, v).Some? && u < |thetas| && v < |thetas|
    ensures PairTerm(m, EdgeDivisor(edges, AsProjected(weighted), u, v), asin, u, v)
            == Ok(asin(sin(thetas[u] - thetas[v])))
  {
    var k := FindEdge(edges, u, v).value;
    var e := edges[k];
    assert EdgeReadable(sin, asin, thetas, e, weighted);
    assert EdgeDivisor(edges, AsProjected(weighted), u, v) == Some(Weight(e, weighted));
    assert Key(e) in m && m[Key(e)] == S.EdgeFlow(sin, thetas, e, weighted);
    assert e.u != e.v ==> FlowTools.Reverse(Key(e)) !in m;
    EdgeTerm(m, sin, asin, thetas, e, weighted, u, v);
  }

  /** The pass for (u, v) over one edge joining them, either way round. */
  lemma EdgeTerm(m: map<(nat, nat), real>, sin: real -> real, asin: real -> real, thetas: seq<real>,
                 e: Edge, weighted: bool, u: nat, v: nat)
    requires e.u < |thetas| && e.v < |thetas| && Joins(e, u, v)
    requires EdgeReadable(sin, asin, thetas, e, weighted)
    requires Key(e) in m && m[Key(e)] == S.EdgeFlow(sin, thetas, e, weighted)
    requires e.u != e.v ==> (e.v, e.u) !in m
    ensures PairTerm(m, Some(Weight(e, weighted)), asin, u, v) == Ok(asin(sin(thetas[u] - thetas[v])))
  {
    var x := sin(thetas[e.u] - thetas[e.v]);
    if e.u == u && e.v == v {
      StoredTerm(m, sin, thetas, e, weighted, asin);
    } else {
      assert e.v == u && e.u == v;
      ReversedTerm(m, sin, thetas, e, weighted, asin);
      assert sin(thetas[u] - thetas[v]) == -x;
      assert asin(-x) == -asin(x);
    }
  }

  /** The pass for an edge read the way round it is stored. */
  lemma StoredTerm(m: map<(nat, nat), real>, sin: real -> real, thetas: seq<real>, e: Edge, weighted: bool,
                   asin: real -> real)
    requires e.u < |thetas| && e.v < |thetas|
    requires Key(e) in m && m[Key(e)] == S.EdgeFlow(sin, thetas, e, weighted)
    requires Weight(e, weighted) != 0.0 && -1.0 <= sin(thetas[e.u] - thetas[e.v]) <= 1.0
    ensures PairTerm(m, Some(Weight(e, weighted)), asin, e.u, e.v) == Ok(asin(sin(thetas[e.u] - thetas[e.v])))
  {
    var x, w := sin(thetas[e.u] - thetas[e.v]), Weight(e, weighted);
    CancelFactor(x, w);
    assert m[(e.u, e.v)] / w == x;
    assert ArcOf(asin, m[(e.u, e.v)], w) == Ok(asin(x));
  }

  /** The pass for an edge read the other way round: the KeyError of the
      first lookup sends it to the `except` branch. */
  lemma ReversedTerm(m: map<(nat, nat), real>, sin: real -> real, thetas: seq<real>, e: Edge, weighted: bool,
                     asin: real -> real)
    requires e.u < |thetas| && e.v < |thetas|
    requires Key(e) in m && m[Key(e)] == S.EdgeFlow(sin, thetas, e, weighted) && (e.v, e.u) !in m
    requires Weight(e, weighted) != 0.0 && -1.0 <= sin(thetas[e.u] - thetas[e.v]) <= 1.0
    ensures PairTerm(m, Some(Weight(e, weighted)), asin, e.v, e.u) == Ok(-asin(sin(thetas[e.u] - thetas[e.v])))
  {
    var x, w := sin(thetas[e.u] - thetas[e.v]), Weight(e, weighted);
    CancelFactor(x, w);
    assert m[(e.u, e.v)] / w == x;
    assert ArcOf(asin, m[(e.u, e.v)], w) == Ok(asin(x));
  }

  /** Every pair of consecutive nodes of the cycle is joined by an edge, as
      in a cycle of `nx.cycle_basis`. */
  ghost predicate AlongEdges(edges: seq<Edge>, cycle: seq<nat>)
  {
    forall j {:trigger Succ(cycle, j)} :: 0 <= j < |cycle| ==> FindEdge(edges, cycle[j], Succ(cycle, j)).Some?
  }

  /** When every pass of a cycle yields its arc, the accumulator is the sum
      of the arcs. */
  lemma {:induction false} CycleSumOfArcs(m: map<(nat, nat), real>, sin: real -> real, asin: real -> real,
                                          thetas: seq<real>, edges: seq<Edge>, rule: Divisor, cycle: seq<nat>, k: nat)
    requires k <= |cycle| && NodesWithin(cycle, |thetas|)
    requires forall j :: 0 <= j < |cycle| ==> PassTerm(m, edges, rule, asin, cycle, j) == Ok(Arc(sin, asin, thetas, cycle, j))
    ensures CycleSum(m, edges, rule, asin, cycle, k) == Ok(ArcSum(sin, asin, thetas, cycle, k))
  {
    if k > 0 {
      CycleSumOfArcs(m, sin, asin, thetas, edges, rule, cycle, k - 1);
    }
  }

  /** Over flows stored that way, every pass of a cycle along the edges
      yields its arc `asin(sin(θu - θv))`, by `OrientedTerm`. */
  lemma PassesYieldArcs(m: map<(nat, nat), real>, sin: real -> real, asin: real -> real,
                        thetas: seq<real>, edges: seq<Edge>, weighted: bool, cycle: seq<nat>)
    requires EdgesWithin(edges, |thetas|) && EdgesReadable(sin, asin, thetas, edges, weighted)
    requires StoresEdgeFlows(m, sin, thetas, edges, weighted)
    requires AlongEdges(edges, cycle) && NodesWithin(cycle, |thetas|)
    ensures forall j :: 0 <= j < |cycle| ==>
              PassTerm(m, edges, AsProjected(weighted), asin, cycle, j) == Ok(Arc(sin, asin, thetas, cycle, j))
  {
    forall j | 0 <= j < |cycle|
      ensures PassTerm(m, edges, AsProjected(weighted), asin, cycle, j) == Ok(Arc(sin, asin, thetas, cycle, j))
    {
      var u, v := cycle[j], Succ(cycle, j);
      assert FindEdge(edges, u, v).Some?;
      OrientedTerm(m, sin, asin, thetas, edges, weighted, u, v);
      assert PassTerm(m, edges, AsProjected(weighted), asin, cycle, j) == PairTerm(m, EdgeDivisor(edges, AsProjected(weighted), u, v), asin, u, v);
      assert Arc(sin, asin, thetas, cycle, j) == asin(sin(thetas[u] - thetas[v]));
    }
  }

  /** Over flows stored that way, `_omega` (divisor as projected) never
      raises and gives the truncated turns of each cycle's arcs. */
  lemma OmegasOverStoredFlows(m: map<(nat, nat), real>, sin: real -> real, asin: real -> real, thetas: seq<real>,
                              edges: seq<Edge>, weighted: bool, cycles: seq<seq<nat>>)
    requires EdgesWithin(edges, |thetas|) && EdgesReadable(sin, asin, thetas, edges, weighted)
    requires StoresEdgeFlows(m, sin, thetas, edges, weighted)
    requires forall c :: 0 <= c < |cycles| ==> AlongEdges(edges, cycles[c])
    requires forall c :: 0 <= c < |cycles| ==> NodesWithin(cycles[c], |thetas|)
    ensures var r := Omegas(m, edges, AsProjected(weighted), asin, cycles, |cycles|);
            r.Ok? && |r.value| == |cycles| &&
            forall c :: 0 <= c < |cycles| ==>
              r.value[c] == Winding(ArcSum(sin, asin, thetas, cycles[c], |cycles[c]|))
  {
    forall c | 0 <= c < |cycles|
      ensures CycleEntry(m, edges, AsProjected(weighted), asin, cycles[c]) ==
              Ok(Winding(ArcSum(sin, asin, thetas, cycles[c], |cycles[c]|)))
    {
      PassesYieldArcs(m, sin, asin, thetas, edges, weighted, cycles[c]);
      CycleSumOfArcs(m, sin, asin, thetas, edges, AsProjected(weighted), cycles[c], |cycles[c]|);
    }
    OmegasEntries(m, edges, AsProjected(weighted), asin, cycles, |cycles|);
  }

  /** The corrected `_omega` over the flows of `fixed_point` never raises
      and gives, for each cycle, the truncated number of turns in the sum of
      its arcs, whichever way its edges are listed. */
  lemma {:induction false} CorrectedOmegaSumsArcs(sin: real -> real, asin: real -> real, thetas: seq<real>,
                                                  edges: seq<Edge>, weighted: bool, cycles: seq<seq<nat>>)
    requires Readable(sin, asin, thetas, edges, weighted)
    requires forall c :: 0 <= c < |cycles| ==> AlongEdges(edges, cycles[c])
    requires forall c :: 0 <= c < |cycles| ==> NodesWithin(cycles[c], |thetas|)
    ensures var r := Omegas(S.ProjectFlows(sin, thetas, edges, weighted), edges, AsProjected(weighted), asin, cycles, |cycles|);
            r.Ok? && |r.value| == |cycles| &&
            forall c :: 0 <= c < |cycles| ==>
              r.value[c] == Winding(ArcSum(sin, asin, thetas, cycles[c], |cycles[c]|))
  {
    ReadableAtEdges(sin, asin, thetas, edges, weighted);
    ProjectionStoresEdgeFlows(sin, thetas, edges, weighted);
    OmegasOverStoredFlows(S.ProjectFlows(sin, thetas, edges, weighted), sin, asin, thetas, edges, weighted, cycles);
  }

  /** When every edge carries the `weight` attribute, the divisor the
      source reads for a pair is the weight the flows were scaled by. */
  lemma DivisorsAgreeWhenWeighted(edges: seq<Edge>, u: nat, v: nat)
    requires WeightsPresent(edges, true)
    ensures EdgeDivisor(edges, AttributeNamedWeight, u, v) == EdgeDivisor(edges, AsProjected(true), u, v)
  {
  }

  /** With every edge weighted, the two divisors give the same sum for
      every prefix of a cycle. */
  lemma {:induction false} CycleSumsAgreeWhenWeighted(flows: map<(nat, nat), real>, edges: seq<Edge>,
                                                      asin: real -> real, cycle: seq<nat>, k: nat)
    requires WeightsPresent(edges, true) && k <= |cycle|
    ensures CycleSum(flows, edges, AttributeNamedWeight, asin, cycle, k) ==
            CycleSum(flows, edges, AsProjected(true), asin, cycle, k)
  {
    if k > 0 {
      CycleSumsAgreeWhenWeighted(flows, edges, asin, cycle, k - 1);
      DivisorsAgreeWhenWeighted(edges, cycle[k - 1], Succ(cycle, k - 1));
    }
  }

  /** With every edge weighted, `_omega` as written, dividing by the
      `weight` attribute, is `_omega` dividing by the weights of the flows:
      same entries, same exceptions. */
  lemma {:induction false} OmegasAgreeWhenWeighted(flows: map<(nat, nat), real>, edges: seq<Edge>,
                                                   asin: real -> real, cycles: seq<seq<nat>>, c: nat)
    requires WeightsPresent(edges, true) && c <= |cycles|
    ensures Omegas(flows, edges, AttributeNamedWeight, asin, cycles, c) ==
            Omegas(flows, edges, AsProjected(true), asin, cycles, c)
  {
    if c > 0 {
      OmegasAgreeWhenWeighted(flows, edges, asin, cycles, c - 1);
      CycleSumsAgreeWhenWeighted(flows, edges, asin, cycles[c - 1], |cycles[c - 1]|);
    }
  }

  /** `_omega` as written, over the flows of `fixed_point` on a network
      whose edges all carry the `weight` attribute it reads: nothing raises,
      and each cycle's entry is the truncated number of turns in the sum of
      its arcs `asin(sin(θu - θv))`, the winding number of the docstring. */
  lemma WeightedOmegaSumsArcs(sin: real -> real, asin: real -> real, thetas: seq<real>,
                              edges: seq<Edge>, cycles: seq<seq<nat>>)
    requires Readable(sin, asin, thetas, edges, true)
    requires forall c :: 0 <= c < |cycles| ==> AlongEdges(edges, cycles[c])
    requires forall c :: 0 <= c < |cycles| ==> NodesWithin(cycles[c], |thetas|)
    ensures var r := Omegas(S.ProjectFlows(sin, thetas, edges, true), edges, AttributeNamedWeight, asin, cycles, |cycles|);
            r.Ok? && |r.value| == |cycles| &&
            forall c :: 0 <= c < |cycles| ==>
              r.value[c] == Winding(ArcSum(sin, asin, thetas, cycles[c], |cycles[c]|))
  {
    CorrectedOmegaSumsArcs(sin, asin, thetas, edges, true, cycles);
    OmegasAgreeWhenWeighted(S.ProjectFlows(sin, thetas, edges, true), edges, asin, cycles, |cycles|);
  }

  /** Every phase difference along the cycle lies in [-π/2, π/2]. */
  ghost predicate StableAlong(thetas: seq<real>, cycle: seq<nat>)
    requires NodesWithin(cycle, |thetas|)
  {
    forall j {:trigger Succ(cycle, j)} :: 0 <= j < |cycle| ==>
      -PI / 2.0 <= thetas[cycle[j]] - thetas[Succ(cycle, j)] <= PI / 2.0
  }

  /** Around a cycle whose phase differences all lie in [-π/2, π/2], the
      arcs are the raw differences, which telescope. */
  lemma {:induction false} ArcSumTelescopes(sin: real -> real, asin: real -> real, thetas: seq<real>,
                                            cycle: seq<nat>, k: nat)
    requires 0 < |cycle| && k <= |cycle| && NodesWithin(cycle, |thetas|)
    requires InvertsNearZero(sin, asin)
    requires StableAlong(thetas, cycle)
    ensures ArcSum(sin, asin, thetas, cycle, k) == thetas[cycle[0]] - thetas[if k < |cycle| then cycle[k] else cycle[0]]
  {
    if k > 0 {
      ArcSumTelescopes(sin, asin, thetas, cycle, k - 1);
      var x := thetas[cycle[k - 1]] - thetas[Succ(cycle, k - 1)];
      assert -PI / 2.0 <= x <= PI / 2.0;
      assert asin(sin(x)) == x;
    }
  }

  /** A stable operating point, every phase difference along the cycles
      within [-π/2, π/2], has winding number 0 in every cycle. */
  lemma StableCyclesDoNotWind(sin: real -> real, asin: real -> real, thetas: seq<real>,
                              edges: seq<Edge>, weighted: bool, cycles: seq<seq<nat>>)
    requires Readable(sin, asin, thetas, edges, weighted) && InvertsNearZero(sin, asin)
    requires forall c :: 0 <= c < |cycles| ==> AlongEdges(edges, cycles[c])
    requires forall c :: 0 <= c < |cycles| ==> NodesWithin(cycles[c], |thetas|)
    requires forall c :: 0 <= c < |cycles| ==> StableAlong(thetas, cycles[c])
    ensures var r := Omegas(S.ProjectFlows(sin, thetas, edges, weighted), edges, AsProjected(weighted), asin, cycles, |cycles|);
            r.Ok? && |r.value| == |cycles| && forall c :: 0 <= c < |cycles| ==> r.value[c] == 0
  {
    CorrectedOmegaSumsArcs(sin, asin, thetas, edges, weighted, cycles);
    forall c | 0 <= c < |cycles|
      ensures ArcSum(sin, asin, thetas, cycles[c], |cycles[c]|) == 0.0
    {
      if |cycles[c]| > 0 {
        ArcSumTelescopes(sin, asin, thetas, cycles[c], |cycles[c]|);
      }
    }
  }

  // ---------------------------------------------------------------------
  // Search for a fixed point (`_try_find_fps`)
  // ---------------------------------------------------------------------

  /** The default integration time and number of random guesses. */
  const TMAX: real := 500.0
  const NTRY: int := 10

  /** The guesses `random_stableop_initguess(size)` builds from the
      increment draws, one per try. */
  function Guesses(size: nat, draws: seq<seq<real>>): (gs: seq<seq<real>>)
    requires size >= 2 && forall i :: 0 <= i < |draws| ==> |draws[i]| + 2 == size
    ensures |gs| == |draws|
    ensures forall i :: 0 <= i < |draws| ==> gs[i] == InitGuess(size, draws[i]).value && |gs[i]| == size
  {
    seq(|draws|, i requires 0 <= i < |draws| => InitGuess(size, draws[i]).value)
  }

  /** The outcome of `_try_find_fps` on a network of `size` nodes once its
      shape assertion holds: a supplied guess is the only one tried, and one
      of another size raises ValueError in the matrix product of
      `_kuramoto_ode`; otherwise each of the Tries(ntry) tries first draws a
      guess, which raises ValueError on a network of fewer than two nodes,
      and the first guess whose trajectory settles wins. */
  function SearchOutcome(ntry: int, size: nat, step: (seq<real>, real, real) -> seq<real>, t: seq<real>,
                         initguess: Option<seq<real>>, draws: seq<seq<real>>): Raised<S.Search>
    requires |t| >= 1 && S.SizePreserving(step)
    requires forall i :: 0 <= i < |draws| ==> |draws[i]| + 2 == size
    requires initguess.None? && size >= 2 ==> S.Tries(ntry) <= |draws|
  {
    if initguess.Some? then
      if |initguess.value| != size then Raises(ValueError)
      else Ok(S.SearchOutcome(ntry, step, t, initguess, []))
    else if size < 2 then (if S.Tries(ntry) > 0 then Raises(ValueError) else Ok(S.Search(None, None)))
    else Ok(S.SearchOutcome(ntry, step, t, None, Guesses(size, draws)))
  }

  /** `_try_find_fps(ntry, M, Mw, P, tmax, tol, initguess)`: assert that the
      incidence matrix has one row per entry of P, then integrate over
      `np.arange(0, tmax, tmax / 1000)` from the supplied guess, or from up
      to `ntry` fresh random guesses, and stop at the first trajectory that
      converges. The tries run as in the newer `_try_find_fps`, on the
      guesses `random_stableop_initguess` builds from the draws. */
  method TryFindFps(ntry: int, M: seq<seq<real>>, P: seq<real>, step: (seq<real>, real, real) -> seq<real>,
                    tmax: real, initguess: Option<seq<real>>, draws: seq<seq<real>>) returns (r: Raised<S.Search>)
    requires tmax > 0.0 && S.SizePreserving(step)
    requires forall i :: 0 <= i < |draws| ==> |draws[i]| + 2 == |P|
    requires initguess.None? && |P| >= 2 ==> S.Tries(ntry) <= |draws|
    ensures |M| != |P| ==> r == Raises(AssertionError)
    ensures |M| == |P| ==> r == SearchOutcome(ntry, |P|, step, S.TimeGrid(tmax), initguess, draws)
  {
    if |M| != |P| {
      return Raises(AssertionError);
    }
    var size := |P|;
    if initguess.Some? {
      if |initguess.value| != size {
        return Raises(ValueError);
      }
      var found := S.SearchGuesses(ntry, step, tmax, initguess, []);
      return Ok(found);
    }
    if size < 2 {
      if S.Tries(ntry) > 0 {
        return Raises(ValueError);
      }
      return Ok(S.Search(None, None));
    }
    var found := S.SearchGuesses(ntry, step, tmax, None, Guesses(size, draws));
    return Ok(found);
  }

  /** A fixed point the legacy search reports has one phase per node. */
  lemma SearchFixedPointSize(ntry: int, size: nat, step: (seq<real>, real, real) -> seq<real>, t: seq<real>,
                             initguess: Option<seq<real>>, draws: seq<seq<real>>)
    requires |t| >= 1 && S.SizePreserving(step)
    requires forall i :: 0 <= i < |draws| ==> |draws[i]| + 2 == size
    requires initguess.None? && size >= 2 ==> S.Tries(ntry) <= |draws|
    ensures var r := SearchOutcome(ntry, size, step, t, initguess, draws);
            r.Ok? && r.value.fixedPoint.Some? ==> |r.value.fixedPoint.value| == size
  {
    if initguess.Some? && |initguess.value| == size {
      S.FixedPointSize(ntry, step, t, initguess, [], size);
    } else if initguess.None? && size >= 2 {
      S.FixedPointSize(ntry, step, t, None, Guesses(size, draws), size);
    }
  }

  /** The legacy search raises only for a supplied guess of the wrong size
      or for want of random guesses on a network of fewer than two nodes;
      otherwise it is the search of the newer module over the guesses it
      draws. */
  lemma SearchRaisesOnlyForBadSizes(ntry: int, size: nat, step: (seq<real>, real, real) -> seq<real>, t: seq<real>,
                                        initguess: Option<seq<real>>, draws: seq<seq<real>>)
    requires |t| >= 1 && S.SizePreserving(step)
    requires forall i :: 0 <= i < |draws| ==> |draws[i]| + 2 == size
    requires initguess.None? && size >= 2 ==> S.Tries(ntry) <= |draws|
    ensures var r := SearchOutcome(ntry, size, step, t, initguess, draws);
            (r.Raises? <==>
               (initguess.Some? && |initguess.value| != size) || (initguess.None? && size < 2 && ntry > 0)) &&
            (r.Raises? ==> r.error == ValueError) &&
            (r.Ok? && r.value.fixedPoint.Some? ==>
               (r.value.guess.Some? &&
                S.Rectangular(S.Trajectory(step, r.value.guess.value, t), |r.value.guess.value|) &&
                S.HasConverged(S.Trajectory(step, r.value.guess.value, t), |r.value.guess.value|, 0)))
  {
    if initguess.Some? && |initguess.value| == size {
      S.SearchSound(ntry, step, t, initguess, []);
    } else if initguess.None? && size >= 2 {
      S.SearchSound(ntry, step, t, None, Guesses(size, draws));
    }
  }

  // ---------------------------------------------------------------------
  // The steady state (`fixed_point`)
  // ---------------------------------------------------------------------

  /** What `fixed_point` returns: no flows and the last guess; the flows
      alone, when `extra_output` is off; or the flows with the guess, the
      phases and the winding numbers. */
  datatype Outcome =
    | NoFixedPoint(initguess: Option<seq<real>>)
    | FlowsOnly(flows: map<(nat, nat), real>)
    | FlowsAndData(flows: map<(nat, nat), real>, initguess: Option<seq<real>>, thetas: seq<real>, omega: seq<int>)

  /** `fixed_point(flownet, initguess, extra_output)` on an n-node network
      with the given node inputs: search with NTRY guesses over TMAX (the
      incidence matrix has n rows, so the shape assertion holds); on success
      project the phases onto the edges and, when asked, compute the winding
      numbers of the cycle basis, dividing every flow by the edge's
      `weight` attribute as `_omega` does. */
  method FixedPoint(n: nat, edges: seq<Edge>, weighted: bool, inputs: seq<real>, sin: real -> real,
                    asin: real -> real, step: (seq<real>, real, real) -> seq<real>, cycles: seq<seq<nat>>,
                    initguess: Option<seq<real>>, extraOutput: bool, draws: seq<seq<real>>)
    returns (r: Raised<Outcome>)
    requires S.SizePreserving(step) && EdgesWithin(edges, n) && |inputs| == n
    requires forall i :: 0 <= i < |draws| ==> |draws[i]| + 2 == n
    requires initguess.None? && n >= 2 ==> NTRY <= |draws|
    ensures var s := SearchOutcome(NTRY, n, step, S.TimeGrid(TMAX), initguess, draws);
            (s.Raises? ==> r == Raises(ValueError)) &&
            (s.Ok? && s.value.fixedPoint.None? ==> r == Ok(NoFixedPoint(s.value.guess))) &&
            (s.Ok? && s.value.fixedPoint.Some? ==>
               var thetas := s.value.fixedPoint.value;
               |thetas| == n &&
               var fl := Flows(sin, thetas, edges, weighted);
               (fl.Raises? ==> r == Raises(KeyError)) &&
               (fl.Ok? && !extraOutput ==> r == Ok(FlowsOnly(fl.value))) &&
               (fl.Ok? && extraOutput ==>
                  var om := Omegas(fl.value, edges, AttributeNamedWeight, asin, cycles, |cycles|);
                  (om.Raises? ==> r == Raises(om.error)) &&
                  (om.Ok? ==> r == Ok(FlowsAndData(fl.value, s.value.guess, thetas, om.value)))))
  {
    var M := Incidence(n, edges, false);
    SearchRaisesOnlyForBadSizes(NTRY, n, step, S.TimeGrid(TMAX), initguess, draws);
    var search := TryFindFps(NTRY, M, inputs, step, TMAX, initguess, draws);
    if search.Raises? {
      return Raises(search.error);
    }
    if search.value.fixedPoint.None? {
      return Ok(NoFixedPoint(search.value.guess));
    }
    SearchFixedPointSize(NTRY, n, step, S.TimeGrid(TMAX), initguess, draws);
    var thetas := search.value.fixedPoint.value;
    var flows := Flows(sin, thetas, edges, weighted);
    FlowsMatchProjection(sin, thetas, edges, weighted);
    if flows.Raises? {
      return Raises(flows.error);
    }
    if !extraOutput {
      return Ok(FlowsOnly(flows.value));
    }
    var omega := Omega(flows.value, edges, AttributeNamedWeight, asin, cycles);
    if omega.Raises? {
      return Raises(omega.error);
    }
    return Ok(FlowsAndData(flows.value, search.value.guess, thetas, omega.value));
  }
}
