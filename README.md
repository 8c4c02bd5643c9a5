# Kuramoto steady flows of flownetpy, in Dafny

flownetpy computes steady flows on a network. Each node injects or withdraws
power, and each node is a phase oscillator. The Kuramoto model finds a fixed
point of the phases θ by integrating

    dθ/dt = P − M_w · sin(Mᵀ · θ)

from trial initial guesses until the trajectory settles. Here M is the oriented
incidence matrix, M_w is its weighted version and P holds the node inputs. From
the fixed point the edge flows are `sin(θ_u − θ_v)·w`. The winding number of
each cycle in a cycle basis counts how many whole turns the phase makes going
once around that cycle.

This project models two versions of the solver.

- The newer module, `flownetpy/flowmodel/kuramoto.py`, together with the
  antisymmetric flow dictionary of `flownetpy/flowmodel/tools.py`. It is
  modelled in the `Kuramoto` module (phase wrapping, winding numbers, the
  random initial guess) and the `KuramotoSolver` module (integrator buffer,
  convergence test, fixed-point search, right-hand side of the ODE, flow
  projection, `steady_flows`).
- The legacy module, `flowmodels/kuramoto.py`. It is modelled in
  `LegacyKuramoto`. This module shares the newer `odeint`, `_has_converged`
  and `_kuramoto_ode` models, because the code is the same.

The supporting modules are as follows.

- `Numerics` holds π as the double `np.pi` (taken as an exact real), whole
  turns, truncation toward zero and sums.
- `Network` describes a network: nodes are positions in the graph's node
  order, and each edge is an `(u, v, weight)` triple in networkx's edge order.
  It also builds the oriented incidence matrix.
- `FlowTools` models `FlowDict`. A lookup of a missing key (u, v) stores and
  returns minus the entry for (v, u).

The numerical integrator (scipy's `vode`) is the parameter `step`. `step(y,
t0, t1)` is the state that `r.integrate(t1)` reaches from state y at time t0.
The model only requires that `step` keeps the state's size. `sin` and `asin`
are parameters too, with the properties each lemma needs stated as
preconditions (odd, bounded, inverse on [−π/2, π/2]). Random draws are
supplied as sequences: one entry for each call to `np.random.uniform`.

Where the code and its description differ, the model follows the code.

- The newer `_random_stableop_initguess` accepts size 1 and fails only on
  size 0, not on every size below 2.
- The guess is rejected only when the wrapped closing step exceeds π/2. The
  proved bound is therefore `≤ π/2`, not `< π/2`.
- The default convergence window `len // 10` is 0 for fewer than 10 samples,
  and `ts[-0:]` is then the whole series.
- The legacy entry points keep the two defects listed under "## Findings":
  `LegacyKuramoto.TryFindFps` uses the `fmod` last angle, and
  `LegacyKuramoto.FixedPoint` divides by the `weight` attribute. The
  corrected generator and divisor are separate members, and their properties
  are proved.
- `np.allclose(var, 0)` tests the variances against the absolute tolerance
  1e-8. The `tol` argument of `_try_find_fps` is never used.

## Model

| member | source | states |
|---|---|---|
| Kuramoto.Remainder | flownetpy/flowmodel/kuramoto.py:183 | `np.remainder(x, 2π)` lies in [0, 2π) and differs from x by a whole number of turns |
| Kuramoto.ModPi | flownetpy/flowmodel/kuramoto.py:175-184 | `_mod_pi(x)` lies in (−π, π] and is x minus a whole number of turns |
| Kuramoto.ModPiUnique | flownetpy/flowmodel/kuramoto.py:175-184 | any angle in (−π, π] that is x plus whole turns is `_mod_pi(x)`: the result is the unique representative |
| Kuramoto.ModPiPeriodic | flownetpy/flowmodel/kuramoto.py:175-184 | adding whole turns to the angle does not change `_mod_pi` |
| Kuramoto.ModPiFixesRange | flownetpy/flowmodel/kuramoto.py:175-184 | angles already in (−π, π] are returned unchanged |
| Kuramoto.ModPiEvenMultiple | flownetpy/tests/flowmodel/test_kuramoto.py:24-27 | `_mod_pi(2mπ) == 0` for every integer m |
| Kuramoto.ModPiOddMultiple | flownetpy/tests/flowmodel/test_kuramoto.py:29-33 | `_mod_pi((2m+1)π) == π` for every integer m: the ambiguous boundary goes to +π |
| Kuramoto.ModPiNegate | flownetpy/flowmodel/kuramoto.py:175-184 | away from the boundary π, wrapping commutes with negation |
| Kuramoto.Roll | flownetpy/flowmodel/kuramoto.py:146 | `np.roll(a, 1)` keeps the length, puts the last entry first and shifts every other entry one place right |
| Kuramoto.WrappedDiffs | flownetpy/flowmodel/kuramoto.py:146 | entry j of the phase differences is `_mod_pi(a[j] − b[j])` |
| Kuramoto.SumWrappedDiffs | flownetpy/flowmodel/kuramoto.py:146-149 | the sum of the wrapped differences is the difference of the sums minus a whole number of turns |
| Kuramoto.SumRoll | flownetpy/flowmodel/kuramoto.py:146 | rolling does not change the sum |
| Kuramoto.CycleAngles | flownetpy/flowmodel/kuramoto.py:144-145 | the angles of a cycle are the phases of its nodes in traversal order |
| Kuramoto.CycleOmegaIsInteger | flownetpy/flowmodel/kuramoto.py:135-151 | the winding number `sum(_mod_pi(a − roll(a)))/π/2` of any closed cycle is an integer |
| Kuramoto.Omega | flownetpy/flowmodel/kuramoto.py:135-151 | `_omega` returns one value per cycle, and each value is the cycle's winding number, which is an integer |
| Kuramoto.RingPhaseSteps | flownetpy/tests/flowmodel/test_kuramoto.py:48-50 | equispaced ring phases `i·δ` step by δ, and the closing step is −(n−1)δ |
| Kuramoto.WrappedStep | flownetpy/flowmodel/kuramoto.py:146 | an inner step that already lies in (−π, π] is its own wrapped difference |
| Kuramoto.ClosingStep | flownetpy/flowmodel/kuramoto.py:146 | the wrapped difference at position 0 is the wrapped step from the last phase to the first |
| Kuramoto.EvenStepsSum | flownetpy/flowmodel/kuramoto.py:146-149 | with equal inner steps δ, the wrapped differences add up to (n−1)δ plus the wrapped closing step |
| Kuramoto.EvenStepsOmega | flownetpy/flowmodel/kuramoto.py:149 | the winding number of such phases is ((n−1)δ + `_mod_pi`(closing step))/2/π |
| Kuramoto.RingOmega | flownetpy/tests/flowmodel/test_kuramoto.py:42-52 | the winding number of an n-node ring with phases `i·δ` is `((n−1)δ + _mod_pi((1−n)δ))/2/π` |
| Kuramoto.Range | flownetpy/tests/flowmodel/test_kuramoto.py:50-51 | `np.arange(n)` lists 0, …, n − 1 in order |
| Kuramoto.RingCycleOmega | flownetpy/tests/flowmodel/test_kuramoto.py:50-52 | the cycle `np.arange(n)` picks the ring phases in order, so the entry `_omega` computes for it is the closed form |
| Kuramoto.CumSum | flownetpy/flowmodel/kuramoto.py:166 | `np.cumsum(d)[k]` is the sum of the first k+1 draws |
| Kuramoto.Anchored | flownetpy/flowmodel/kuramoto.py:166-167 | the guess has one more entry than the draws, and entry k is the sum of the first k draws (entry 0 is 0) |
| Kuramoto.AnchoredStep | flownetpy/flowmodel/kuramoto.py:166-167 | step k+1 of the guess is the k-th draw |
| Kuramoto.Passes | flownetpy/flowmodel/kuramoto.py:169 | entry j says whether the guess built from draw j passes the wrap-around test |
| Kuramoto.InitGuess | flownetpy/flowmodel/kuramoto.py:154-172 | size 0 is the invalid-size error and nothing else is; an accepted guess has `size` entries and starts at 0 |
| Kuramoto.InitGuessFirstPassing | flownetpy/flowmodel/kuramoto.py:166-172 | the resampling returns the guess built from the first draw that passes the test, or runs out of draws when none passes |
| Kuramoto.InnerStepSmooth | flownetpy/flowmodel/kuramoto.py:163-166 | every inner wrapped step of the guess is a draw, so it lies within [−π/2, π/2] |
| Kuramoto.WrapAroundStep | flownetpy/flowmodel/kuramoto.py:169-172 | a guess that passes the test has its closing wrapped step within [−π/2, π/2] |
| Kuramoto.AnchoredSmooth | flownetpy/flowmodel/kuramoto.py:160-161 | an accepted guess has every cyclic wrapped difference within [−π/2, π/2] |
| Kuramoto.InitGuessSmooth | flownetpy/tests/flowmodel/test_kuramoto.py:35-40 | every guess `_random_stableop_initguess` returns starts at 0, has `size` entries and has `abs(_mod_pi(arr − roll(arr))) ≤ π/2` everywhere |
| Network.FindEdge | flowmodels/kuramoto.py:93 | `flownet[u][v]` finds an edge that joins u and v in either direction, or reports that none does |
| Network.Incidence | flownetpy/flowmodel/kuramoto.py:84-85 | the oriented incidence matrix has one row per node and one column per edge; its entries are −w at the source, +w at the target and 0 elsewhere (a self-loop column is all 0) |
| KuramotoSolver.StateSize | flownetpy/flowmodel/kuramoto.py:116-118 | every integrated state has the size of the initial value |
| KuramotoSolver.Trajectory | flownetpy/flowmodel/kuramoto.py:106-119 | the trajectory has one state per time point, and state k comes from stepping state k−1 from t[k−1] to t[k] |
| KuramotoSolver.TrajectoryShape | flownetpy/flowmodel/kuramoto.py:113-114 | row 0 is x0, and every row has x0's length |
| KuramotoSolver.Odeint | flownetpy/flowmodel/kuramoto.py:106-119 | the result array is fresh, has `t.size × x0.size` entries, and row k holds the k-th integrated state |
| KuramotoSolver.Tail | flownetpy/flowmodel/kuramoto.py:103 | `ts[-w:]` is never longer than ts |
| KuramotoSolver.DefaultWindow | flownetpy/flowmodel/kuramoto.py:100-101 | the default window is the last `len//10` samples, or the whole series when that is 0; it is never empty for a non-empty series |
| KuramotoSolver.VarianceNonNegative | flownetpy/flowmodel/kuramoto.py:103 | `np.var` is never negative |
| KuramotoSolver.VarianceOfConstant | flownetpy/flowmodel/kuramoto.py:94-103 | a constant column has variance 0 |
| KuramotoSolver.DeviationBound | flownetpy/flowmodel/kuramoto.py:103 | each squared deviation divided by n is at most the variance |
| KuramotoSolver.EmptyNotConverged | flownetpy/flowmodel/kuramoto.py:94-103 | an empty series never counts as converged |
| KuramotoSolver.HasConverged | flownetpy/flowmodel/kuramoto.py:94-103 | `_has_converged` holds only for a non-empty series when the states have columns: the variance of an empty window is NaN, which `np.allclose` rejects |
| KuramotoSolver.SettledConverges | flownetpy/flowmodel/kuramoto.py:94-103 | a series that stays at its final state over the default window has converged |
| KuramotoSolver.ConvergedWindowIsTight | flownetpy/flowmodel/kuramoto.py:103 | after convergence, every sample in the window is within the tolerance of the column mean, as measured by its squared deviation over n |
| KuramotoSolver.TimeGrid | flownetpy/flowmodel/kuramoto.py:62-65 | `np.arange(0, tmax, tmax/1000)` has 1000 points and starts at 0 |
| KuramotoSolver.Settles | flownetpy/flowmodel/kuramoto.py:73-74 | entry k says whether the attempt from guess k converges |
| KuramotoSolver.AttemptSound | flownetpy/flowmodel/kuramoto.py:65-67 | an attempt succeeds exactly when the trajectory converges, and it then yields the last state `sol[-1]` |
| KuramotoSolver.Settle | flownetpy/flowmodel/kuramoto.py:73-75 | integrating from one guess and testing convergence computes the attempt |
| KuramotoSolver.SearchGuesses | flownetpy/flowmodel/kuramoto.py:44-77 | over guesses already drawn, the search tries only the supplied guess when there is one; otherwise it tries the first `ntry` guesses in order and stops at the first that converges |
| KuramotoSolver.RandomSearchPicksFirst | flownetpy/flowmodel/kuramoto.py:71-77 | the random search finds a fixed point exactly when some guess converges, and it then returns the first converging guess and its final state |
| KuramotoSolver.SuppliedGuessOnly | flownetpy/flowmodel/kuramoto.py:64-69 | with a supplied guess, `ntry` and the random draws have no effect, and the supplied guess is returned |
| KuramotoSolver.SearchSound | flownetpy/flowmodel/kuramoto.py:44-77 | any fixed point returned is the last state of a converged trajectory from the returned guess |
| KuramotoSolver.FirstSettlingGuessWins | flownetpy/flowmodel/kuramoto.py:71-75 | if guess k is the first that converges, the search returns it and its final state |
| KuramotoSolver.FailedSearchTriedAll | flownetpy/flowmodel/kuramoto.py:71-77 | a failed search means none of the `ntry` guesses converged, and it returns the last guess tried (None when ntry ≤ 0) |
| KuramotoSolver.FixedPointSize | flownetpy/flowmodel/kuramoto.py:67 | a fixed point has the size of the guesses |
| KuramotoSolver.SampleAt | flownetpy/flowmodel/kuramoto.py:72 | the guess of one try is `_random_stableop_initguess(n)` on that try's draws: refused exactly when n is 0, and otherwise of size n and starting at 0 |
| KuramotoSolver.Samples | flownetpy/flowmodel/kuramoto.py:71-72 | one sample per try, sample i being the guess drawn at try i |
| KuramotoSolver.SamplesShape | flownetpy/flowmodel/kuramoto.py:72 | every sample is refused exactly when n is 0 and has n phases when accepted; from increments in [−π/2, π/2), every accepted sample is stable |
| KuramotoSolver.SampleStable | flownetpy/flowmodel/kuramoto.py:154-172 | a guess drawn from increments in [−π/2, π/2) starts at 0 and has every cyclic wrapped difference within [−π/2, π/2] |
| KuramotoSolver.AcceptedGuesses | flownetpy/flowmodel/kuramoto.py:72 | the guesses of the accepted samples, in try order |
| KuramotoSolver.TryFindFps | flownetpy/flowmodel/kuramoto.py:44-77 | `_try_find_fps` tries only the supplied guess when there is one; otherwise each of the `ntry` tries draws its guess with `_random_stableop_initguess` and the first that converges wins; the result is `FindOutcome`, the reference outcome whose properties FindOutcomeIsSearch and FindOutcomeSound state |
| KuramotoSolver.RandomSearchAt | flownetpy/flowmodel/kuramoto.py:71-77 | when guess k is the first that settles, the search over the guesses returns it (or the last guess when none settles) |
| KuramotoSolver.TriedStopsAt | flownetpy/flowmodel/kuramoto.py:71-77 | when every try draws a guess, the tries stop at the first guess that settles, or report the last guess drawn |
| KuramotoSolver.FindOutcomeIsSearch | flownetpy/flowmodel/kuramoto.py:64-77 | with a supplied guess of the right size, or when every try draws a guess, `_try_find_fps` is the search over those guesses, so the search lemmas above apply to it |
| KuramotoSolver.TriedSound | flownetpy/flowmodel/kuramoto.py:71-77 | the tries raise ValueError exactly for an empty network with a try left; every reported guess has n phases; a fixed point is the last state of a converged trajectory from the reported guess |
| KuramotoSolver.TriedStable | flownetpy/flowmodel/kuramoto.py:71-77 | when every accepted sample is stable, so is every guess the tries report |
| KuramotoSolver.FindOutcomeSound | flownetpy/flowmodel/kuramoto.py:44-77 | `_try_find_fps` raises ValueError exactly for a supplied guess of the wrong size or for random tries on an empty network; a fixed point has n phases and ends a converged trajectory from the reported guess |
| KuramotoSolver.RandomGuessesAreStable | flownetpy/flowmodel/kuramoto.py:71-77 | every random guess `_try_find_fps` reports starts at 0 and has all cyclic wrapped differences within [−π/2, π/2] |
| KuramotoSolver.Products | flownetpy/flowmodel/kuramoto.py:131 | the element-wise product of two vectors |
| KuramotoSolver.ColumnTerms | flownetpy/flowmodel/kuramoto.py:131 | the terms of `Mᵀ·θ` for one column |
| KuramotoSolver.Sines | flownetpy/flowmodel/kuramoto.py:131 | `sin(Mᵀ·θ)` has one entry per edge |
| KuramotoSolver.KuramotoOde | flownetpy/flowmodel/kuramoto.py:122-131 | `_kuramoto_ode` has one entry per node, and entry i is `P[i] − M_w[i]·sin(Mᵀθ)` |
| KuramotoSolver.ColumnDotIncidence | flownetpy/flowmodel/kuramoto.py:131 | `(Mᵀθ)_k` is `θ_v − θ_u` for the edge k = (u, v), and 0 for a self-loop |
| KuramotoSolver.OdeIsPowerBalance | flowmodels/kuramoto.py:27-35 | for an odd sine, `_kuramoto_ode` at node i is its input minus the net flow `w·sin(θ_i − θ_j)` leaving it along its edges |
| KuramotoSolver.ProjectFlows | flownetpy/flowmodel/kuramoto.py:34-36 | the comprehension stores a key for every edge, and the last edge listed is stored with its own flow `sin(θ_u − θ_v)·w`, overwriting any earlier edge with the same key |
| KuramotoSolver.ProjectFlowsLookup | flownetpy/flowmodel/kuramoto.py:35-36 | a key is stored exactly when some edge has it, and its flow is that of the last such edge |
| KuramotoSolver.SimpleEdgeFlow | flownetpy/flowmodel/kuramoto.py:34-36 | on a simple network, every edge is stored with `sin(θ_u − θ_v)·w` |
| KuramotoSolver.SimpleFlowsOneDirection | flownetpy/flowmodel/kuramoto.py:35-36 | on a simple network, no pair is stored in both directions, so the flows are antisymmetric |
| KuramotoSolver.ReverseLookupOfEdge | flownetpy/flowmodel/tools.py:7-13 | looking up the reversed edge in the flows stores and returns minus the edge's flow |
| KuramotoSolver.NegatedEdgeFlow | flownetpy/flowmodel/kuramoto.py:35-36 | with an odd sine, minus an edge's flow is `sin(θ_v − θ_u)·w` |
| KuramotoSolver.ReversedEdgeFlow | flownetpy/flowmodel/tools.py:1-6 | with an odd sine, the reversed lookup is `sin(θ_v − θ_u)·w`, the flow seen from the other end |
| KuramotoSolver.SteadyFlows | flownetpy/flowmodel/kuramoto.py:13-42 | over the outcome `FindOutcome` of the search: the search's failure (its ValueError, or exhausted draws) and no flows when the search fails; no flows and the last guess when no guess converges; otherwise a FlowDict of the projected edge flows and, when asked, the guess, the phases and one integer winding number per cycle |
| FlowTools.LookupFrame | flownetpy/flowmodel/tools.py:7-13 | a lookup fails exactly when neither direction is stored, and then it stores nothing |
| FlowTools.LookupIdempotent | flownetpy/flowmodel/tools.py:7-13 | looking up the same key again gives the same value and stores nothing more |
| FlowTools.LookupKeepsAntisymmetric | flownetpy/flowmodel/tools.py:1-13 | a lookup keeps the dictionary antisymmetric |
| FlowTools.OneDirectionAntisymmetric | flownetpy/flowmodel/tools.py:1-6 | a dictionary that never holds both directions of a pair is antisymmetric |
| FlowTools.LookupAllInvariant | flownetpy/tests/flowmodel/test_tools.py:17-21 | any sequence of lookups keeps antisymmetry and keeps every stored entry |
| FlowTools.ReverseLookupNegates | flownetpy/tests/flowmodel/test_tools.py:11-21 | after any earlier lookups, `x[(v,u)] + x[(u,v)] == 0` and `x[(u,v)]` is the stored flow |
| FlowTools.FlowDict.constructor | flownetpy/flowmodel/tools.py:1-6 | a FlowDict starts with the given entries |
| FlowTools.FlowDict.Get | flownetpy/flowmodel/tools.py:7-13 | the method does what `LookupIn` describes: `d[key]` returns a stored key as is; otherwise it stores and returns minus the reverse entry; when neither is stored it fails and changes nothing; it keeps antisymmetry |
| LegacyKuramoto.ModPiBy2 | flowmodels/kuramoto.py:120-126 | `mod_piby2(x)` lies in [−π, π) and is x minus a whole number of turns |
| LegacyKuramoto.ModPiBy2Unique | flowmodels/kuramoto.py:120-126 | the result is the unique representative in [−π, π) |
| LegacyKuramoto.ModPiBy2Periodic | flowmodels/kuramoto.py:120-126 | adding whole turns does not change the result |
| LegacyKuramoto.ModPiBy2AgreesWithModPi | flowmodels/kuramoto.py:120-126 | `mod_piby2` and the newer `_mod_pi` agree everywhere except at the boundary, where π becomes −π |
| LegacyKuramoto.FMod2Pi | flowmodels/kuramoto.py:111 | `np.fmod(x, 2π)` has the sign of x, is smaller than 2π in magnitude, and is x minus the turns truncated toward zero |
| LegacyKuramoto.FModAndRemainder | flowmodels/kuramoto.py:111 | `fmod` equals `remainder` for x ≥ 0; for negative x with a nonzero remainder it is the remainder minus 2π |
| LegacyKuramoto.LastAngle | flowmodels/kuramoto.py:111-115 | the computed last angle lies in (−π, π/2] |
| LegacyKuramoto.InitGuess | flowmodels/kuramoto.py:101-117 | sizes below 2 raise ValueError and nothing else does; otherwise the guess has `size` entries, running sums of the draws, and the computed last angle |
| LegacyKuramoto.CounterexampleLastAngle | flowmodels/kuramoto.py:111-115 | from the running sum −4.5, the last angle is −2.25 |
| LegacyKuramoto.InitGuessBreaksPromise | flowmodels/kuramoto.py:101-117 | the valid draws −1.5, −1.5, −1.5 give the guess [0, −1.5, −3, −4.5, −2.25], whose closing wrapped step 2.25 exceeds π/2 |
| LegacyKuramoto.StableLastAngle | flowmodels/kuramoto.py:111-115 | with the floored remainder, the last angle lies in (−π/2, π/2] |
| LegacyKuramoto.LastAngleAgreement | flowmodels/kuramoto.py:111-115 | the corrected last angle equals the as-written one unless `fmod` falls at or below −π, where it is π larger |
| LegacyKuramoto.StableInitGuess | flowmodels/kuramoto.py:101-117 | the corrected guess raises ValueError exactly for sizes below 2 and otherwise has the same running sums |
| LegacyKuramoto.StableLastSteps | flowmodels/kuramoto.py:111-117 | both steps next to the corrected last angle lie within [−π/2, π/2] |
| LegacyKuramoto.StableInitGuessSmooth | flowmodels/kuramoto.py:101-104 | every cyclic wrapped difference of the corrected guess lies within [−π/2, π/2] |
| LegacyKuramoto.Flows | flowmodels/kuramoto.py:140-147 | the flow comprehensions can raise only KeyError, and the unweighted comprehension never raises |
| LegacyKuramoto.ScaledFlow | flowmodels/kuramoto.py:142-147 | an edge's flow raises KeyError exactly when the network is weighted and the edge lacks the weight; otherwise it is `sin(θ_u − θ_v)·w` |
| LegacyKuramoto.FlowsMatchProjection | flowmodels/kuramoto.py:140-147 | the flow dictionary is built exactly when every edge has the weight it needs, and it then equals the newer projection |
| LegacyKuramoto.ProjectionStoresEdgeFlows | flowmodels/kuramoto.py:142-147 | on a simple network, every edge's flow is stored under its own key and not under the reversed key |
| LegacyKuramoto.CycleSumSticks | flowmodels/kuramoto.py:92-95 | once a term raises, the rest of the cycle does not change the outcome |
| LegacyKuramoto.PairTerm | flowmodels/kuramoto.py:91-95 | one pass of the inner loop: with the stored key, a nonzero divisor and a quotient in [−1, 1] it is `asin(flows[(u, v)] / w)`; with no divisor, or neither direction stored, it raises KeyError; its only exceptions are KeyError, ValueError and ZeroDivisionError |
| LegacyKuramoto.Omegas | flowmodels/kuramoto.py:86-98 | the list `omegas` after c cycles has c entries when nothing raises |
| LegacyKuramoto.OmegasSticks | flowmodels/kuramoto.py:86-98 | once a cycle raises, the later cycles do not change the outcome |
| LegacyKuramoto.OmegasEntries | flowmodels/kuramoto.py:86-98 | the winding vector exists exactly when every cycle's entry does, and it then lists those entries in order |
| LegacyKuramoto.CycleTotal | flowmodels/kuramoto.py:88-95 | the inner loop computes the cycle's sum of `asin` terms, or the exception one of them raised |
| LegacyKuramoto.Omega | flowmodels/kuramoto.py:81-98 | the loops of `_omega` compute `Omegas` over all cycles, the reference whose entries OmegasEntries and WeightedOmegaSumsArcs describe; the vector has one entry per cycle when nothing raises |
| LegacyKuramoto.UnweightedOmegaRaises | flowmodels/kuramoto.py:93-95 | on a network with no weight attribute, `_omega` raises KeyError for any non-empty cycle |
| LegacyKuramoto.OrientedTerm | flowmodels/kuramoto.py:91-95 | along an edge in either orientation, the term is `asin(sin(θ_u − θ_v))` |
| LegacyKuramoto.EdgeTerm | flowmodels/kuramoto.py:92-95 | for a pair joined by an edge, the try or the except branch yields `asin(sin(θ_u − θ_v))` |
| LegacyKuramoto.StoredTerm | flowmodels/kuramoto.py:93 | traversing in the stored direction gives `asin(sin(θ_u − θ_v))` |
| LegacyKuramoto.ReversedTerm | flowmodels/kuramoto.py:95 | traversing against the stored direction gives minus that term |
| LegacyKuramoto.CycleSumOfArcs | flowmodels/kuramoto.py:88-95 | when every pass yields its arc, the cycle sum is the sum of the arcs |
| LegacyKuramoto.PassesYieldArcs | flowmodels/kuramoto.py:89-95 | every pass along a cycle of edges yields `asin(sin(θ_u − θ_v))` |
| LegacyKuramoto.OmegasOverStoredFlows | flowmodels/kuramoto.py:81-98 | over stored edge flows, each winding number is the truncated arc sum of its cycle divided by 2π |
| LegacyKuramoto.CorrectedOmegaSumsArcs | flowmodels/kuramoto.py:81-98 | with the corrected divisor, `_omega` raises nothing and each entry is the truncated arc sum divided by 2π |
| LegacyKuramoto.DivisorsAgreeWhenWeighted | flowmodels/kuramoto.py:93-95 | when every edge has a `weight`, the divisor `flownet[u][v]['weight']` is the weight the flows were scaled by |
| LegacyKuramoto.CycleSumsAgreeWhenWeighted | flowmodels/kuramoto.py:88-95 | when every edge has a `weight`, the inner loop gives the same sum, or the same exception, with either divisor |
| LegacyKuramoto.OmegasAgreeWhenWeighted | flowmodels/kuramoto.py:86-98 | when every edge has a `weight`, `_omega` as written equals `_omega` with the corrected divisor, entries and exceptions alike |
| LegacyKuramoto.WeightedOmegaSumsArcs | flowmodels/kuramoto.py:81-98 | `_omega` as written, on a network whose edges all have a `weight`, raises nothing and returns one entry per cycle: the truncated arc sum divided by 2π, the docstring's winding number |
| LegacyKuramoto.ArcSumTelescopes | flowmodels/kuramoto.py:83-84 | when every step lies within [−π/2, π/2], the arcs telescope to the first phase minus the current one |
| LegacyKuramoto.StableCyclesDoNotWind | flowmodels/kuramoto.py:81-98 | with the corrected divisor, the winding number of every cycle whose steps lie within [−π/2, π/2] is 0 |
| LegacyKuramoto.Guesses | flowmodels/kuramoto.py:69-70 | one guess per draw, each being `random_stableop_initguess(size)` on that draw and having `size` entries |
| LegacyKuramoto.TryFindFps | flowmodels/kuramoto.py:49-78 | a shape mismatch fails the assertion; a supplied guess of the wrong size raises ValueError; otherwise the search matches the newer search over the guesses `random_stableop_initguess` draws, with sizes below 2 raising ValueError when random guesses are needed |
| LegacyKuramoto.SearchFixedPointSize | flowmodels/kuramoto.py:64-76 | a fixed point has the network's size |
| LegacyKuramoto.SearchRaisesOnlyForBadSizes | flowmodels/kuramoto.py:57-78 | the search raises (ValueError) exactly for a supplied guess of the wrong size, or when random guesses are needed for fewer than 2 nodes; any fixed point comes from a converged trajectory |
| LegacyKuramoto.FixedPoint | flowmodels/kuramoto.py:129-153 | `fixed_point`: a ValueError from the guess, no flows and the guess on failure, KeyError for a missing weight in the flows, otherwise the flows alone or, when asked, the guess, the phases and the winding vector of `_omega` dividing by the `weight` attribute (so an unweighted network with a cycle raises KeyError, and on a network whose edges all have a weight the entries are the winding numbers of WeightedOmegaSumsArcs) |

## Left out

- The `vode`/BDF integrator is the parameter `step`. Its accuracy, step control and failures are not modelled, and only its size preservation is assumed.
- Floating point is not modelled: all arithmetic is on exact reals. π is the exact real 3.141592653589793, `sin` and `asin` are parameters, and `assert_almost_equal` and `np.allclose` tolerances become exact equalities or the fixed absolute tolerance 1e-8.
- networkx is not modelled. A graph is a node count plus an edge list in networkx's order, and `nx.cycle_basis` is an input sequence of cycles. The attribute lookup `flownet[u][v]` is `Network.FindEdge`, which takes the first edge joining u and v.
- Only the attribute named `weight` is modelled. `weighted` says that the network's `weight_attr` is set to it.
- `np.random.uniform` is not modelled. Its draws are supplied as sequences, one per call.
- Kuramoto.InitGuess: the unbounded resampling recursion is modelled over a finite supply of draws and may end with `OutOfDraws`.
- `_evolve` and `evolve` are not modelled as separate members. They appear only in the search, as `Odeint` over the fixed right-hand side.
- The linear flow models, `FlowNetwork` and the package entry points are not part of this model.
- `TOL`/`tol` are not modelled, because the code never reads them.
- KuramotoSolver.TryFindFps: requires `tmax > 0`, and so do KuramotoSolver.SearchGuesses, KuramotoSolver.TimeGrid and LegacyKuramoto.TryFindFps. Every call in the source passes TMAX = 200. A tmax of 0 makes `np.arange` raise, and a negative tmax gives a grid that runs backwards in time, which the source still integrates over; neither case is modelled.
- KuramotoSolver.TryFindFps: the draws of each try are a finite supply, so a try can end with `DrawsExhausted` where the source would go on resampling.
- KuramotoSolver.TryFindFps: a supplied guess whose size is not the number of nodes raises ValueError in the matrix product of `_kuramoto_ode`. The integrator is a parameter that cannot fail, so the model checks the size up front and raises the same error there.
- LegacyKuramoto.TryFindFps: the same up-front size check stands for the ValueError of `np.dot` in the legacy `_kuramoto_ode`.
- The node inputs are a given sequence. The KeyError that `flownet.node[n]['input']` raises for a node without an `input` attribute is not modelled (flownetpy/flowmodel/kuramoto.py:86, flowmodels/kuramoto.py:133).
- KuramotoSolver.SteadyFlows: returns optional extra data rather than switching between a tuple and a bare dictionary.
- FlowTools.FlowDict.Get: a lookup that finds neither direction raises TypeError in Python. The model returns `None` because no exceptions are modelled; in both cases nothing is stored.
- LegacyKuramoto.StableInitGuessSmooth: proves `≤ π/2` where the docstring says `< π/2`. The bound is reached when a draw is −π/2, which `np.random.uniform` can return.
- LegacyKuramoto.TryFindFps: the loop over the random guesses is the newer search over the guesses drawn first, one per try, because the two loops are the same code.

## Findings

| source | as written | input that shows it | evidently intended | confidence | as-written member | corrected member |
|---|---|---|---|---|---|---|
| flowmodels/kuramoto.py:93-95 | `_omega` divides every stored flow by `flownet[u][v]['weight']`, whatever `weight_attr` is | any unweighted network with a non-empty cycle: neither lookup finds a `weight`, so the `KeyError` in the except branch escapes | divide by the scale the flows were built with: the weight when `weight_attr` is set, 1 otherwise | not executed | LegacyKuramoto.UnweightedOmegaRaises | LegacyKuramoto.CorrectedOmegaSumsArcs |
| flowmodels/kuramoto.py:111-115 | `np.fmod` keeps the sign of a negative running sum, so the last angle can be far from both neighbours | size 5 and draws −1.5, −1.5, −1.5: the guess is [0, −1.5, −3, −4.5, −2.25], and the closing step wraps to 2.25 > π/2 | the floored remainder (`%`), giving phase differences of at most π/2 as the docstring says | not executed | LegacyKuramoto.InitGuessBreaksPromise | LegacyKuramoto.StableInitGuessSmooth |
