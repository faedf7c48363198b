# Energy-aware utilization planner (SunuwarUNL), modelled in Dafny

The planner spreads a job arrival rate `R` over three groups of servers. Each group has a
throughput coefficient `c_g = FLOPS_g / 10` and `n_g` servers. Each server has a linear power
model `alpha * util / 100 + beta`, with util in percentage points between 30 and 100.

The planner works in four steps.

1. **Initialize.** It starts the cost bound `minPower` at the power of every server at full
   load. Each group gets the range `[n_g * 30, n_g * 100]`.
2. **Search.** It searches the vertices of the feasible box from the highest group down. At
   level `i > 0` it clamps the rate residual into `low_i` and `high_i`. It then branches on
   `round(low_i)` and `round(high_i)`.
3. **Leaf.** At group 0 it solves for the remaining rate and rounds the result. It evaluates the
   total power, and a vector whose power is at most `minPower` becomes the new best.
4. **Export.** It distributes each group total of the best vector over the group's servers and
   publishes one speed record per server ID.

The model follows the Java class's own form. Its modules, in dependency order:

- `Outcomes`: the two exceptions, as data.
- `PowerModel`: the linear power model.
- `UtilDistributor`: the intra-group distributor `utilDistribute`, as a pure specification.
- `GroupSearch`: the state of the search (the four group arrays, `minPower`, and a
  specification-only list of the leaves evaluated so far), and the search as pure functions:
  - `Enter` for the bounds at level `i`;
  - `Switch` for the second branch;
  - `EvaluateLeaf` for the leaf;
  - `Search` and `Level` for the recursion.

  This module also holds the lemmas about the search.
- `AllocationExport`: the setup and the export, as pure functions.
  - `LabSetup` holds the lab constants.
  - `ClusterOf` builds the coefficients.
  - `DistributeAll` and `SpeedMap` build the export.
  - `PlanSpec` is the whole constructor.
- `Sunuwar`: the class `Planner`. It has the four `array<real>` fields, the `minPower`
  accumulator, and the `serverUtil` list and `speeds` map of the Java object. Its methods
  (`Initialize`, `PropagateBounds`, `FindGroupUtilization`, `SolveLeaf`, `UtilDistribute`, the
  export steps) update them in place with the source's loops. Each method is proved equal to
  the matching specification function on the object's `Snapshot()`.

  The top-level method `Plan` is `new SunuwarUNL()`:
  - the Dafny constructor covers the coefficient set-up;
  - `Run` covers the rest of the Java constructor;
  - `Plan` is proved to equal `PlanSpec`.

The model follows the code, not an idealised reading in which infeasible leaves and empty
ranges are pruned and ties go to the first leaf found:

- An infeasible leaf throws `"not a feasible solution"`. That aborts the whole search; it is not
  a pruned branch.
- There is no check that `low_i <= high_i`. Empty ranges are searched like any other.
- The update uses `power <= minPower`, so among leaves of equal power the last one visited
  wins, not the first.
- Rounding group 0 means the realized throughput is only within `c_0 / 2` of `R`
  (`LeafThroughput`). It is not always at least `R`. Take three one-server groups with unit
  coefficients and any `R` strictly between 200 and 200.5. The search from the top group
  succeeds, every one of its four leaves reaches only 200, and so does the chosen vector
  `[30, 70, 100]` (`SearchBelowRate`).

## Model

| member | source | states |
|---|---|---|
| PowerModel.ServerPower | src/SunuwarUNL.java:69 | definition: a server at util percent draws alpha * util / 100 + beta (the same formula as line 133) |
| PowerModel.GroupPower | src/SunuwarUNL.java:132-134 | definition: the power of a group's first j servers, summed in server order |
| PowerModel.Filled | src/SunuwarUNL.java:157 | definition: n copies of x, as `Arrays.fill` leaves a group's array (and, with x = 0, Java's zeroed arrays) |
| PowerModel.ServerPowerMonotone | src/SunuwarUNL.java:133 | with a non-negative slope, server power does not decrease as utilization grows |
| PowerModel.GroupPowerMonotone | src/SunuwarUNL.java:132-134 | with non-negative slopes, a group's summed power is monotone in every server's utilization |
| UtilDistributor.Share | src/SunuwarUNL.java:161-168 | definition: server k gets 100 below m, 30 above m, and the remainder U - 100m - 30(n-m-1) at m |
| UtilDistributor.Distribute | src/SunuwarUNL.java:145-173 | a successful distribution has one share per server; the definition fails above 100n, fills with 30 below 30n, and otherwise uses Share with m = Saturated |
| UtilDistributor.Saturated | src/SunuwarUNL.java:160 | for a total in [30n, 100n] the count m of saturated servers lies in [0, n] and is the floor of (U - 30n) / 70 |
| UtilDistributor.DistributeFailsIff | src/SunuwarUNL.java:154-157 | the distributor fails exactly when U > 100n, and then with the util-range error; below 30n it puts every server at 30 without error |
| UtilDistributor.PartialShareBounds | src/SunuwarUNL.java:167 | the remainder server's share lies in [30, 100) |
| UtilDistributor.DistributeBounds | src/SunuwarUNL.java:154-169 | every server's share lies in [30, 100] whenever the distributor succeeds |
| UtilDistributor.DistributeShape | src/SunuwarUNL.java:160-168 | servers below m get 100, server m gets U - 100m - 30(n-m-1), later servers get 30, and at most one share is strictly between the bounds |
| UtilDistributor.SharePrefixSum | src/SunuwarUNL.java:161-169 | the running sum of the first j shares is 100j while j <= m and U - 30(n-j) after |
| UtilDistributor.DistributeSum | src/SunuwarUNL.java:158-169 | for a total in [30n, 100n] the shares add up exactly to U |
| UtilDistributor.DistributeMonotone | src/SunuwarUNL.java:156-169 | raising the group total never lowers any server's share |
| UtilDistributor.DistributeExample | src/SunuwarUNL.java:160-168 | two servers sharing 140 get 100 and 40 |
| GroupSearch.Round | src/SunuwarUNL.java:111 | Math.round gives an integer within half a unit of x, with halves rounded up |
| GroupSearch.Residual | src/SunuwarUNL.java:87-94 | definition: group i's share of R with the groups below at the given bound and those above at their tentative values, divided by c_i (also lines 100-107) |
| GroupSearch.LowBound | src/SunuwarUNL.java:85-96 | low_i is at least 30 n_i and at least the residual against the highs below, and equals one of them |
| GroupSearch.HighBound | src/SunuwarUNL.java:98-109 | high_i is at most 100 n_i and at most the residual against the lows below, and equals one of them |
| GroupSearch.Enter | src/SunuwarUNL.java:85-111 | entering a level keeps the state's shape and its leaves; by definition low_i and high_i become LowBound and HighBound and temp_i becomes round(low_i) |
| GroupSearch.Switch | src/SunuwarUNL.java:114 | switching branches keeps the shape and the leaves; by definition temp_i becomes round(high_i) |
| GroupSearch.FreeValue | src/SunuwarUNL.java:119-123 | definition: group 0's value solved from the rate left by groups 1..k-1, over c_0, rounded |
| GroupSearch.EvaluateLeaf | src/SunuwarUNL.java:119-140 | a successful leaf keeps the shape and only appends leaves; by definition it fails with the feasibility error when group 0 leaves [low_0, high_0] |
| GroupSearch.PowerUpTo | src/SunuwarUNL.java:129-135 | definition: the power of groups 0..g-1, each distributed first; the first group the distributor rejects aborts with its error |
| GroupSearch.LeafPower | src/SunuwarUNL.java:129-135 | definition: PowerUpTo over every group |
| GroupSearch.BaselineUpTo | src/SunuwarUNL.java:66-71 | definition: the power of groups 0..g-1 with every server at 100 |
| GroupSearch.Baseline | src/SunuwarUNL.java:66-71 | definition: BaselineUpTo over every group, the initial minPower |
| GroupSearch.EnterBounds | src/SunuwarUNL.java:85-111 | entering level i sets low_i from the old highs, high_i from the lows, and temp_i to round(low_i) |
| GroupSearch.LeafStep | src/SunuwarUNL.java:119-140 | a successful leaf fixes group 0 at its solved value inside [low_0, high_0] and records the leaf with its power; minPower never grows; final and minPower take the leaf exactly when its power is at most minPower, and are unchanged otherwise |
| GroupSearch.Search | src/SunuwarUNL.java:81-143 | a successful search keeps every array's length and only appends to the list of evaluated leaves |
| GroupSearch.Level | src/SunuwarUNL.java:83-116 | a successful level keeps every array's length and only appends leaves |
| GroupSearch.Fold | src/SunuwarUNL.java:137-140 | definition: the `power <= minPower` update applied to each leaf of a list in order, a leaf replacing the best when no dearer |
| GroupSearch.FoldAppend | src/SunuwarUNL.java:137-140 | folding the best-so-far update over two leaf lists in turn is folding it over their concatenation |
| GroupSearch.FoldMinimal | src/SunuwarUNL.java:137-140 | the folded power is at most the initial bound and at most every leaf's power |
| GroupSearch.FoldLastMinimal | src/SunuwarUNL.java:137-140 | the fold's result is the initial value with every leaf strictly dearer, or the last leaf of minimum power |
| GroupSearch.SearchKeepsGroupZero | src/SunuwarUNL.java:85-115 | group 0's bounds are never recomputed by the search |
| GroupSearch.SearchKeepsAbove | src/SunuwarUNL.java:85-115 | a search from level i leaves the bounds and tentative values above i unchanged |
| GroupSearch.SearchBounds | src/SunuwarUNL.java:96-109 | after a search from level i every group 1..i has low >= 30n and high <= 100n |
| GroupSearch.SearchLevelBounds | src/SunuwarUNL.java:85-115 | level i ends with low_i and high_i as computed on entry, the clamped residuals |
| GroupSearch.SearchLeafCount | src/SunuwarUNL.java:111-115 | a search from level i that does not abort evaluates exactly 2^i leaves |
| GroupSearch.SearchBranches | src/SunuwarUNL.java:111-115 | the first half of level i's leaves fix group i at round(low_i), the second half at round(high_i) |
| GroupSearch.SearchLeavesAbove | src/SunuwarUNL.java:111-123 | every leaf of a search from level i is a full vector keeping the tentative values above level i |
| GroupSearch.LeafThroughput | src/SunuwarUNL.java:119-123 | the solved and rounded group 0 puts the leaf's throughput in (R - c_0/2, R + c_0/2] |
| GroupSearch.SearchLeavesFeasible | src/SunuwarUNL.java:119-135 | every evaluated leaf lies in group 0's entry range, has its computed power, and meets R up to rounding |
| GroupSearch.SearchIsFold | src/SunuwarUNL.java:137-140 | after a search, (final, minPower) is the left fold of the `<=` update over exactly the leaves it evaluated, in order |
| GroupSearch.GroupTotals | src/SunuwarUNL.java:73-74 | definition: n_g * x for every group |
| GroupSearch.InitialState | src/SunuwarUNL.java:66-77 | the state after initialize has one entry per group in every array |
| GroupSearch.SearchBelowRate | src/SunuwarUNL.java:81-143 | for three one-server unit groups and any R in (200, 200.5), the search from the top succeeds with leaves [100,70,30], [70,100,30], [70,30,100], [30,70,100], all of power 2; final is the last of them, and its throughput 200 is below R |
| GroupSearch.SearchOutcome | src/SunuwarUNL.java:81-143 | a successful search from the top evaluates 2^(k-1) feasible leaves; minPower is at most the baseline and at most each leaf's power; final is still zero (every leaf dearer) or the last minimum leaf |
| GroupSearch.PowerUpToOk | src/SunuwarUNL.java:129-135 | leaf power is computable exactly when no group exceeds 100 n_g, otherwise it fails with the util-range error |
| GroupSearch.PowerUpToErrPersists | src/SunuwarUNL.java:130-131 | once a group's distribution throws, the power sum over more groups throws the same error |
| GroupSearch.PowerUpToAtMostBaseline | src/SunuwarUNL.java:66-71 | with non-negative alphas a computable leaf costs at most the all-at-100 baseline |
| GroupSearch.SearchFinalIsLeaf | src/SunuwarUNL.java:137-140 | with non-negative alphas a successful search ends with final and minPower from the last leaf of minimum power |
| GroupSearch.LeafWithinCapacity | src/SunuwarUNL.java:129-135 | a computable leaf's throughput is at most the cluster's full-load capacity |
| GroupSearch.SearchWithinCapacity | src/SunuwarUNL.java:119-126 | a search only succeeds if R - c_0/2 is below capacity |
| GroupSearch.SearchFinalWithinCapacity | src/SunuwarUNL.java:43-47 | after a successful search every group of final is within its capacity |
| AllocationExport.ClusterOf | src/SunuwarUNL.java:28-37 | c_g = FLOPS_g / 10, and group g gets one (alpha, beta) pair per listed server, with its own coefficients |
| AllocationExport.Listing | src/SunuwarUNL.java:28-33 | row h of the coefficient list is the first n_h coefficients of group h |
| AllocationExport.DistributeUpTo | src/SunuwarUNL.java:45-47 | a successful distribution has one row per group, of the group's size |
| AllocationExport.DistributeAll | src/SunuwarUNL.java:45-47 | definition: DistributeUpTo over every group |
| AllocationExport.DistributeUpToOk | src/SunuwarUNL.java:45-47 | distribution succeeds exactly when no group exceeds 100 n_g, and then row h is group h's distribution |
| AllocationExport.DistributeUpToErrPersists | src/SunuwarUNL.java:45-47 | once a group throws, distributing more groups throws the same error |
| AllocationExport.DistributeUpToError | src/SunuwarUNL.java:45-47 | a failed distribution always reports the util-range error |
| AllocationExport.Speed | src/SunuwarUNL.java:52 | definition: the record of server j of group g: its util / 100, the group's FLOPS, alpha, and alpha + beta |
| AllocationExport.ExportUpTo | src/SunuwarUNL.java:50-55 | definition: the map after the loops have visited groups before g and servers 0..j-1 of g, a later put for an ID overwriting an earlier one |
| AllocationExport.SpeedMap | src/SunuwarUNL.java:50-55 | definition: ExportUpTo after every group |
| AllocationExport.ExportUpToContents | src/SunuwarUNL.java:50-55 | partway through the loops, the keys are exactly the IDs visited, and each holds the record of a visited server listed under it |
| AllocationExport.SpeedMapContents | src/SunuwarUNL.java:50-55 | the exported keys are exactly the listed server IDs, each holding the record of a server listed under it |
| AllocationExport.ExportedServer | src/SunuwarUNL.java:50-55 | with distinct IDs every listed server is exported under its own ID with its own record |
| AllocationExport.Publish | src/SunuwarUNL.java:43-55 | definition: DistributeAll of the best vector, then SpeedMap of its rows, or the distributor's error |
| AllocationExport.PublishOk | src/SunuwarUNL.java:43-55 | the export fails exactly when some group of the best vector exceeds 100 n_g, with the util-range error |
| AllocationExport.PublishContents | src/SunuwarUNL.java:43-55 | a successful export publishes the best vector, its power and each group's distribution, under exactly the listed IDs |
| AllocationExport.PublishRecords | src/SunuwarUNL.java:49-55 | every published record is a listed server's: fraction util/100 in [0.3, 1.0], the group's FLOPS, alpha, alpha + beta |
| AllocationExport.SpeedFraction | src/SunuwarUNL.java:52 | a distributed server's exported fraction lies in [0.3, 1.0] |
| AllocationExport.PublishedPower | src/SunuwarUNL.java:52 | every published record carries its server's alpha and its full-load power alpha + beta, and with alpha >= 0 the power at the published utilization is at most that value |
| AllocationExport.PlanSpec | src/SunuwarUNL.java:39-55 | definition: Search from the top group of the initial state, then Publish of its final and minPower; either stage's error aborts |
| AllocationExport.PlanFailsOnlyInSearch | src/SunuwarUNL.java:39-55 | the export never throws after a successful search: construction fails exactly when the search does, with the same error |
| Sunuwar.Planner.constructor | src/SunuwarUNL.java:26-37 | the coefficient lists and c_0..c_2 are those of ClusterOf, and every array starts at 0 |
| Sunuwar.Planner.Initialize | src/SunuwarUNL.java:66-79 | minPower grows by the all-at-100 baseline; low and high are n_g times 30 and 100; temp is 0 |
| Sunuwar.Planner.RemainingRate | src/SunuwarUNL.java:87-94 | the two loops and the division compute the residual against the given bound array and the tentative values |
| Sunuwar.Planner.PropagateBounds | src/SunuwarUNL.java:85-111 | the arrays become Enter of the old state: clamped low_i, clamped high_i, temp_i = round(low_i) |
| Sunuwar.Planner.UtilDistribute | src/SunuwarUNL.java:145-173 | returns a fresh array holding Distribute of the group's tentative value, or that function's error |
| Sunuwar.Planner.TentativePower | src/SunuwarUNL.java:129-135 | the nested loops compute LeafPower of the tentative vector, or its error |
| Sunuwar.Planner.SolveLeaf | src/SunuwarUNL.java:119-140 | the object's new state is EvaluateLeaf of the old one, or the method returns that function's error |
| Sunuwar.Planner.FindGroupUtilization | src/SunuwarUNL.java:81-143 | the object's new state is Search of the old one from level i, or the method returns the search's error |
| Sunuwar.Planner.DistributeFinal | src/SunuwarUNL.java:43-47 | temp becomes a copy of final and serverUtil becomes DistributeAll of it, or the method returns its error |
| Sunuwar.Planner.PutSpeeds | src/SunuwarUNL.java:49-55 | speeds becomes SpeedMap of the setup and serverUtil |
| Sunuwar.Planner.Run | src/SunuwarUNL.java:39-55 | from the freshly built object, the result is PlanSpec of the setup and cluster |
| Sunuwar.Plan | src/SunuwarUNL.java:26-55 | constructing the planner from a setup yields PlanSpec of that setup and its cluster |

## Left out

- `WekaML.java` and `SimGridJava.java` are not part of this model. They hold classifier training, database access, XML configuration, subprocesses and console output.
- The `LabSetup` constants are not shown, so they are a parameter (`AllocationExport.LabSetup`). `ValidSetup` restricts the setups the model covers:
  - exactly three FLOPS entries. The code sets `throughputCoEff` for indices 0..2 only: fewer entries throw at lines 35-37, and a fourth group would run with `c_3 = 0`. Neither is modelled.
  - positive FLOPS. The divisions at lines 94, 107 and 123 are double divisions. A zero `c_i` yields an infinity or NaN, which reals cannot express. A negative capacity has no meaning for a server group, although the code would run with it.
  - coefficients for every listed server.
- Doubles are modelled as exact reals. `Math.round` is `floor(x + 1/2)` without the `long` range limit. IEEE-754 rounding is not modelled.
- `getSpeeds` (lines 62-64) is a plain field getter. It is not modelled beyond the `speeds` field.
- Sunuwar.Planner.FindGroupUtilization: on failure it states only the error, not the partly updated arrays. When its constructor throws, the Java object is unreachable, so that state is never observed. The same holds for Sunuwar.Planner.SolveLeaf and Sunuwar.Planner.DistributeFinal.
- Java's exception objects and messages become the two constructors of `Outcomes.Error`.
- `serverUtil` holds the distributed rows as values (`seq<real>`), not as references to the arrays `utilDistribute` returned. Nothing mutates those arrays later. Each `Double[4]` record is the datatype `ServerSpeed`.
- `HashMap` iteration order is not modelled, because no code in the core iterates the map.
- The commented-out `main` and debug printing (lines 57-59, 175 onward) are not modelled.
