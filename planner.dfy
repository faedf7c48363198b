/** The planner object: the four shared group arrays, the running minimum power and the
    exported results, updated in place by initialize, the recursive search, the distributor
    and the export loops. Each method is proved against the specification functions of
    GroupSearch and AllocationExport. */
module Sunuwar {
  import opened Outcomes
  import opened PowerModel
  import opened UtilDistributor
  import opened GroupSearch
  import opened AllocationExport

  class Planner {
    const setup: LabSetup
    /** Arrival rate, throughput coefficients and per-server power coefficients. */
    const cl: Cluster
    const groupUtilLow: array<real>
    const groupUtilHigh: array<real>
    const groupUtilTemp: array<real>
    const groupUtilFinal: array<real>
    var minPower: real
    /** Every leaf evaluated so far, in order, with its power (specification only). */
    ghost var leaves: seq<Leaf>
    var serverUtil: seq<seq<real>>
    var speeds: map<int, ServerSpeed>

    /** Three groups, with four distinct arrays of one entry per group. */
    ghost predicate Valid()
    {
      ValidCluster(cl) && |cl.c| == Groups &&
      groupUtilLow.Length == Groups && groupUtilHigh.Length == Groups &&
      groupUtilTemp.Length == Groups && groupUtilFinal.Length == Groups &&
      groupUtilLow != groupUtilHigh && groupUtilLow != groupUtilTemp && groupUtilLow != groupUtilFinal &&
      groupUtilHigh != groupUtilTemp && groupUtilHigh != groupUtilFinal && groupUtilTemp != groupUtilFinal
    }

    /** The setup lists one server per power coefficient pair of the cluster. */
    ghost predicate Matched()
    {
      Matches(setup, cl)
    }

    /** The search state the object holds. */
    ghost function Snapshot(): (s: State)
      requires Valid()
      reads this, groupUtilLow, groupUtilHigh, groupUtilTemp, groupUtilFinal
      ensures Shaped(cl, s)
    {
      State(groupUtilLow[..], groupUtilHigh[..], groupUtilTemp[..], groupUtilFinal[..], minPower, leaves)
    }

    /** Builds the power coefficient lists and the throughput coefficients c_g = FLOPS_g / 10;
        every array starts at Java's default 0. */
    constructor (ls: LabSetup)
      requires ValidSetup(ls)
      ensures Valid() && Matched() && setup == ls && cl == ClusterOf(ls)
      ensures fresh(groupUtilLow) && fresh(groupUtilHigh) && fresh(groupUtilTemp) && fresh(groupUtilFinal)
      ensures Snapshot() == State(Filled(Groups, 0.0), Filled(Groups, 0.0), Filled(Groups, 0.0), Filled(Groups, 0.0), 0.0, [])
      ensures serverUtil == [] && speeds == map[]
    {
      var alphas: seq<seq<real>> := [];
      var betas: seq<seq<real>> := [];
      for i := 0 to Groups
        invariant alphas == Listing(ls.alphas, ls.serverGroup, i) && betas == Listing(ls.betas, ls.serverGroup, i)
      {
        var pairsA: seq<real> := [];
        var pairsB: seq<real> := [];
        for j := 0 to |ls.serverGroup[i]|
          invariant pairsA == ls.alphas[i][..j] && pairsB == ls.betas[i][..j]
        {
          pairsA := pairsA + [ls.alphas[i][j]];
          pairsB := pairsB + [ls.betas[i][j]];
          assert ls.alphas[i][..j + 1] == ls.alphas[i][..j] + [ls.alphas[i][j]];
          assert ls.betas[i][..j + 1] == ls.betas[i][..j] + [ls.betas[i][j]];
        }
        alphas := alphas + [pairsA];
        betas := betas + [pairsB];
      }
      setup := ls;
      cl := Cluster(ls.arrivalRate, [ls.flops[0] / 10.0, ls.flops[1] / 10.0, ls.flops[2] / 10.0], alphas, betas);
      groupUtilLow := new real[Groups](_ => 0.0);
      groupUtilHigh := new real[Groups](_ => 0.0);
      groupUtilTemp := new real[Groups](_ => 0.0);
      groupUtilFinal := new real[Groups](_ => 0.0);
      minPower := 0.0;
      leaves := [];
      serverUtil := [];
      speeds := map[];
      new;
      assert cl == ClusterOf(ls);
      assert groupUtilLow[..] == Filled(Groups, 0.0) && groupUtilHigh[..] == Filled(Groups, 0.0);
      assert groupUtilTemp[..] == Filled(Groups, 0.0) && groupUtilFinal[..] == Filled(Groups, 0.0);
    }

    /** Adds the all-UtilMax power of every server to minPower and sets the bounds to
        n * UtilMin and n * UtilMax and the tentative values to 0. */
    method Initialize()
      requires Valid()
      modifies this`minPower, groupUtilLow, groupUtilHigh, groupUtilTemp
      ensures groupUtilLow[..] == GroupTotals(cl, UtilMin) && groupUtilHigh[..] == GroupTotals(cl, UtilMax)
      ensures groupUtilTemp[..] == Filled(Groups, 0.0) && minPower == old(minPower) + Baseline(cl)
    {
      for i := 0 to Groups
        invariant minPower == old(minPower) + BaselineUpTo(cl, i)
      {
        var n := Size(cl, i);
        ghost var full := Filled(n, UtilMax);
        for j := 0 to n
          invariant minPower == old(minPower) + BaselineUpTo(cl, i) + GroupPower(cl.alphas[i], cl.betas[i], full, j)
        {
          assert full[j] == UtilMax;
          minPower := minPower + ServerPower(cl.alphas[i][j], cl.betas[i][j], UtilMax);
        }
      }
      for i := 0 to Groups
        invariant forall g :: 0 <= g < i ==>
          groupUtilLow[g] == Size(cl, g) as real * UtilMin && groupUtilHigh[g] == Size(cl, g) as real * UtilMax &&
          groupUtilTemp[g] == 0.0
        invariant minPower == old(minPower) + Baseline(cl)
      {
        groupUtilLow[i] := Size(cl, i) as real * UtilMin;
        groupUtilHigh[i] := Size(cl, i) as real * UtilMax;
        groupUtilTemp[i] := 0.0;
      }
      assert groupUtilLow[..] == GroupTotals(cl, UtilMin);
      assert groupUtilHigh[..] == GroupTotals(cl, UtilMax);
      assert groupUtilTemp[..] == Filled(Groups, 0.0);
    }

    /** The rate left for group i once the groups below it sit at `bound` and the groups above
        it at their tentative values, over c_i. */
    method RemainingRate(bound: array<real>, i: nat) returns (right: real)
      requires Valid() && 0 < i < Groups && (bound == groupUtilLow || bound == groupUtilHigh)
      ensures right == Residual(cl, bound[..], groupUtilTemp[..], i)
    {
      right := cl.rate;
      for j := 0 to i
        invariant right == cl.rate - WeightedSum(cl.c, bound[..], 0, j)
      {
        right := right - cl.c[j] * bound[j];
      }
      for j := i + 1 to Groups
        invariant right == cl.rate - WeightedSum(cl.c, bound[..], 0, i) - WeightedSum(cl.c, groupUtilTemp[..], i + 1, j)
      {
        right := right - cl.c[j] * groupUtilTemp[j];
      }
      right := right / cl.c[i];
    }

    /** Level i > 0 on entry: low_i from the highs below, high_i from the new lows below, and
        group i tentatively at round(low_i). */
    method PropagateBounds(i: nat)
      requires Valid() && 0 < i < Groups
      modifies groupUtilLow, groupUtilHigh, groupUtilTemp
      ensures Snapshot() == Enter(cl, old(Snapshot()), i)
    {
      var left := Size(cl, i) as real * UtilMin;
      var right := RemainingRate(groupUtilHigh, i);
      groupUtilLow[i] := if left > right then left else right;
      left := Size(cl, i) as real * UtilMax;
      right := RemainingRate(groupUtilLow, i);
      groupUtilHigh[i] := if left < right then left else right;
      groupUtilTemp[i] := Round(groupUtilLow[i]);
    }

    /** The distributor for group g: its tentative value spread over its servers, or the error
        when the value exceeds the group's capacity. */
    method UtilDistribute(g: nat) returns (r: Result<array<real>>)
      requires Valid() && g < Groups
      ensures r.Ok? ==> fresh(r.value) && Distribute(Size(cl, g), groupUtilTemp[g]) == Ok(r.value[..])
      ensures r.Err? ==> Distribute(Size(cl, g), groupUtilTemp[g]) == Err(r.error)
    {
      var utilTemp := groupUtilTemp[g];
      var n := Size(cl, g);
      var util := new real[n](_ => 0.0);
      var totalMin := n as real * UtilMin;
      var totalMax := n as real * UtilMax;
      if utilTemp > totalMax {
        return Err(UtilOutOfRange);
      } else if utilTemp < totalMin {
        forall q | 0 <= q < n {
          util[q] := UtilMin;
        }
        assert util[..] == Filled(n, UtilMin);
      } else {
        var m := ((utilTemp - totalMin) / (UtilMax - UtilMin)).Floor as real;
        ghost var sat := Saturated(n, utilTemp);
        assert m == sat as real;
        for q := 1 to n + 1
          invariant forall p :: 0 <= p < q - 1 ==> util[p] == Share(n, utilTemp, sat, p)
        {
          if q as real <= m {
            util[q - 1] := UtilMax;
          } else if q as real > m + 1.0 {
            util[q - 1] := UtilMin;
          } else {
            util[q - 1] := utilTemp - m * UtilMax - (n as real - m - 1.0) * UtilMin;
          }
        }
        assert util[..] == seq(n, k => Share(n, utilTemp, sat, k));
      }
      return Ok(util);
    }

    /** The power of the tentative vector: every group distributed and every server's linear
        power summed; a distributor error aborts. */
    method TentativePower() returns (r: Result<real>)
      requires Valid()
      ensures r == LeafPower(cl, groupUtilTemp[..])
    {
      var power := 0.0;
      for j := 0 to Groups
        invariant PowerUpTo(cl, groupUtilTemp[..], j) == Ok(power)
      {
        var util := UtilDistribute(j);
        if util.Err? {
          PowerUpToErrPersists(cl, groupUtilTemp[..], j + 1, Groups);
          return Err(util.error);
        }
        ghost var before := power;
        var n := Size(cl, j);
        for q := 0 to n
          invariant power == before + GroupPower(cl.alphas[j], cl.betas[j], util.value[..], q)
        {
          power := power + ServerPower(cl.alphas[j][q], cl.betas[j][q], util.value[q]);
        }
      }
      return Ok(power);
    }

    /** The leaf: group 0 solved from the others and rounded; outside [low_0, high_0] the
        search fails, otherwise the vector is kept when its power is at most minPower. */
    method SolveLeaf() returns (r: Outcome)
      requires Valid()
      modifies groupUtilTemp, groupUtilFinal, this`minPower, this`leaves
      ensures EvaluateLeaf(cl, old(Snapshot())).Ok? ==> r == Pass && Snapshot() == EvaluateLeaf(cl, old(Snapshot())).value
      ensures EvaluateLeaf(cl, old(Snapshot())).Err? ==> r == Fail(EvaluateLeaf(cl, old(Snapshot())).error)
    {
      ghost var s0 := Snapshot();
      ghost var entry := groupUtilTemp[..];
      groupUtilTemp[0] := cl.rate;
      for j := 1 to Groups
        invariant groupUtilTemp[0] == cl.rate - WeightedSum(cl.c, entry, 1, j)
        invariant forall g :: 1 <= g < Groups ==> groupUtilTemp[g] == entry[g]
        invariant groupUtilFinal[..] == s0.final && minPower == s0.minPower && leaves == s0.leaves
      {
        groupUtilTemp[0] := groupUtilTemp[0] - cl.c[j] * groupUtilTemp[j];
      }
      groupUtilTemp[0] := Round(groupUtilTemp[0] / cl.c[0]);
      ghost var v := entry[0 := FreeValue(cl, entry)];
      assert groupUtilTemp[..] == v;
      if groupUtilTemp[0] < groupUtilLow[0] || groupUtilTemp[0] > groupUtilHigh[0] {
        return Fail(NotFeasible);
      }
      var power := TentativePower();
      if power.Err? {
        return Fail(power.error);
      }
      assert LeafPower(cl, v) == Ok(power.value);
      leaves := leaves + [Leaf(groupUtilTemp[..], power.value)];
      if power.value <= minPower {
        minPower := power.value;
        forall g | 0 <= g < Groups {
          groupUtilFinal[g] := groupUtilTemp[g];
        }
        assert groupUtilFinal[..] == v;
        assert Snapshot() == s0.(temp := v, leaves := s0.leaves + [Leaf(v, power.value)], minPower := power.value, final := v);
      } else {
        assert Snapshot() == s0.(temp := v, leaves := s0.leaves + [Leaf(v, power.value)]);
      }
      return Pass;
    }

    /** findGroupUtilization(i): the recursive vertex search from group i down to group 0. */
    method FindGroupUtilization(i: nat) returns (r: Outcome)
      requires Valid() && i < Groups
      modifies groupUtilLow, groupUtilHigh, groupUtilTemp, groupUtilFinal, this`minPower, this`leaves
      ensures Search(cl, old(Snapshot()), i).Ok? ==> r == Pass && Snapshot() == Search(cl, old(Snapshot()), i).value
      ensures Search(cl, old(Snapshot()), i).Err? ==> r == Fail(Search(cl, old(Snapshot()), i).error)
      decreases i
    {
      if i > 0 {
        ghost var s0 := Snapshot();
        PropagateBounds(i);
        ghost var s2 := Snapshot();
        r := FindGroupUtilization(i - 1);
        if r.Fail? {
          return;
        }
        ghost var s3 := Snapshot();
        groupUtilTemp[i] := Round(groupUtilHigh[i]);
        assert Snapshot() == Switch(cl, s3, i);
        r := FindGroupUtilization(i - 1);
      } else {
        r := SolveLeaf();
      }
    }
  
    /** The first export step of the constructor: copy the best vector into the tentative
        array and distribute every group over its servers. */
    method DistributeFinal() returns (r: Outcome)
      requires Valid() && serverUtil == []
      modifies groupUtilTemp, this`serverUtil
      ensures groupUtilTemp[..] == groupUtilFinal[..]
      ensures DistributeAll(cl, groupUtilFinal[..]).Ok? ==> r == Pass && serverUtil == DistributeAll(cl, groupUtilFinal[..]).value
      ensures r == Pass ==> (Matched() ==> Fits(setup, serverUtil))
      ensures DistributeAll(cl, groupUtilFinal[..]).Err? ==> r == Fail(DistributeAll(cl, groupUtilFinal[..]).error)
    {
      forall g | 0 <= g < Groups {
        groupUtilTemp[g] := groupUtilFinal[g];
      }
      assert groupUtilTemp[..] == groupUtilFinal[..];
      for i := 0 to Groups
        invariant DistributeUpTo(cl, groupUtilTemp[..], i) == Ok(serverUtil)
        invariant groupUtilTemp[..] == groupUtilFinal[..]
      {
        var util := UtilDistribute(i);
        if util.Err? {
          DistributeUpToErrPersists(cl, groupUtilTemp[..], i + 1, Groups);
          return Fail(util.error);
        }
        serverUtil := serverUtil + [util.value[..]];
      }
      return Pass;
    }

    /** The second export step: one speed record per listed server, put in group and server order. */
    method PutSpeeds()
      requires Matched() && Fits(setup, serverUtil) && speeds == map[]
      modifies this`speeds
      ensures speeds == SpeedMap(setup, serverUtil)
    {
      for i := 0 to Groups
        invariant speeds == ExportUpTo(setup, serverUtil, i, 0)
      {
        for j := 0 to |setup.serverGroup[i]|
          invariant speeds == ExportUpTo(setup, serverUtil, i, j)
        {
          speeds := speeds[setup.serverGroup[i][j] := ServerSpeed(serverUtil[i][j] / 100.0, setup.flops[i],
                                                                  setup.alphas[i][j], setup.alphas[i][j] + setup.betas[i][j])];
        }
      }
    }

    /** The constructor from the point where the coefficients are set: initialize, search
        from the top group, then export the best vector. */
    method Run() returns (r: Result<Allocation>)
      requires Valid() && Matched() && serverUtil == [] && speeds == map[]
      requires Snapshot() == State(Filled(Groups, 0.0), Filled(Groups, 0.0), Filled(Groups, 0.0), Filled(Groups, 0.0), 0.0, [])
      modifies groupUtilLow, groupUtilHigh, groupUtilTemp, groupUtilFinal, this`minPower, this`leaves
      modifies this`serverUtil, this`speeds
      ensures r == PlanSpec(setup, cl)
    {
      Initialize();
      ghost var s0 := Snapshot();
      assert s0 == InitialState(cl);
      var o := FindGroupUtilization(Groups - 1);
      if o.Fail? {
        return Err(o.error);
      }
      ghost var s := Search(cl, s0, Groups - 1).value;
      o := DistributeFinal();
      if o.Fail? {
        return Err(o.error);
      }
      PutSpeeds();
      r := Ok(Allocation(groupUtilFinal[..], minPower, serverUtil, speeds));
      assert r == Publish(setup, cl, s.final, s.minPower);
    }
  }

  /** new SunuwarUNL(): build the planner from the lab setup, then initialize, search and
      export; either exception aborts the construction. */
  method Plan(ls: LabSetup) returns (r: Result<Allocation>)
    requires ValidSetup(ls)
    ensures r == PlanSpec(ls, ClusterOf(ls))
  {
    var p := new Planner(ls);
    r := p.Run();
  }
}
