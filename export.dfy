/** The planner's configuration and its result: the lab setup it reads, the per-server
    utilizations of the best vector, and the per-server speed records it publishes. */
module AllocationExport {
  import opened Outcomes
  import opened PowerModel
  import opened UtilDistributor
  import opened GroupSearch

  /** The static lab configuration: server IDs per group, per-server power coefficients,
      per-group FLOPS and the job arrival rate. */
  datatype LabSetup = LabSetup(serverGroup: seq<seq<int>>, alphas: seq<seq<real>>, betas: seq<seq<real>>,
                               flops: seq<real>, arrivalRate: real)

  /** The planner sets exactly three throughput coefficients, so it runs on three groups. */
  const Groups: nat := 3

  /** The setups the model covers: exactly three FLOPS entries (the coefficients are set for
      indices 0..2 only), positive FLOPS (doubles would turn a zero capacity into an infinity
      or NaN, which reals cannot express, and a negative capacity has no meaning), and power
      coefficients for every listed server. */
  predicate ValidSetup(ls: LabSetup)
  {
    |ls.flops| == Groups && |ls.serverGroup| >= Groups && |ls.alphas| >= Groups && |ls.betas| >= Groups &&
    forall g :: 0 <= g < Groups ==>
      ls.flops[g] > 0.0 && |ls.alphas[g]| >= |ls.serverGroup[g]| && |ls.betas[g]| >= |ls.serverGroup[g]|
  }

  /** The cluster the planner builds: c_g = FLOPS_g / 10 and one (alpha, beta) pair per listed server. */
  function ClusterOf(ls: LabSetup): (cl: Cluster)
    requires ValidSetup(ls)
    ensures Matches(ls, cl) && cl.rate == ls.arrivalRate
    ensures forall g :: 0 <= g < Groups ==>
      cl.c[g] == ls.flops[g] / 10.0 && Size(cl, g) == |ls.serverGroup[g]| &&
      (forall j :: 0 <= j < Size(cl, g) ==> cl.alphas[g][j] == ls.alphas[g][j] && cl.betas[g][j] == ls.betas[g][j])
  {
    Cluster(ls.arrivalRate, [ls.flops[0] / 10.0, ls.flops[1] / 10.0, ls.flops[2] / 10.0],
            Listing(ls.alphas, ls.serverGroup, Groups), Listing(ls.betas, ls.serverGroup, Groups))
  }

  /** Rows 0 .. g-1 of a coefficient table, each cut to the servers listed in its group. */
  function Listing(table: seq<seq<real>>, ids: seq<seq<int>>, g: nat): (r: seq<seq<real>>)
    requires g <= |table| && g <= |ids| && forall h :: 0 <= h < g ==> |table[h]| >= |ids[h]|
    ensures |r| == g && forall h :: 0 <= h < g ==> r[h] == table[h][..|ids[h]|]
  {
    if g == 0 then [] else Listing(table, ids, g - 1) + [table[g - 1][..|ids[g - 1]|]]
  }

  // ---------------------------------------------------------------------------------------
  // Distributing the best vector over the servers.

  /** Groups 0 .. g-1 of v, each distributed over its servers; the first group above its
      capacity aborts with the distributor's error. */
  function DistributeUpTo(cl: Cluster, v: seq<real>, g: nat): (r: Result<seq<seq<real>>>)
    requires ValidCluster(cl) && |v| == |cl.c| && g <= |cl.c|
    ensures r.Ok? ==> |r.value| == g && forall h :: 0 <= h < g ==> |r.value[h]| == Size(cl, h)
  {
    if g == 0 then Ok([])
    else
      match DistributeUpTo(cl, v, g - 1)
      case Err(e) => Err(e)
      case Ok(us) =>
        match Distribute(Size(cl, g - 1), v[g - 1])
        case Err(e) => Err(e)
        case Ok(d) => Ok(us + [d])
  }

  function DistributeAll(cl: Cluster, v: seq<real>): Result<seq<seq<real>>>
    requires ValidCluster(cl) && |v| == |cl.c|
  {
    DistributeUpTo(cl, v, |cl.c|)
  }

  /** Distribution succeeds exactly when no group's value exceeds its capacity, and then row h
      is group h's distribution. */
  lemma {:induction false} DistributeUpToOk(cl: Cluster, v: seq<real>, g: nat)
    requires ValidCluster(cl) && |v| == |cl.c| && g <= |cl.c|
    ensures DistributeUpTo(cl, v, g).Ok? <==> forall h :: 0 <= h < g ==> v[h] <= Size(cl, h) as real * UtilMax
    ensures DistributeUpTo(cl, v, g).Ok? ==>
      forall h :: 0 <= h < g ==> Distribute(Size(cl, h), v[h]) == Ok(DistributeUpTo(cl, v, g).value[h])
    decreases g
  {
    if g > 0 {
      DistributeUpToOk(cl, v, g - 1);
      DistributeFailsIff(Size(cl, g - 1), v[g - 1]);
    }
  }

  /** Once a group aborts the distribution, distributing more groups aborts with the same error. */
  lemma {:induction false} DistributeUpToErrPersists(cl: Cluster, v: seq<real>, j: nat, g: nat)
    requires ValidCluster(cl) && |v| == |cl.c| && j <= g <= |cl.c|
    requires DistributeUpTo(cl, v, j).Err?
    ensures DistributeUpTo(cl, v, g) == DistributeUpTo(cl, v, j)
    decreases g
  {
    if g > j {
      DistributeUpToErrPersists(cl, v, j, g - 1);
    }
  }

  /** A failed distribution always reports the distributor's error. */
  lemma {:induction false} DistributeUpToError(cl: Cluster, v: seq<real>, g: nat)
    requires ValidCluster(cl) && |v| == |cl.c| && g <= |cl.c|
    ensures DistributeUpTo(cl, v, g).Err? ==> DistributeUpTo(cl, v, g).error == UtilOutOfRange
    decreases g
  {
    if g > 0 {
      DistributeUpToError(cl, v, g - 1);
      DistributeFailsIff(Size(cl, g - 1), v[g - 1]);
    }
  }

  // ---------------------------------------------------------------------------------------
  // The exported speed records.

  /** One exported record: utilization as a fraction, group FLOPS, alpha, and alpha + beta. */
  datatype ServerSpeed = ServerSpeed(fraction: real, flops: real, alpha: real, alphaBeta: real)

  /** serverUtil has one row per group and one entry per listed server. */
  predicate Fits(ls: LabSetup, su: seq<seq<real>>)
  {
    |su| == Groups && |ls.serverGroup| >= Groups && forall g :: 0 <= g < Groups ==> |su[g]| == |ls.serverGroup[g]|
  }

  predicate Listed(ls: LabSetup, g: int, j: int)
  {
    0 <= g < Groups && g < |ls.serverGroup| && 0 <= j < |ls.serverGroup[g]|
  }

  /** The record of server j of group g. */
  function Speed(ls: LabSetup, su: seq<seq<real>>, g: nat, j: nat): ServerSpeed
    requires ValidSetup(ls) && Fits(ls, su) && Listed(ls, g, j)
  {
    ServerSpeed(su[g][j] / 100.0, ls.flops[g], ls.alphas[g][j], ls.alphas[g][j] + ls.betas[g][j])
  }

  /** Server (h, q) is put before the loops reach server j of group g. */
  predicate Before(ls: LabSetup, h: int, q: int, g: int, j: int)
  {
    Listed(ls, h, q) && (h < g || (h == g && q < j))
  }

  /** The speeds map once the export loops have put every server of groups 0 .. g-1 and the
      first j servers of group g; a later put under the same ID replaces the earlier one. */
  function ExportUpTo(ls: LabSetup, su: seq<seq<real>>, g: nat, j: nat): map<int, ServerSpeed>
    requires ValidSetup(ls) && Fits(ls, su) && g <= Groups && (g < Groups ==> j <= |ls.serverGroup[g]|)
    requires g == Groups ==> j == 0
    decreases g, j
  {
    if j == 0 then
      if g == 0 then map[] else ExportUpTo(ls, su, g - 1, |ls.serverGroup[g - 1]|)
    else
      ExportUpTo(ls, su, g, j - 1)[ls.serverGroup[g][j - 1] := Speed(ls, su, g, j - 1)]
  }

  /** The speeds map the export loops build. */
  function SpeedMap(ls: LabSetup, su: seq<seq<real>>): map<int, ServerSpeed>
    requires ValidSetup(ls) && Fits(ls, su)
  {
    ExportUpTo(ls, su, Groups, 0)
  }

  /** The keys put so far are exactly the IDs of the servers visited, and each key holds the
      record of some visited server listed under it. */
  lemma {:induction false} ExportUpToContents(ls: LabSetup, su: seq<seq<real>>, g: nat, j: nat)
    requires ValidSetup(ls) && Fits(ls, su) && g <= Groups && (g < Groups ==> j <= |ls.serverGroup[g]|)
    requires g == Groups ==> j == 0
    ensures forall id :: id in ExportUpTo(ls, su, g, j) <==>
      exists h, q :: Before(ls, h, q, g, j) && ls.serverGroup[h][q] == id
    ensures forall id :: id in ExportUpTo(ls, su, g, j) ==>
      exists h, q :: Before(ls, h, q, g, j) && ls.serverGroup[h][q] == id && ExportUpTo(ls, su, g, j)[id] == Speed(ls, su, h, q)
    decreases g, j
  {
    var m := ExportUpTo(ls, su, g, j);
    if j == 0 {
      if g > 0 {
        var n := |ls.serverGroup[g - 1]|;
        ExportUpToContents(ls, su, g - 1, n);
        assert forall h, q :: Before(ls, h, q, g, 0) <==> Before(ls, h, q, g - 1, n);
      }
    } else {
      ExportUpToContents(ls, su, g, j - 1);
      var prev := ExportUpTo(ls, su, g, j - 1);
      var id0 := ls.serverGroup[g][j - 1];
      assert m == prev[id0 := Speed(ls, su, g, j - 1)];
      assert Before(ls, g, j - 1, g, j);
      forall id
        ensures id in m <==> exists h, q :: Before(ls, h, q, g, j) && ls.serverGroup[h][q] == id
      {
        if id != id0 {
          assert id in m <==> id in prev;
          assert forall h, q :: Before(ls, h, q, g, j) && ls.serverGroup[h][q] == id ==> Before(ls, h, q, g, j - 1);
        }
      }
      forall id | id in m
        ensures exists h, q :: Before(ls, h, q, g, j) && ls.serverGroup[h][q] == id && m[id] == Speed(ls, su, h, q)
      {
        if id == id0 {
          assert ls.serverGroup[g][j - 1] == id && m[id] == Speed(ls, su, g, j - 1);
        } else {
          assert id in prev && m[id] == prev[id];
          var h, q :| Before(ls, h, q, g, j - 1) && ls.serverGroup[h][q] == id && prev[id] == Speed(ls, su, h, q);
          assert Before(ls, h, q, g, j);
        }
      }
    }
  }

  /** Every exported key is a listed server ID and vice versa, and every record is the record
      of some server listed under its key. */
  lemma SpeedMapContents(ls: LabSetup, su: seq<seq<real>>)
    requires ValidSetup(ls) && Fits(ls, su)
    ensures forall id :: id in SpeedMap(ls, su) <==> exists g, j :: Listed(ls, g, j) && ls.serverGroup[g][j] == id
    ensures forall id :: id in SpeedMap(ls, su) ==>
      exists g, j :: Listed(ls, g, j) && ls.serverGroup[g][j] == id && SpeedMap(ls, su)[id] == Speed(ls, su, g, j)
  {
    ExportUpToContents(ls, su, Groups, 0);
    assert forall h, q :: Before(ls, h, q, Groups, 0) <==> Listed(ls, h, q);
  }

  /** No ID is listed twice. */
  ghost predicate DistinctIds(ls: LabSetup)
  {
    forall g, j, g', j' :: Listed(ls, g, j) && Listed(ls, g', j') && (g != g' || j != j') ==>
      ls.serverGroup[g][j] != ls.serverGroup[g'][j']
  }

  /** With distinct IDs every listed server is exported under its own ID with its own record. */
  lemma ExportedServer(ls: LabSetup, su: seq<seq<real>>, g: nat, j: nat)
    requires ValidSetup(ls) && Fits(ls, su) && DistinctIds(ls) && Listed(ls, g, j)
    ensures ls.serverGroup[g][j] in SpeedMap(ls, su) && SpeedMap(ls, su)[ls.serverGroup[g][j]] == Speed(ls, su, g, j)
  {
    SpeedMapContents(ls, su);
    var id := ls.serverGroup[g][j];
    assert id in SpeedMap(ls, su);
    var h, q :| Listed(ls, h, q) && ls.serverGroup[h][q] == id && SpeedMap(ls, su)[id] == Speed(ls, su, h, q);
  }

  // ---------------------------------------------------------------------------------------
  // The whole planner.

  /** What the planner publishes: the best group vector, its power, the per-server utilizations and
      the speed records keyed by server ID. */
  datatype Allocation = Allocation(groupUtil: seq<real>, minPower: real, serverUtil: seq<seq<real>>,
                                   speeds: map<int, ServerSpeed>)

  /** A cluster that fits the setup: three valid groups, one power coefficient pair per
      listed server. */
  predicate Matches(ls: LabSetup, cl: Cluster)
  {
    ValidSetup(ls) && ValidCluster(cl) && |cl.c| == Groups &&
    forall g :: 0 <= g < Groups ==> Size(cl, g) == |ls.serverGroup[g]|
  }

  /** The export stage of the constructor: distribute every group of the best vector over its
      servers and put one speed record per server. */
  function Publish(ls: LabSetup, cl: Cluster, v: seq<real>, p: real): Result<Allocation>
    requires Matches(ls, cl) && |v| == Groups
  {
    match DistributeAll(cl, v)
    case Err(e) => Err(e)
    case Ok(su) => Ok(Allocation(v, p, su, SpeedMap(ls, su)))
  }

  /** The export fails exactly when some group's value exceeds its capacity. */
  lemma PublishOk(ls: LabSetup, cl: Cluster, v: seq<real>, p: real)
    requires Matches(ls, cl) && |v| == Groups
    ensures Publish(ls, cl, v, p).Ok? <==> forall g :: 0 <= g < Groups ==> v[g] <= Size(cl, g) as real * UtilMax
    ensures Publish(ls, cl, v, p).Err? ==> Publish(ls, cl, v, p).error == UtilOutOfRange
  {
    DistributeUpToOk(cl, v, Groups);
    if DistributeAll(cl, v).Err? {
      var g :| 0 <= g < Groups && v[g] > Size(cl, g) as real * UtilMax;
      DistributeFailsIff(Size(cl, g), v[g]);
      DistributeUpToError(cl, v, Groups);
    }
  }

  /** A successful export publishes the best vector and its power, and for every group the
      distribution of its value; the keys are exactly the listed IDs. */
  lemma PublishContents(ls: LabSetup, cl: Cluster, v: seq<real>, p: real)
    requires Matches(ls, cl) && |v| == Groups
    requires Publish(ls, cl, v, p).Ok?
    ensures var a := Publish(ls, cl, v, p).value;
      a.groupUtil == v && a.minPower == p && Fits(ls, a.serverUtil) &&
      (forall g :: 0 <= g < Groups ==> Distribute(Size(cl, g), v[g]) == Ok(a.serverUtil[g])) &&
      (forall id :: id in a.speeds <==> exists g, j :: Listed(ls, g, j) && ls.serverGroup[g][j] == id)
  {
    DistributeUpToOk(cl, v, Groups);
    SpeedMapContents(ls, DistributeAll(cl, v).value);
  }

  /** Every published record is that of a server listed under its key: its own FLOPS and
      power coefficients, and a utilization fraction between 0.3 and 1.0. */
  lemma PublishRecords(ls: LabSetup, cl: Cluster, v: seq<real>, p: real)
    requires Matches(ls, cl) && |v| == Groups
    requires Publish(ls, cl, v, p).Ok?
    ensures var a := Publish(ls, cl, v, p).value;
      Fits(ls, a.serverUtil) &&
      forall id :: id in a.speeds ==>
        exists g, j :: Listed(ls, g, j) && ls.serverGroup[g][j] == id &&
                       a.speeds[id] == Speed(ls, a.serverUtil, g, j) && 0.3 <= a.speeds[id].fraction <= 1.0
  {
    var su := DistributeAll(cl, v).value;
    DistributeUpToOk(cl, v, Groups);
    SpeedMapContents(ls, su);
    forall id | id in SpeedMap(ls, su)
      ensures exists g, j :: Listed(ls, g, j) && ls.serverGroup[g][j] == id &&
                             SpeedMap(ls, su)[id] == Speed(ls, su, g, j) && 0.3 <= SpeedMap(ls, su)[id].fraction <= 1.0
    {
      var g, j :| Listed(ls, g, j) && ls.serverGroup[g][j] == id && SpeedMap(ls, su)[id] == Speed(ls, su, g, j);
      SpeedFraction(ls, cl, v, su, g, j);
    }
  }

  /** A distributed server runs between 30 and 100 percent, so its fraction is in [0.3, 1.0]. */
  lemma SpeedFraction(ls: LabSetup, cl: Cluster, v: seq<real>, su: seq<seq<real>>, g: nat, j: nat)
    requires Matches(ls, cl) && |v| == Groups && DistributeAll(cl, v) == Ok(su) && Listed(ls, g, j)
    ensures Fits(ls, su) && 0.3 <= Speed(ls, su, g, j).fraction <= 1.0
  {
    DistributeUpToOk(cl, v, Groups);
    DistributeBounds(Size(cl, g), v[g]);
  }

  /** Server id of group g, slot j is published with its coefficient alpha and its full-load
      power alpha + beta, and with a non-negative alpha that power bounds the power at the
      published utilization. */
  predicate PowerRecord(ls: LabSetup, a: Allocation, id: int, g: int, j: int)
    requires ValidSetup(ls) && id in a.speeds
  {
    Listed(ls, g, j) && ls.serverGroup[g][j] == id &&
    a.speeds[id].alpha == ls.alphas[g][j] &&
    a.speeds[id].alphaBeta == ServerPower(ls.alphas[g][j], ls.betas[g][j], UtilMax) &&
    (ls.alphas[g][j] >= 0.0 ==>
       ServerPower(ls.alphas[g][j], ls.betas[g][j], 100.0 * a.speeds[id].fraction) <= a.speeds[id].alphaBeta)
  }

  /** Every published record carries its server's full-load power as alpha + beta, and with a
      non-negative alpha the power at the published utilization never exceeds it. */
  lemma PublishedPower(ls: LabSetup, cl: Cluster, v: seq<real>, p: real)
    requires Matches(ls, cl) && |v| == Groups
    requires Publish(ls, cl, v, p).Ok?
    ensures var a := Publish(ls, cl, v, p).value;
      forall id :: id in a.speeds ==> exists g, j :: PowerRecord(ls, a, id, g, j)
  {
    var a := Publish(ls, cl, v, p).value;
    PublishRecords(ls, cl, v, p);
    forall id | id in a.speeds
      ensures exists g, j :: PowerRecord(ls, a, id, g, j)
    {
      var g, j :| Listed(ls, g, j) && ls.serverGroup[g][j] == id &&
                  a.speeds[id] == Speed(ls, a.serverUtil, g, j) && 0.3 <= a.speeds[id].fraction <= 1.0;
      if ls.alphas[g][j] >= 0.0 {
        ServerPowerMonotone(ls.alphas[g][j], ls.betas[g][j], 100.0 * a.speeds[id].fraction, UtilMax);
      }
      assert PowerRecord(ls, a, id, g, j);
    }
  }

  /** The constructor after the coefficients are set: initialize, search from the top group,
      then export the best vector; an exception of the search or of the distributor aborts. */
  function PlanSpec(ls: LabSetup, cl: Cluster): Result<Allocation>
    requires Matches(ls, cl)
  {
    match Search(cl, InitialState(cl), Groups - 1)
    case Err(e) => Err(e)
    case Ok(s) => Publish(ls, cl, s.final, s.minPower)
  }

  /** The export never fails: construction fails exactly when the search does, with the
      search's error. */
  lemma PlanFailsOnlyInSearch(ls: LabSetup, cl: Cluster)
    requires Matches(ls, cl)
    ensures PlanSpec(ls, cl).Err? <==> Search(cl, InitialState(cl), Groups - 1).Err?
    ensures PlanSpec(ls, cl).Err? ==> PlanSpec(ls, cl).error == Search(cl, InitialState(cl), Groups - 1).error
  {
    if Search(cl, InitialState(cl), Groups - 1).Ok? {
      SearchFinalWithinCapacity(cl);
      var s := Search(cl, InitialState(cl), Groups - 1).value;
      PublishOk(ls, cl, s.final, s.minPower);
    }
  }
}
