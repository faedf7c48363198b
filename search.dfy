/** Pure specification of the planner's branch-and-bound vertex search: bound propagation for
    groups i > 0, the exact solve of group 0 at a leaf, leaf power and the best-so-far update.
    A `State` holds exactly what the Java object keeps across the recursion: the four shared
    arrays, the accumulator minPower, and (as specification only) the list of evaluated leaves. */
module GroupSearch {
  import opened Outcomes
  import opened PowerModel
  import opened UtilDistributor

  /** The planner's inputs: arrival rate, per-group throughput coefficients and per-server
      power coefficients (alphas[g][j], betas[g][j] for server j of group g). */
  datatype Cluster = Cluster(rate: real, c: seq<real>, alphas: seq<seq<real>>, betas: seq<seq<real>>)

  predicate ValidCluster(cl: Cluster)
  {
    |cl.c| >= 1 && |cl.alphas| == |cl.c| && |cl.betas| == |cl.c| &&
    forall g :: 0 <= g < |cl.c| ==> cl.c[g] > 0.0 && |cl.alphas[g]| == |cl.betas[g]|
  }

  /** Number of servers of group g. */
  function Size(cl: Cluster, g: nat): nat
    requires g < |cl.alphas|
  {
    |cl.alphas[g]|
  }

  /** One evaluated leaf: the group utilization vector and its total power. */
  datatype Leaf = Leaf(util: seq<real>, power: real)

  datatype State = State(low: seq<real>, high: seq<real>, temp: seq<real>, final: seq<real>,
                         minPower: real, leaves: seq<Leaf>)

  predicate Shaped(cl: Cluster, s: State)
  {
    |s.low| == |cl.c| && |s.high| == |cl.c| && |s.temp| == |cl.c| && |s.final| == |cl.c|
  }

  /** Java's Math.round: the nearest integer, halves rounded up. */
  function Round(x: real): (r: real)
    ensures r.Floor as real == r
    ensures x - 0.5 < r <= x + 0.5
  {
    (x + 0.5).Floor as real
  }

  /** c[lo] * v[lo] + ... + c[hi-1] * v[hi-1], accumulated in index order. */
  function WeightedSum(c: seq<real>, v: seq<real>, lo: nat, hi: nat): real
    requires lo <= hi <= |c| && hi <= |v|
    decreases hi
  {
    if lo == hi then 0.0 else WeightedSum(c, v, lo, hi - 1) + c[hi - 1] * v[hi - 1]
  }

  /** The aggregate service rate of a group utilization vector. */
  function Throughput(cl: Cluster, v: seq<real>): real
    requires |v| == |cl.c|
  {
    WeightedSum(cl.c, v, 0, |cl.c|)
  }

  /** Group i's share of the rate once groups below i sit at `bound` and groups above it at
      `temp`: (R - sum_{j<i} c_j bound_j - sum_{j>i} c_j temp_j) / c_i. */
  function Residual(cl: Cluster, bound: seq<real>, temp: seq<real>, i: nat): real
    requires ValidCluster(cl) && i < |cl.c| && |bound| == |cl.c| && |temp| == |cl.c|
  {
    (cl.rate - WeightedSum(cl.c, bound, 0, i) - WeightedSum(cl.c, temp, i + 1, |cl.c|)) / cl.c[i]
  }

  /** low_i: the residual against the other groups' highs, raised to at least n_i * UtilMin. */
  function LowBound(cl: Cluster, high: seq<real>, temp: seq<real>, i: nat): (r: real)
    requires ValidCluster(cl) && i < |cl.c| && |high| == |cl.c| && |temp| == |cl.c|
    ensures r >= Size(cl, i) as real * UtilMin && r >= Residual(cl, high, temp, i)
    ensures r == Size(cl, i) as real * UtilMin || r == Residual(cl, high, temp, i)
  {
    var left := Size(cl, i) as real * UtilMin;
    var right := Residual(cl, high, temp, i);
    if left > right then left else right
  }

  /** high_i: the residual against the other groups' lows, cut to at most n_i * UtilMax. */
  function HighBound(cl: Cluster, low: seq<real>, temp: seq<real>, i: nat): (r: real)
    requires ValidCluster(cl) && i < |cl.c| && |low| == |cl.c| && |temp| == |cl.c|
    ensures r <= Size(cl, i) as real * UtilMax && r <= Residual(cl, low, temp, i)
    ensures r == Size(cl, i) as real * UtilMax || r == Residual(cl, low, temp, i)
  {
    var left := Size(cl, i) as real * UtilMax;
    var right := Residual(cl, low, temp, i);
    if left < right then left else right
  }

  /** Power of groups 0 .. g-1 for the vector `util`, each group distributed first; the first
      group whose total exceeds its capacity aborts with the distributor's error. */
  function PowerUpTo(cl: Cluster, util: seq<real>, g: nat): Result<real>
    requires ValidCluster(cl) && |util| == |cl.c| && g <= |cl.c|
  {
    if g == 0 then Ok(0.0)
    else
      match PowerUpTo(cl, util, g - 1)
      case Err(e) => Err(e)
      case Ok(p) =>
        match Distribute(Size(cl, g - 1), util[g - 1])
        case Err(e) => Err(e)
        case Ok(d) => Ok(p + GroupPower(cl.alphas[g - 1], cl.betas[g - 1], d, Size(cl, g - 1)))
  }

  /** Total power of a leaf's group utilization vector. */
  function LeafPower(cl: Cluster, util: seq<real>): Result<real>
    requires ValidCluster(cl) && |util| == |cl.c|
  {
    PowerUpTo(cl, util, |cl.c|)
  }

  /** Power of every server at UtilMax, groups 0 .. g-1. */
  function BaselineUpTo(cl: Cluster, g: nat): real
    requires ValidCluster(cl) && g <= |cl.c|
  {
    if g == 0 then 0.0
    else BaselineUpTo(cl, g - 1)
         + GroupPower(cl.alphas[g - 1], cl.betas[g - 1], Filled(Size(cl, g - 1), UtilMax), Size(cl, g - 1))
  }

  /** The initial cost bound: the whole cluster at UtilMax. */
  function Baseline(cl: Cluster): real
    requires ValidCluster(cl)
  {
    BaselineUpTo(cl, |cl.c|)
  }

  /** Group 0's exact value at a leaf: the rate left by groups 1 .. k-1, over c_0, rounded. */
  function FreeValue(cl: Cluster, temp: seq<real>): real
    requires ValidCluster(cl) && |temp| == |cl.c|
  {
    Round((cl.rate - WeightedSum(cl.c, temp, 1, |cl.c|)) / cl.c[0])
  }

  /** A leaf (i == 0): solve group 0, fail if it leaves [low_0, high_0], otherwise evaluate power
      and keep the vector when its power is at most the best so far (so ties go to the later leaf). */
  function EvaluateLeaf(cl: Cluster, s: State): (r: Result<State>)
    requires ValidCluster(cl) && Shaped(cl, s)
    ensures r.Ok? ==> Shaped(cl, r.value) && s.leaves <= r.value.leaves
  {
    var t0 := FreeValue(cl, s.temp);
    var s1 := s.(temp := s.temp[0 := t0]);
    if t0 < s.low[0] || t0 > s.high[0] then Err(NotFeasible)
    else
      match LeafPower(cl, s1.temp)
      case Err(e) => Err(e)
      case Ok(p) =>
        var s2 := s1.(leaves := s1.leaves + [Leaf(s1.temp, p)]);
        if p <= s.minPower then Ok(s2.(minPower := p, final := s2.temp)) else Ok(s2)
  }

  /** Entering level i > 0: low_i from the residual against the highs below, high_i from the
      residual against the lows below (groups above i at their tentative values), and group i
      tentatively fixed at round(low_i). */
  function Enter(cl: Cluster, s: State, i: nat): (r: State)
    requires ValidCluster(cl) && Shaped(cl, s) && 0 < i < |cl.c|
    ensures Shaped(cl, r) && r.leaves == s.leaves
  {
    var lo := LowBound(cl, s.high, s.temp, i);
    var s1 := s.(low := s.low[i := lo]);
    var hi := HighBound(cl, s1.low, s1.temp, i);
    s1.(high := s1.high[i := hi], temp := s1.temp[i := Round(lo)])
  }

  /** Between the two branches of level i: group i refixed at round(high_i), as read back. */
  function Switch(cl: Cluster, s: State, i: nat): (r: State)
    requires Shaped(cl, s) && i < |cl.c|
    ensures Shaped(cl, r) && r.leaves == s.leaves
  {
    s.(temp := s.temp[i := Round(s.high[i])])
  }

  /** What a successful leaf does: group 0 gets its exact value inside [low_0, high_0], the
      leaf is recorded with its power, and (final, minPower) take the leaf exactly when its
      power is at most minPower, so minPower never grows; the bounds do not change. */
  lemma LeafStep(cl: Cluster, s: State)
    requires ValidCluster(cl) && Shaped(cl, s)
    requires EvaluateLeaf(cl, s).Ok?
    ensures var s' := EvaluateLeaf(cl, s).value; var v := s.temp[0 := FreeValue(cl, s.temp)];
      s.low[0] <= v[0] <= s.high[0] && LeafPower(cl, v).Ok? &&
      s'.low == s.low && s'.high == s.high && s'.temp == v &&
      s'.leaves == s.leaves + [Leaf(v, LeafPower(cl, v).value)] && s'.minPower <= s.minPower &&
      if LeafPower(cl, v).value <= s.minPower
      then s'.final == v && s'.minPower == LeafPower(cl, v).value
      else s'.final == s.final && s'.minPower == s.minPower
  {
  }

  /** findGroupUtilization(i): at i == 0 evaluate the leaf, otherwise do level i. */
  function Search(cl: Cluster, s: State, i: nat): (r: Result<State>)
    requires ValidCluster(cl) && Shaped(cl, s) && i < |cl.c|
    ensures r.Ok? ==> Shaped(cl, r.value) && s.leaves <= r.value.leaves
    decreases i, 1
  {
    if i == 0 then EvaluateLeaf(cl, s) else Level(cl, s, i)
  }

  /** Level i > 0: set low_i and high_i, then search below with group i fixed at round(low_i)
      and afterwards at round(high_i); an error anywhere aborts. */
  function Level(cl: Cluster, s: State, i: nat): (r: Result<State>)
    requires ValidCluster(cl) && Shaped(cl, s) && 0 < i < |cl.c|
    ensures r.Ok? ==> Shaped(cl, r.value) && s.leaves <= r.value.leaves
    decreases i, 0
  {
    match Search(cl, Enter(cl, s, i), i - 1)
    case Err(e) => Err(e)
    case Ok(s3) => Search(cl, Switch(cl, s3, i), i - 1)
  }

  function Pow2(i: nat): (r: nat)
    ensures r >= 1
  {
    if i == 0 then 1 else 2 * Pow2(i - 1)
  }

  // ---------------------------------------------------------------------------------------
  // The best-so-far accumulator as a left fold over the evaluated leaves.

  datatype Best = Best(util: seq<real>, power: real)

  /** Apply the leaf update `if power <= best then take the leaf` to each leaf in order. */
  function Fold(b: Best, ls: seq<Leaf>): Best
  {
    if |ls| == 0 then b
    else
      var prev := Fold(b, ls[..|ls| - 1]);
      var l := ls[|ls| - 1];
      if l.power <= prev.power then Best(l.util, l.power) else prev
  }

  lemma {:induction false} FoldAppend(b: Best, xs: seq<Leaf>, ys: seq<Leaf>)
    ensures Fold(b, xs + ys) == Fold(Fold(b, xs), ys)
  {
    if |ys| > 0 {
      FoldAppend(b, xs, ys[..|ys| - 1]);
      assert (xs + ys)[..|xs + ys| - 1] == xs + ys[..|ys| - 1];
    } else {
      assert xs + ys == xs;
    }
  }

  /** The fold's power is at most the initial bound and at most every leaf's power. */
  lemma {:induction false} FoldMinimal(b: Best, ls: seq<Leaf>)
    ensures Fold(b, ls).power <= b.power
    ensures forall t :: 0 <= t < |ls| ==> Fold(b, ls).power <= ls[t].power
  {
    if |ls| > 0 {
      FoldMinimal(b, ls[..|ls| - 1]);
      assert forall t :: 0 <= t < |ls| - 1 ==> ls[..|ls| - 1][t] == ls[t];
    }
  }

  /** The fold keeps the initial value only if every leaf is strictly worse; otherwise it is the
      LAST leaf attaining the minimum: every later leaf is strictly worse. */
  lemma {:induction false} FoldLastMinimal(b: Best, ls: seq<Leaf>)
    ensures var f := Fold(b, ls);
      (f == b && forall t :: 0 <= t < |ls| ==> ls[t].power > b.power) ||
      (exists t :: 0 <= t < |ls| && f == Best(ls[t].util, ls[t].power) &&
                   forall t' :: t < t' < |ls| ==> ls[t'].power > f.power)
  {
    if |ls| > 0 {
      var init := ls[..|ls| - 1];
      FoldLastMinimal(b, init);
      var prev := Fold(b, init);
      var l := ls[|ls| - 1];
      assert forall t :: 0 <= t < |ls| - 1 ==> init[t] == ls[t];
      if l.power <= prev.power {
        assert Fold(b, ls) == Best(ls[|ls| - 1].util, ls[|ls| - 1].power);
      } else if prev == b && forall t :: 0 <= t < |init| ==> init[t].power > b.power {
      } else {
        var t :| 0 <= t < |init| && prev == Best(init[t].util, init[t].power) &&
                 forall t' :: t < t' < |init| ==> init[t'].power > prev.power;
        assert Fold(b, ls) == Best(ls[t].util, ls[t].power);
      }
    }
  }

  // ---------------------------------------------------------------------------------------
  // Properties of the search.

  /** Group 0's bounds are never recomputed: they keep their values through the whole search. */
  lemma {:induction false} SearchKeepsGroupZero(cl: Cluster, s: State, i: nat)
    requires ValidCluster(cl) && Shaped(cl, s) && i < |cl.c|
    requires Search(cl, s, i).Ok?
    ensures Search(cl, s, i).value.low[0] == s.low[0] && Search(cl, s, i).value.high[0] == s.high[0]
    decreases i
  {
    if i > 0 {
      var s2 := Enter(cl, s, i);
      SearchKeepsGroupZero(cl, s2, i - 1);
      SearchKeepsGroupZero(cl, Switch(cl, Search(cl, s2, i - 1).value, i), i - 1);
    }
  }

  /** A search from level i leaves the bounds and tentative values of the groups above i alone. */
  lemma {:induction false} SearchKeepsAbove(cl: Cluster, s: State, i: nat)
    requires ValidCluster(cl) && Shaped(cl, s) && i < |cl.c|
    requires Search(cl, s, i).Ok?
    ensures var s' := Search(cl, s, i).value;
      forall j :: i < j < |cl.c| ==> s'.low[j] == s.low[j] && s'.high[j] == s.high[j] && s'.temp[j] == s.temp[j]
    decreases i
  {
    if i > 0 {
      var s2 := Enter(cl, s, i);
      SearchKeepsAbove(cl, s2, i - 1);
      SearchKeepsAbove(cl, Switch(cl, Search(cl, s2, i - 1).value, i), i - 1);
    }
  }

  /** Bound propagation: after a search from level i every group 1 .. i has
      low >= n * UtilMin and high <= n * UtilMax. */
  lemma {:induction false} SearchBounds(cl: Cluster, s: State, i: nat)
    requires ValidCluster(cl) && Shaped(cl, s) && i < |cl.c|
    requires Search(cl, s, i).Ok?
    ensures var s' := Search(cl, s, i).value;
      forall j :: 1 <= j <= i ==> s'.low[j] >= Size(cl, j) as real * UtilMin && s'.high[j] <= Size(cl, j) as real * UtilMax
    decreases i
  {
    if i > 0 {
      var s2 := Enter(cl, s, i);
      SearchKeepsAbove(cl, s2, i - 1);
      var s3 := Search(cl, s2, i - 1).value;
      var s4 := Switch(cl, s3, i);
      SearchKeepsAbove(cl, s4, i - 1);
      SearchBounds(cl, s4, i - 1);
      var s' := Search(cl, s4, i - 1).value;
      assert s'.low[i] == s4.low[i] == s3.low[i] == s2.low[i];
      assert s'.high[i] == s4.high[i] == s3.high[i] == s2.high[i];
    }
  }

  /** A search from level i that does not abort evaluates exactly 2^i leaves. */
  lemma {:induction false} SearchLeafCount(cl: Cluster, s: State, i: nat)
    requires ValidCluster(cl) && Shaped(cl, s) && i < |cl.c|
    requires Search(cl, s, i).Ok?
    ensures |Search(cl, s, i).value.leaves| == |s.leaves| + Pow2(i)
    decreases i
  {
    if i > 0 {
      var s2 := Enter(cl, s, i);
      SearchLeafCount(cl, s2, i - 1);
      var s3 := Search(cl, s2, i - 1).value;
      SearchLeafCount(cl, Switch(cl, s3, i), i - 1);
    }
  }

  /** Weighted sums depend only on the entries in their index range. */
  lemma {:induction false} WeightedSumFrame(c: seq<real>, v: seq<real>, w: seq<real>, lo: nat, hi: nat)
    requires lo <= hi <= |c| && hi <= |v| && hi <= |w|
    requires forall j :: lo <= j < hi ==> v[j] == w[j]
    ensures WeightedSum(c, v, lo, hi) == WeightedSum(c, w, lo, hi)
    decreases hi
  {
    if lo < hi {
      WeightedSumFrame(c, v, w, lo, hi - 1);
    }
  }

  lemma {:induction false} WeightedSumFirst(c: seq<real>, v: seq<real>, lo: nat, hi: nat)
    requires lo < hi <= |c| && hi <= |v|
    ensures WeightedSum(c, v, lo, hi) == c[lo] * v[lo] + WeightedSum(c, v, lo + 1, hi)
    decreases hi
  {
    if lo + 1 < hi {
      WeightedSumFirst(c, v, lo, hi - 1);
    }
  }

  /** With positive coefficients the weighted sum is monotone in every entry. */
  lemma {:induction false} WeightedSumMonotone(c: seq<real>, v: seq<real>, w: seq<real>, lo: nat, hi: nat)
    requires lo <= hi <= |c| && hi <= |v| && hi <= |w|
    requires forall j :: lo <= j < hi ==> c[j] > 0.0 && v[j] <= w[j]
    ensures WeightedSum(c, v, lo, hi) <= WeightedSum(c, w, lo, hi)
    decreases hi
  {
    if lo < hi {
      WeightedSumMonotone(c, v, w, lo, hi - 1);
      assert c[hi - 1] * v[hi - 1] <= c[hi - 1] * w[hi - 1];
    }
  }

  /** Solving group 0 exactly and rounding leaves the realized service rate within half a
      group-0 unit of the requested rate: R - c_0 / 2 < throughput <= R + c_0 / 2. */
  lemma LeafThroughput(cl: Cluster, temp: seq<real>)
    requires ValidCluster(cl) && |temp| == |cl.c|
    ensures var v := temp[0 := FreeValue(cl, temp)];
      cl.rate - cl.c[0] / 2.0 < Throughput(cl, v) <= cl.rate + cl.c[0] / 2.0
  {
    var k := |cl.c|;
    var v := temp[0 := FreeValue(cl, temp)];
    var w := WeightedSum(cl.c, temp, 1, k);
    WeightedSumFirst(cl.c, v, 0, k);
    WeightedSumFrame(cl.c, v, temp, 1, k);
    var c0 := cl.c[0];
    var t0 := Round((cl.rate - w) / c0);
    assert v[0] == t0;
    assert Throughput(cl, v) == cl.c[0] * v[0] + WeightedSum(cl.c, v, 1, k);
    ScaledRounding(c0, cl.rate, w, t0);
  }

  /** r, the rounding of (rate - w) / c, puts c * r + w within c / 2 of the rate. */
  lemma ScaledRounding(c: real, rate: real, w: real, r: real)
    requires c > 0.0 && (rate - w) / c - 0.5 < r <= (rate - w) / c + 0.5
    ensures rate - c / 2.0 < c * r + w <= rate + c / 2.0
  {
    var x := (rate - w) / c;
    assert c * x == rate - w;
    var d := r - x;
    assert -0.5 < d <= 0.5;
    assert c * r == c * x + c * d;
    assert -(c / 2.0) < c * d <= c / 2.0;
    assert c * r + w == rate + c * d;
  }

  /** What every evaluated leaf satisfies: group 0 within the range it was checked against,
      its power is the leaf power of its vector, and its rate is R up to rounding. */
  predicate LeafFeasible(cl: Cluster, low0: real, high0: real, l: Leaf)
    requires ValidCluster(cl)
  {
    |l.util| == |cl.c| && low0 <= l.util[0] <= high0 &&
    LeafPower(cl, l.util) == Ok(l.power) &&
    cl.rate - cl.c[0] / 2.0 < Throughput(cl, l.util) <= cl.rate + cl.c[0] / 2.0
  }

  /** Every leaf a search from level i evaluates is a full vector that keeps the entry values
      of the groups above i. */
  lemma {:induction false} SearchLeavesAbove(cl: Cluster, s: State, i: nat)
    requires ValidCluster(cl) && Shaped(cl, s) && i < |cl.c|
    requires Search(cl, s, i).Ok?
    ensures var s' := Search(cl, s, i).value;
      forall t :: |s.leaves| <= t < |s'.leaves| ==>
        |s'.leaves[t].util| == |cl.c| && forall j :: i < j < |cl.c| ==> s'.leaves[t].util[j] == s.temp[j]
    decreases i
  {
    var s' := Search(cl, s, i).value;
    if i == 0 {
      LeafStep(cl, s);
    } else {
      var s2 := Enter(cl, s, i);
      SearchLeavesAbove(cl, s2, i - 1);
      SearchKeepsAbove(cl, s2, i - 1);
      var s3 := Search(cl, s2, i - 1).value;
      var s4 := Switch(cl, s3, i);
      SearchLeavesAbove(cl, s4, i - 1);
      assert s' == Search(cl, s4, i - 1).value;
      PrefixSlices(s.leaves, s3.leaves, s'.leaves);
      forall t | |s.leaves| <= t < |s'.leaves|
        ensures |s'.leaves[t].util| == |cl.c| && forall j :: i < j < |cl.c| ==> s'.leaves[t].util[j] == s.temp[j]
      {
        if t < |s3.leaves| {
          assert s'.leaves[t] == s3.leaves[t];
          assert forall j :: i < j < |cl.c| ==> s2.temp[j] == s.temp[j];
        } else {
          assert forall j :: i < j < |cl.c| ==> s4.temp[j] == s3.temp[j] == s2.temp[j] == s.temp[j];
        }
      }
    }
  }

  /** Every leaf a search evaluates is feasible against group 0's range as it was on entry. */
  lemma {:induction false} SearchLeavesFeasible(cl: Cluster, s: State, i: nat)
    requires ValidCluster(cl) && Shaped(cl, s) && i < |cl.c|
    requires Search(cl, s, i).Ok?
    ensures var s' := Search(cl, s, i).value;
      forall t :: |s.leaves| <= t < |s'.leaves| ==> LeafFeasible(cl, s.low[0], s.high[0], s'.leaves[t])
    decreases i
  {
    var s' := Search(cl, s, i).value;
    if i == 0 {
      LeafStep(cl, s);
      LeafThroughput(cl, s.temp);
    } else {
      var s2 := Enter(cl, s, i);
      SearchLeavesFeasible(cl, s2, i - 1);
      SearchKeepsGroupZero(cl, s2, i - 1);
      var s3 := Search(cl, s2, i - 1).value;
      var s4 := Switch(cl, s3, i);
      SearchLeavesFeasible(cl, s4, i - 1);
      PrefixSlices(s.leaves, s3.leaves, Search(cl, s4, i - 1).value.leaves);
    }
  }

  /** Leaves recorded after an earlier prefix keep their positions when more are appended. */
  lemma PrefixSlices(a: seq<Leaf>, b: seq<Leaf>, c: seq<Leaf>)
    requires a <= b <= c
    ensures c[|a|..] == b[|a|..] + c[|b|..]
    ensures forall t :: |a| <= t < |b| ==> c[t] == b[t]
  {
    assert b == c[..|b|];
  }

  /** Entering level i computes low_i from the highs below i and high_i from the lows below i,
      both against the tentative values above i. */
  lemma EnterBounds(cl: Cluster, s: State, i: nat)
    requires ValidCluster(cl) && Shaped(cl, s) && 0 < i < |cl.c|
    ensures var s2 := Enter(cl, s, i);
      s2.low[i] == LowBound(cl, s.high, s.temp, i) &&
      s2.high[i] == HighBound(cl, s.low, s.temp, i) &&
      s2.temp[i] == Round(s2.low[i])
  {
    var s2 := Enter(cl, s, i);
    var s1 := s.(low := s.low[i := LowBound(cl, s.high, s.temp, i)]);
    WeightedSumFrame(cl.c, s1.low, s.low, 0, i);
    assert Residual(cl, s1.low, s1.temp, i) == Residual(cl, s.low, s.temp, i);
  }

  /** Level i > 0 keeps the bounds it computed on entry through both branches. */
  lemma SearchLevelBounds(cl: Cluster, s: State, i: nat)
    requires ValidCluster(cl) && Shaped(cl, s) && 0 < i < |cl.c|
    requires Search(cl, s, i).Ok?
    ensures var s' := Search(cl, s, i).value;
      s'.low[i] == LowBound(cl, s.high, s.temp, i) &&
      s'.high[i] == HighBound(cl, s.low, s.temp, i)
  {
    var s2 := Enter(cl, s, i);
    EnterBounds(cl, s, i);
    SearchKeepsAbove(cl, s2, i - 1);
    var s3 := Search(cl, s2, i - 1).value;
    assert s3.low[i] == s2.low[i] && s3.high[i] == s2.high[i];
    var s4 := Switch(cl, s3, i);
    SearchKeepsAbove(cl, s4, i - 1);
    var s' := Search(cl, s4, i - 1).value;
    assert s'.low[i] == s4.low[i] && s'.high[i] == s4.high[i];
  }

  /** Level i > 0 branches: the first 2^(i-1) leaves fix group i at round(low_i), the next
      2^(i-1) at round(high_i). */
  lemma SearchBranches(cl: Cluster, s: State, i: nat)
    requires ValidCluster(cl) && Shaped(cl, s) && 0 < i < |cl.c|
    requires Search(cl, s, i).Ok?
    ensures var s' := Search(cl, s, i).value; var n0 := |s.leaves|; var h := Pow2(i - 1);
      |s'.leaves| == n0 + 2 * h &&
      (forall t :: n0 <= t < n0 + h ==> |s'.leaves[t].util| == |cl.c| && s'.leaves[t].util[i] == Round(s'.low[i])) &&
      (forall t :: n0 + h <= t < n0 + 2 * h ==> |s'.leaves[t].util| == |cl.c| && s'.leaves[t].util[i] == Round(s'.high[i]))
  {
    var s2 := Enter(cl, s, i);
    EnterBounds(cl, s, i);
    SearchLeavesAbove(cl, s2, i - 1);
    SearchKeepsAbove(cl, s2, i - 1);
    SearchLeafCount(cl, s2, i - 1);
    var s3 := Search(cl, s2, i - 1).value;
    var s4 := Switch(cl, s3, i);
    SearchLeavesAbove(cl, s4, i - 1);
    SearchKeepsAbove(cl, s4, i - 1);
    SearchLeafCount(cl, s4, i - 1);
    var s' := Search(cl, s4, i - 1).value;
    PrefixSlices(s.leaves, s3.leaves, s'.leaves);
    assert s'.low[i] == s4.low[i] == s3.low[i] == s2.low[i];
    assert s'.high[i] == s4.high[i] == s3.high[i];
    assert s4.temp[i] == Round(s'.high[i]);
    forall t | |s.leaves| <= t < |s3.leaves|
      ensures |s'.leaves[t].util| == |cl.c| && s'.leaves[t].util[i] == Round(s'.low[i])
    {
      assert s'.leaves[t] == s3.leaves[t];
    }
    forall t | |s3.leaves| <= t < |s'.leaves|
      ensures |s'.leaves[t].util| == |cl.c| && s'.leaves[t].util[i] == Round(s'.high[i])
    {
    }
  }

  /** The best-so-far pair (groupUtilFinal, minPower) after a search is the left fold of the
      `<=` update over exactly the leaves that search evaluated, in order. */
  lemma {:induction false} SearchIsFold(cl: Cluster, s: State, i: nat)
    requires ValidCluster(cl) && Shaped(cl, s) && i < |cl.c|
    requires Search(cl, s, i).Ok?
    ensures var s' := Search(cl, s, i).value;
      Best(s'.final, s'.minPower) == Fold(Best(s.final, s.minPower), s'.leaves[|s.leaves|..])
    decreases i
  {
    var s' := Search(cl, s, i).value;
    if i == 0 {
      LeafStep(cl, s);
      assert s'.leaves[|s.leaves|..] == [s'.leaves[|s.leaves|]];
    } else {
      var s2 := Enter(cl, s, i);
      SearchIsFold(cl, s2, i - 1);
      var s3 := Search(cl, s2, i - 1).value;
      var s4 := Switch(cl, s3, i);
      SearchIsFold(cl, s4, i - 1);
      var ls := Search(cl, s4, i - 1).value.leaves;
      PrefixSlices(s.leaves, s3.leaves, ls);
      FoldAppend(Best(s.final, s.minPower), s3.leaves[|s.leaves|..], ls[|s3.leaves|..]);
    }
  }

  // ---------------------------------------------------------------------------------------
  // The whole search, from the state `initialize` leaves.

  /** After `initialize`: bounds at n * UtilMin and n * UtilMax, tentative and final vectors at
      Java's default 0, minPower at the all-UtilMax baseline, no leaf evaluated yet. */
  function InitialState(cl: Cluster): (s: State)
    requires ValidCluster(cl)
    ensures Shaped(cl, s)
  {
    State(GroupTotals(cl, UtilMin), GroupTotals(cl, UtilMax),
          Filled(|cl.c|, 0.0), Filled(|cl.c|, 0.0), Baseline(cl), [])
  }

  /** n_g * x for every group g. */
  function GroupTotals(cl: Cluster, x: real): seq<real>
    requires ValidCluster(cl)
  {
    seq(|cl.c|, g requires 0 <= g < |cl.c| => Size(cl, g) as real * x)
  }

  /** The search from the top group either aborts or evaluates all 2^(k-1) vertices, each
      feasible, and ends with minPower the minimum of the baseline and every leaf's power and
      groupUtilFinal either still the zero vector (every leaf dearer than the baseline) or the
      vector of the last leaf that attains the minimum. */
  lemma SearchOutcome(cl: Cluster)
    requires ValidCluster(cl)
    requires Search(cl, InitialState(cl), |cl.c| - 1).Ok?
    ensures var s := Search(cl, InitialState(cl), |cl.c| - 1).value;
      |s.leaves| == Pow2(|cl.c| - 1) &&
      (forall t :: 0 <= t < |s.leaves| ==>
         LeafFeasible(cl, Size(cl, 0) as real * UtilMin, Size(cl, 0) as real * UtilMax, s.leaves[t])) &&
      s.minPower <= Baseline(cl) &&
      (forall t :: 0 <= t < |s.leaves| ==> s.minPower <= s.leaves[t].power) &&
      ((s.final == Filled(|cl.c|, 0.0) && s.minPower == Baseline(cl) &&
        forall t :: 0 <= t < |s.leaves| ==> s.leaves[t].power > Baseline(cl)) ||
       (exists t :: 0 <= t < |s.leaves| && s.final == s.leaves[t].util && s.minPower == s.leaves[t].power &&
                    forall t' :: t < t' < |s.leaves| ==> s.leaves[t'].power > s.minPower))
  {
    var s0 := InitialState(cl);
    var top := |cl.c| - 1;
    SearchLeafCount(cl, s0, top);
    SearchLeavesFeasible(cl, s0, top);
    SearchIsFold(cl, s0, top);
    var s := Search(cl, s0, top).value;
    assert s.leaves[|s0.leaves|..] == s.leaves;
    FoldMinimal(Best(s0.final, s0.minPower), s.leaves);
    FoldLastMinimal(Best(s0.final, s0.minPower), s.leaves);
  }

  // ---------------------------------------------------------------------------------------
  // Leaf power, capacity and the baseline.

  /** Leaf power is computable exactly when no group's value exceeds n_g * UtilMax; otherwise it
      fails with the distributor's error. */
  lemma {:induction false} PowerUpToOk(cl: Cluster, util: seq<real>, g: nat)
    requires ValidCluster(cl) && |util| == |cl.c| && g <= |cl.c|
    ensures PowerUpTo(cl, util, g).Ok? <==> forall h :: 0 <= h < g ==> util[h] <= Size(cl, h) as real * UtilMax
    ensures PowerUpTo(cl, util, g).Err? ==> PowerUpTo(cl, util, g).error == UtilOutOfRange
    decreases g
  {
    if g > 0 {
      PowerUpToOk(cl, util, g - 1);
      DistributeFailsIff(Size(cl, g - 1), util[g - 1]);
    }
  }

  /** Once a group aborts the power sum, the sum over more groups aborts with the same error. */
  lemma {:induction false} PowerUpToErrPersists(cl: Cluster, util: seq<real>, j: nat, g: nat)
    requires ValidCluster(cl) && |util| == |cl.c| && j <= g <= |cl.c|
    requires PowerUpTo(cl, util, j).Err?
    ensures PowerUpTo(cl, util, g) == PowerUpTo(cl, util, j)
    decreases g
  {
    if g > j {
      PowerUpToErrPersists(cl, util, j, g - 1);
    }
  }

  predicate NonnegativeAlphas(cl: Cluster)
  {
    forall g, j :: 0 <= g < |cl.alphas| && 0 <= j < |cl.alphas[g]| ==> cl.alphas[g][j] >= 0.0
  }

  /** With nonnegative alphas no leaf costs more than the all-UtilMax baseline, because the
      distributor never puts a server above UtilMax. */
  lemma {:induction false} PowerUpToAtMostBaseline(cl: Cluster, util: seq<real>, g: nat)
    requires ValidCluster(cl) && NonnegativeAlphas(cl) && |util| == |cl.c| && g <= |cl.c|
    requires PowerUpTo(cl, util, g).Ok?
    ensures PowerUpTo(cl, util, g).value <= BaselineUpTo(cl, g)
    decreases g
  {
    if g > 0 {
      PowerUpToAtMostBaseline(cl, util, g - 1);
      var n := Size(cl, g - 1);
      DistributeBounds(n, util[g - 1]);
      var d := Distribute(n, util[g - 1]).value;
      GroupPowerMonotone(cl.alphas[g - 1], cl.betas[g - 1], d, Filled(n, UtilMax), n);
    }
  }

  /** With nonnegative alphas the first leaf always beats the baseline, so a successful search
      ends with groupUtilFinal and minPower taken from the last leaf of minimum power. */
  lemma SearchFinalIsLeaf(cl: Cluster)
    requires ValidCluster(cl) && NonnegativeAlphas(cl)
    requires Search(cl, InitialState(cl), |cl.c| - 1).Ok?
    ensures var s := Search(cl, InitialState(cl), |cl.c| - 1).value;
      exists t :: 0 <= t < |s.leaves| && s.final == s.leaves[t].util && s.minPower == s.leaves[t].power &&
                  (forall t' :: 0 <= t' < |s.leaves| ==> s.minPower <= s.leaves[t'].power) &&
                  (forall t' :: t < t' < |s.leaves| ==> s.leaves[t'].power > s.minPower)
  {
    SearchOutcome(cl);
    var s := Search(cl, InitialState(cl), |cl.c| - 1).value;
    var l := s.leaves[0];
    assert LeafFeasible(cl, Size(cl, 0) as real * UtilMin, Size(cl, 0) as real * UtilMax, l);
    PowerUpToAtMostBaseline(cl, l.util, |cl.c|);
  }

  /** The work the cluster can do with every server at UtilMax. */
  function Capacity(cl: Cluster): real
    requires ValidCluster(cl)
  {
    Throughput(cl, GroupTotals(cl, UtilMax))
  }

  /** A computable leaf never does more work than the cluster's capacity. */
  lemma LeafWithinCapacity(cl: Cluster, util: seq<real>)
    requires ValidCluster(cl) && |util| == |cl.c|
    requires LeafPower(cl, util).Ok?
    ensures Throughput(cl, util) <= Capacity(cl)
  {
    PowerUpToOk(cl, util, |cl.c|);
    WeightedSumMonotone(cl.c, util, GroupTotals(cl, UtilMax), 0, |cl.c|);
  }

  /** A rate more than half a group-0 unit above capacity is always rejected: a successful search
      implies R - c_0 / 2 < capacity. */
  lemma SearchWithinCapacity(cl: Cluster)
    requires ValidCluster(cl)
    requires Search(cl, InitialState(cl), |cl.c| - 1).Ok?
    ensures cl.rate - cl.c[0] / 2.0 < Capacity(cl)
  {
    SearchOutcome(cl);
    var s := Search(cl, InitialState(cl), |cl.c| - 1).value;
    var l := s.leaves[0];
    assert LeafFeasible(cl, Size(cl, 0) as real * UtilMin, Size(cl, 0) as real * UtilMax, l);
    LeafWithinCapacity(cl, l.util);
  }

  /** After a successful search every group of groupUtilFinal is within its capacity, whether
      it is still the zero vector or a leaf's vector. */
  lemma SearchFinalWithinCapacity(cl: Cluster)
    requires ValidCluster(cl)
    requires Search(cl, InitialState(cl), |cl.c| - 1).Ok?
    ensures var s := Search(cl, InitialState(cl), |cl.c| - 1).value;
      forall g :: 0 <= g < |cl.c| ==> s.final[g] <= Size(cl, g) as real * UtilMax
  {
    SearchOutcome(cl);
    var s := Search(cl, InitialState(cl), |cl.c| - 1).value;
    if s.final != Filled(|cl.c|, 0.0) {
      var t :| 0 <= t < |s.leaves| && s.final == s.leaves[t].util && s.minPower == s.leaves[t].power &&
               forall t' :: t < t' < |s.leaves| ==> s.leaves[t'].power > s.minPower;
      assert LeafFeasible(cl, Size(cl, 0) as real * UtilMin, Size(cl, 0) as real * UtilMax, s.leaves[t]);
      PowerUpToOk(cl, s.final, |cl.c|);
    }
  }

  // ---------------------------------------------------------------------------------------
  // A reachable search whose best vector falls short of R: three one-server groups with unit
  // coefficients, alpha = 1 and beta = 0, and R = 200.4.

  function UnitCluster(rate: real): Cluster
  {
    Cluster(rate, [1.0, 1.0, 1.0], [[1.0], [1.0], [1.0]], [[0.0], [0.0], [0.0]])
  }

  lemma UnitValid(rate: real)
    ensures ValidCluster(UnitCluster(rate)) && forall g :: 0 <= g < 3 ==> Size(UnitCluster(rate), g) == 1
  {
    var cl := UnitCluster(rate);
    assert forall g :: 0 <= g < 3 ==> cl.c[g] == 1.0 && |cl.alphas[g]| == 1 && |cl.betas[g]| == 1;
  }

  /** A one-server group within range takes its whole total. */
  lemma SingleDistribute(u: real)
    requires UtilMin <= u <= UtilMax
    ensures Distribute(1, u) == Ok([u])
  {
    var m := Saturated(1, u);
    if m == 1 {
      assert u == UtilMax;
    }
    var d := seq(1, k => Share(1, u, m, k));
    assert d[0] == u;
    assert d == [u];
  }

  /** In the unit cluster a vector within range costs its total over 100. */
  lemma UnitLeafPower(rate: real, v: seq<real>)
    requires |v| == 3 && forall g :: 0 <= g < 3 ==> UtilMin <= v[g] <= UtilMax
    ensures LeafPower(UnitCluster(rate), v) == Ok((v[0] + v[1] + v[2]) / 100.0)
  {
    var cl := UnitCluster(rate);
    forall g | 0 <= g < 3
      ensures Size(cl, g) == 1 && Distribute(1, v[g]) == Ok([v[g]])
      ensures GroupPower(cl.alphas[g], cl.betas[g], [v[g]], 1) == v[g] / 100.0
    {
      SingleDistribute(v[g]);
    }
    assert PowerUpTo(cl, v, 0) == Ok(0.0);
    assert PowerUpTo(cl, v, 1) == Ok(v[0] / 100.0);
    assert PowerUpTo(cl, v, 2) == Ok(v[0] / 100.0 + v[1] / 100.0);
  }

  /** The weighted sums of the unit cluster are plain sums. */
  lemma UnitSums(v: seq<real>)
    requires |v| == 3
    ensures var c := UnitCluster(0.0).c;
      WeightedSum(c, v, 0, 1) == v[0] && WeightedSum(c, v, 0, 2) == v[0] + v[1] &&
      WeightedSum(c, v, 0, 3) == v[0] + v[1] + v[2] &&
      WeightedSum(c, v, 1, 3) == v[1] + v[2] && WeightedSum(c, v, 2, 3) == v[2] && WeightedSum(c, v, 3, 3) == 0.0
  {
    var c := UnitCluster(0.0).c;
    assert WeightedSum(c, v, 1, 2) == v[1];
  }

  /** Initialize on the unit cluster: ranges [30, 100], zero vectors, baseline 3. */
  lemma UnitInitial(rate: real)
    ensures InitialState(UnitCluster(rate)) ==
      State([30.0, 30.0, 30.0], [100.0, 100.0, 100.0], [0.0, 0.0, 0.0], [0.0, 0.0, 0.0], 3.0, [])
  {
    var cl := UnitCluster(rate);
    assert GroupPower([1.0], [0.0], Filled(1, UtilMax), 1) == 1.0;
    assert BaselineUpTo(cl, 1) == 1.0;
    assert BaselineUpTo(cl, 2) == 2.0;
  }

  /** A leaf of the unit cluster with groups 1 and 2 in range and group 0 solved to t0:
      the leaf costs its total over 100 and, being no dearer than minPower, becomes the best. */
  lemma UnitLeafStep(rate: real, s: State, t0: real)
    requires Shaped(UnitCluster(rate), s)
    requires UtilMin <= s.temp[1] <= UtilMax && UtilMin <= s.temp[2] <= UtilMax
    requires Round(rate - s.temp[1] - s.temp[2]) == t0
    requires s.low[0] <= t0 <= s.high[0] && UtilMin <= t0 <= UtilMax
    requires (t0 + s.temp[1] + s.temp[2]) / 100.0 <= s.minPower
    ensures var v := s.temp[0 := t0]; var p := (t0 + s.temp[1] + s.temp[2]) / 100.0;
      EvaluateLeaf(UnitCluster(rate), s) ==
        Ok(s.(temp := v, final := v, minPower := p, leaves := s.leaves + [Leaf(v, p)]))
  {
    var cl := UnitCluster(rate);
    UnitSums(s.temp);
    assert FreeValue(cl, s.temp) == t0;
    UnitLeafPower(rate, s.temp[0 := t0]);
  }

  /** Entering level 1 of the unit cluster: the residuals against group 0 and group 2. */
  lemma UnitEnterOne(rate: real, s: State, lo: real, hi: real)
    requires Shaped(UnitCluster(rate), s)
    requires lo == (if UtilMin > rate - s.high[0] - s.temp[2] then UtilMin else rate - s.high[0] - s.temp[2])
    requires hi == (if UtilMax < rate - s.low[0] - s.temp[2] then UtilMax else rate - s.low[0] - s.temp[2])
    ensures Enter(UnitCluster(rate), s, 1) ==
      s.(low := s.low[1 := lo], high := s.high[1 := hi], temp := s.temp[1 := Round(lo)])
  {
    UnitSums(s.high);
    UnitSums(s.low);
    UnitSums(s.temp);
    UnitSums(s.low[1 := lo]);
  }

  /** Entering level 2 of the unit cluster: the residuals against groups 0 and 1. */
  lemma UnitEnterTwo(rate: real, s: State, lo: real, hi: real)
    requires Shaped(UnitCluster(rate), s)
    requires lo == (if UtilMin > rate - s.high[0] - s.high[1] then UtilMin else rate - s.high[0] - s.high[1])
    requires hi == (if UtilMax < rate - s.low[0] - s.low[1] then UtilMax else rate - s.low[0] - s.low[1])
    ensures Enter(UnitCluster(rate), s, 2) ==
      s.(low := s.low[2 := lo], high := s.high[2 := hi], temp := s.temp[2 := Round(lo)])
  {
    UnitSums(s.high);
    UnitSums(s.low);
    UnitSums(s.temp);
    UnitSums(s.low[2 := lo]);
  }

  /** Rounding any x in [n - 1/2, n + 1/2) gives n. */
  lemma RoundTo(x: real, n: int)
    requires n as real - 0.5 <= x < n as real + 0.5
    ensures Round(x) == n as real
  {
    var f := (x + 0.5).Floor;
    assert f as real <= x + 0.5 < f as real + 1.0;
    assert f as real < (n + 1) as real && n as real < (f + 1) as real;
    assert f < n + 1 && n < f + 1;
  }

  /** Level 2 is entered with low_2 = 30, high_2 = 100 and group 2 at 30. */
  lemma BelowRateEnterTop(rate: real)
    requires 200.0 < rate < 200.5
    ensures Enter(UnitCluster(rate),
                  State([30.0, 30.0, 30.0], [100.0, 100.0, 100.0], [0.0, 0.0, 0.0], [0.0, 0.0, 0.0], 3.0, []), 2) ==
            State([30.0, 30.0, 30.0], [100.0, 100.0, 100.0], [0.0, 0.0, 30.0], [0.0, 0.0, 0.0], 3.0, [])
  {
    var s0 := State([30.0, 30.0, 30.0], [100.0, 100.0, 100.0], [0.0, 0.0, 0.0], [0.0, 0.0, 0.0], 3.0, []);
    RoundTo(30.0, 30);
    UnitEnterTwo(rate, s0, 30.0, 100.0);
    assert s0.temp[2 := 30.0] == [0.0, 0.0, 30.0];
  }

  /** Level 1 below the first branch of level 2 (group 2 at 30): low_1 = R - 130, so group 1
      is tried at 70 and then at 100, and group 0 solves to 100 and then to 70. */
  lemma BelowRateFirstBranch(rate: real)
    requires 200.0 < rate < 200.5
    ensures Search(UnitCluster(rate),
                   State([30.0, 30.0, 30.0], [100.0, 100.0, 100.0], [0.0, 0.0, 30.0], [0.0, 0.0, 0.0], 3.0, []), 1) ==
            Ok(State([30.0, rate - 130.0, 30.0], [100.0, 100.0, 100.0], [70.0, 100.0, 30.0], [70.0, 100.0, 30.0], 2.0,
                     [Leaf([100.0, 70.0, 30.0], 2.0), Leaf([70.0, 100.0, 30.0], 2.0)]))
  {
    var cl := UnitCluster(rate);
    UnitValid(rate);
    var e := State([30.0, 30.0, 30.0], [100.0, 100.0, 100.0], [0.0, 0.0, 30.0], [0.0, 0.0, 0.0], 3.0, []);
    RoundTo(rate - 130.0, 70);
    UnitEnterOne(rate, e, rate - 130.0, 100.0);
    var e1 := State([30.0, rate - 130.0, 30.0], [100.0, 100.0, 100.0], [0.0, 70.0, 30.0], [0.0, 0.0, 0.0], 3.0, []);
    assert Enter(cl, e, 1) == e1;
    RoundTo(rate - 70.0 - 30.0, 100);
    UnitLeafStep(rate, e1, 100.0);
    var l1 := Leaf([100.0, 70.0, 30.0], 2.0);
    assert e1.temp[0 := 100.0] == l1.util && e1.leaves + [l1] == [l1];
    var f1 := State([30.0, rate - 130.0, 30.0], [100.0, 100.0, 100.0], l1.util, l1.util, 2.0, [l1]);
    assert EvaluateLeaf(cl, e1) == Ok(f1);
    RoundTo(100.0, 100);
    var w1 := State([30.0, rate - 130.0, 30.0], [100.0, 100.0, 100.0], [100.0, 100.0, 30.0], l1.util, 2.0, [l1]);
    assert Switch(cl, f1, 1) == w1;
    RoundTo(rate - 100.0 - 30.0, 70);
    UnitLeafStep(rate, w1, 70.0);
    assert w1.temp[0 := 70.0] == [70.0, 100.0, 30.0];
    assert w1.leaves + [Leaf([70.0, 100.0, 30.0], 2.0)] == [l1, Leaf([70.0, 100.0, 30.0], 2.0)];
  }

  /** Level 1 below the second branch of level 2 (group 2 at 100): high_1 = R - 130, so group 1
      is tried at 30 and then at 70, and group 0 solves to 70 and then to 30. */
  lemma BelowRateSecondBranch(rate: real)
    requires 200.0 < rate < 200.5
    ensures var ls := [Leaf([100.0, 70.0, 30.0], 2.0), Leaf([70.0, 100.0, 30.0], 2.0)];
      Search(UnitCluster(rate),
             State([30.0, rate - 130.0, 30.0], [100.0, 100.0, 100.0], [70.0, 100.0, 100.0], [70.0, 100.0, 30.0], 2.0, ls), 1) ==
      Ok(State([30.0, 30.0, 30.0], [100.0, rate - 130.0, 100.0], [30.0, 70.0, 100.0], [30.0, 70.0, 100.0], 2.0,
               ls + [Leaf([70.0, 30.0, 100.0], 2.0), Leaf([30.0, 70.0, 100.0], 2.0)]))
  {
    var cl := UnitCluster(rate);
    UnitValid(rate);
    var ls := [Leaf([100.0, 70.0, 30.0], 2.0), Leaf([70.0, 100.0, 30.0], 2.0)];
    var e := State([30.0, rate - 130.0, 30.0], [100.0, 100.0, 100.0], [70.0, 100.0, 100.0], [70.0, 100.0, 30.0], 2.0, ls);
    RoundTo(30.0, 30);
    UnitEnterOne(rate, e, 30.0, rate - 130.0);
    var e1 := State([30.0, 30.0, 30.0], [100.0, rate - 130.0, 100.0], [70.0, 30.0, 100.0], [70.0, 100.0, 30.0], 2.0, ls);
    assert Enter(cl, e, 1) == e1;
    RoundTo(rate - 30.0 - 100.0, 70);
    UnitLeafStep(rate, e1, 70.0);
    var l3 := Leaf([70.0, 30.0, 100.0], 2.0);
    assert e1.temp[0 := 70.0] == l3.util;
    var f1 := State([30.0, 30.0, 30.0], [100.0, rate - 130.0, 100.0], l3.util, l3.util, 2.0, ls + [l3]);
    assert EvaluateLeaf(cl, e1) == Ok(f1);
    RoundTo(rate - 130.0, 70);
    var w1 := State([30.0, 30.0, 30.0], [100.0, rate - 130.0, 100.0], [70.0, 70.0, 100.0], l3.util, 2.0, ls + [l3]);
    assert Switch(cl, f1, 1) == w1;
    RoundTo(rate - 70.0 - 100.0, 30);
    UnitLeafStep(rate, w1, 30.0);
    assert w1.temp[0 := 30.0] == [30.0, 70.0, 100.0];
    assert ls + [l3] + [Leaf([30.0, 70.0, 100.0], 2.0)] == ls + [l3, Leaf([30.0, 70.0, 100.0], 2.0)];
  }

  /** The throughput of the unit cluster is the plain sum of the vector. */
  lemma UnitThroughput(rate: real, v: seq<real>)
    requires |v| == 3
    ensures Throughput(UnitCluster(rate), v) == v[0] + v[1] + v[2]
  {
    UnitSums(v);
  }

  /** Both branches of level 2, from the state Initialize leaves. */
  lemma BelowRateLevelTwo(rate: real)
    requires 200.0 < rate < 200.5
    ensures Search(UnitCluster(rate),
                   State([30.0, 30.0, 30.0], [100.0, 100.0, 100.0], [0.0, 0.0, 0.0], [0.0, 0.0, 0.0], 3.0, []), 2) ==
            Ok(State([30.0, 30.0, 30.0], [100.0, rate - 130.0, 100.0], [30.0, 70.0, 100.0], [30.0, 70.0, 100.0], 2.0,
                     [Leaf([100.0, 70.0, 30.0], 2.0), Leaf([70.0, 100.0, 30.0], 2.0),
                      Leaf([70.0, 30.0, 100.0], 2.0), Leaf([30.0, 70.0, 100.0], 2.0)]))
  {
    var cl := UnitCluster(rate);
    UnitValid(rate);
    var ls := [Leaf([100.0, 70.0, 30.0], 2.0), Leaf([70.0, 100.0, 30.0], 2.0)];
    var f := State([30.0, rate - 130.0, 30.0], [100.0, 100.0, 100.0], [70.0, 100.0, 30.0], [70.0, 100.0, 30.0], 2.0, ls);
    BelowRateEnterTop(rate);
    BelowRateFirstBranch(rate);
    RoundTo(100.0, 100);
    assert Switch(cl, f, 2).temp == [70.0, 100.0, 100.0];
    BelowRateSecondBranch(rate);
    assert ls + [Leaf([70.0, 30.0, 100.0], 2.0), Leaf([30.0, 70.0, 100.0], 2.0)] ==
           [Leaf([100.0, 70.0, 30.0], 2.0), Leaf([70.0, 100.0, 30.0], 2.0),
            Leaf([70.0, 30.0, 100.0], 2.0), Leaf([30.0, 70.0, 100.0], 2.0)];
  }

  /** For every R in (200, 200.5) on three one-server unit groups, the search from the top
      group succeeds and every leaf, the chosen final vector included, reaches only 200:
      rounding lets the planner's answer fall short of the rate. The four leaves tie at
      power 2, so the `<=` update keeps the last. */
  lemma SearchBelowRate(rate: real)
    requires 200.0 < rate < 200.5
    ensures var cl := UnitCluster(rate);
      ValidCluster(cl) && Search(cl, InitialState(cl), 2).Ok? &&
      var s := Search(cl, InitialState(cl), 2).value;
      s.leaves == [Leaf([100.0, 70.0, 30.0], 2.0), Leaf([70.0, 100.0, 30.0], 2.0),
                   Leaf([70.0, 30.0, 100.0], 2.0), Leaf([30.0, 70.0, 100.0], 2.0)] &&
      s.final == [30.0, 70.0, 100.0] && s.minPower == 2.0 && Throughput(cl, s.final) < cl.rate
  {
    UnitValid(rate);
    UnitInitial(rate);
    BelowRateLevelTwo(rate);
    UnitThroughput(rate, [30.0, 70.0, 100.0]);
  }
}
