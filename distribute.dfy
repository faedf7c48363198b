/** The intra-group distributor: how a group total `u` is spread over the group's `n` servers. */
module UtilDistributor {
  import opened Outcomes
  import opened PowerModel

  /** Number of servers that saturate at UtilMax: the floor of (u - n * UtilMin) / (UtilMax - UtilMin). */
  function Saturated(n: nat, u: real): (m: int)
    requires n as real * UtilMin <= u <= n as real * UtilMax
    ensures 0 <= m <= n
    ensures m as real * (UtilMax - UtilMin) <= u - n as real * UtilMin < (m + 1) as real * (UtilMax - UtilMin)
  {
    ((u - n as real * UtilMin) / (UtilMax - UtilMin)).Floor
  }

  /** The share of server `k` (0-based) when the first `m` servers saturate. */
  function Share(n: nat, u: real, m: int, k: int): real
  {
    if k < m then UtilMax
    else if k > m then UtilMin
    else u - m as real * UtilMax - (n - m - 1) as real * UtilMin
  }

  /** The distribution of `u` over `n` servers; above n * UtilMax it is an error, below
      n * UtilMin every server gets UtilMin. */
  function Distribute(n: nat, u: real): (r: Result<seq<real>>)
    ensures r.Ok? ==> |r.value| == n
  {
    if u > n as real * UtilMax then Err(UtilOutOfRange)
    else if u < n as real * UtilMin then Ok(Filled(n, UtilMin))
    else
      var m := Saturated(n, u);
      Ok(seq(n, k => Share(n, u, m, k)))
  }

  /** Sum of a sequence, accumulated from the front. */
  function Sum(v: seq<real>): real
  {
    if |v| == 0 then 0.0 else Sum(v[..|v| - 1]) + v[|v| - 1]
  }

  /** The distributor fails exactly when the group total exceeds n * UtilMax; a total below
      n * UtilMin is not an error and puts every server at UtilMin. */
  lemma DistributeFailsIff(n: nat, u: real)
    ensures Distribute(n, u).Err? <==> u > n as real * UtilMax
    ensures Distribute(n, u).Err? ==> Distribute(n, u).error == UtilOutOfRange
    ensures u < n as real * UtilMin ==> Distribute(n, u) == Ok(Filled(n, UtilMin))
  {
  }

  /** The partial share of server m lies in [UtilMin, UtilMax). */
  lemma PartialShareBounds(n: nat, u: real)
    requires n as real * UtilMin <= u <= n as real * UtilMax
    requires Saturated(n, u) < n
    ensures UtilMin <= Share(n, u, Saturated(n, u), Saturated(n, u)) < UtilMax
  {
  }

  /** Every server's share lies in [UtilMin, UtilMax], whatever the group total. */
  lemma DistributeBounds(n: nat, u: real)
    requires Distribute(n, u).Ok?
    ensures forall k :: 0 <= k < n ==> UtilMin <= Distribute(n, u).value[k] <= UtilMax
  {
    if n as real * UtilMin <= u <= n as real * UtilMax {
      var m := Saturated(n, u);
      if m < n {
        PartialShareBounds(n, u);
      }
    }
  }

  /** Shape of the distribution: the first m servers at UtilMax, server m with the remainder
      u - m * UtilMax - (n - m - 1) * UtilMin, the others at UtilMin; so at most one server
      is strictly between the bounds. */
  lemma DistributeShape(n: nat, u: real)
    requires n as real * UtilMin <= u <= n as real * UtilMax
    ensures var m := Saturated(n, u); var v := Distribute(n, u).value;
      Distribute(n, u).Ok? &&
      (forall k :: 0 <= k < n && k < m ==> v[k] == UtilMax) &&
      (m < n ==> v[m] == u - m as real * UtilMax - (n - m - 1) as real * UtilMin) &&
      (forall k :: m < k < n ==> v[k] == UtilMin)
    ensures var v := Distribute(n, u).value;
      forall k, k' :: 0 <= k < n && 0 <= k' < n && UtilMin < v[k] < UtilMax && UtilMin < v[k'] < UtilMax ==> k == k'
  {
  }

  /** Running sums of the distribution, server by server. */
  lemma {:induction false} SharePrefixSum(n: nat, u: real, j: nat)
    requires n as real * UtilMin <= u <= n as real * UtilMax
    requires j <= n
    ensures var m := Saturated(n, u);
      Sum(Distribute(n, u).value[..j]) ==
        if j <= m then j as real * UtilMax
        else u - (n - j) as real * UtilMin
  {
    var v := Distribute(n, u).value;
    if j > 0 {
      SharePrefixSum(n, u, j - 1);
      assert v[..j][..j - 1] == v[..j - 1];
    }
  }

  /** Within [n * UtilMin, n * UtilMax] the shares add up exactly to the group total. */
  lemma DistributeSum(n: nat, u: real)
    requires n as real * UtilMin <= u <= n as real * UtilMax
    ensures Sum(Distribute(n, u).value) == u
  {
    var v := Distribute(n, u).value;
    SharePrefixSum(n, u, n);
    assert v[..n] == v;
  }

  /** Raising the group total never lowers any server's share. */
  lemma DistributeMonotone(n: nat, u: real, u': real)
    requires u <= u' <= n as real * UtilMax
    ensures forall k :: 0 <= k < n ==> Distribute(n, u).value[k] <= Distribute(n, u').value[k]
  {
    DistributeBounds(n, u);
    DistributeBounds(n, u');
    if n as real * UtilMin <= u {
      var m, m' := Saturated(n, u), Saturated(n, u');
      assert m <= m';
      if m < n {
        PartialShareBounds(n, u);
      }
      if m' < n {
        PartialShareBounds(n, u');
      }
    }
  }

  /** One group, two servers, total 140: the first server saturates, the second gets 40. */
  lemma DistributeExample()
    ensures Distribute(2, 140.0) == Ok([100.0, 40.0])
  {
    assert Saturated(2, 140.0) == 1;
    assert Distribute(2, 140.0).value == [100.0, 40.0];
  }
}
