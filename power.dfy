/** The linear power model: a server at `util` percent draws alpha * util / 100 + beta. */
module PowerModel {

  /** The planner's fixed utilization bounds, in percentage points. */
  const UtilMin: real := 30.0
  const UtilMax: real := 100.0

  function ServerPower(alpha: real, beta: real, util: real): real
  {
    alpha * util / 100.0 + beta
  }

  /** Power of the first `j` servers of a group, accumulated in server order. */
  function GroupPower(alphas: seq<real>, betas: seq<real>, util: seq<real>, j: nat): real
    requires j <= |alphas| && j <= |betas| && j <= |util|
  {
    if j == 0 then 0.0
    else GroupPower(alphas, betas, util, j - 1) + ServerPower(alphas[j - 1], betas[j - 1], util[j - 1])
  }

  /** `n` copies of `x`: the all-equal distribution. */
  function Filled(n: nat, x: real): seq<real>
  {
    seq(n, _ => x)
  }

  /** With non-negative slopes, power never decreases as utilization grows. */
  lemma ServerPowerMonotone(alpha: real, beta: real, u: real, u': real)
    requires alpha >= 0.0 && u <= u'
    ensures ServerPower(alpha, beta, u) <= ServerPower(alpha, beta, u')
  {
    assert alpha * u <= alpha * u';
  }

  /** Group power is monotone in every server's utilization when every slope is non-negative. */
  lemma {:induction false} GroupPowerMonotone(alphas: seq<real>, betas: seq<real>, util: seq<real>, util': seq<real>, j: nat)
    requires j <= |alphas| && j <= |betas| && j <= |util| && j <= |util'|
    requires forall q :: 0 <= q < j ==> alphas[q] >= 0.0 && util[q] <= util'[q]
    ensures GroupPower(alphas, betas, util, j) <= GroupPower(alphas, betas, util', j)
  {
    if j > 0 {
      GroupPowerMonotone(alphas, betas, util, util', j - 1);
      ServerPowerMonotone(alphas[j - 1], betas[j - 1], util[j - 1], util'[j - 1]);
    }
  }
}
