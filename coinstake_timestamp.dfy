/**
 * CheckCoinStakeTimestamp: coinstake timestamps must lie on the coarse grid
 * that STAKE_TIMESTAMP_MASK defines.
 */
module CoinStakeTimestamp {
  import opened Primitives

  /**
   * The coinstake timestamp is on the protocol's grid: no bit of
   * STAKE_TIMESTAMP_MASK is set. The uint32_t timestamp is a 32-bit vector
   * here; elsewhere the same nTimeBlock is a U32, whose value `t` is the
   * vector `t as bv32`.
   */
  function CheckCoinStakeTimestamp(env: Env, nTimeBlock: bv32): (r: bool)
    ensures r <==> nTimeBlock & env.params.stakeTimestampMask == 0
  {
    nTimeBlock & env.params.stakeTimestampMask == 0
  }

  /**
   * Clearing the mask bits rounds a timestamp down onto the grid (for a mask
   * of the k low bits, down to a multiple of 2^k): the rounded timestamp is
   * accepted.
   */
  lemma RoundedDownAccepted(env: Env, t: bv32)
    ensures CheckCoinStakeTimestamp(env, t & !env.params.stakeTimestampMask)
  {
  }

  /** Rounding down onto the grid never moves a timestamp later. */
  lemma RoundedDownNotLater(env: Env, t: bv32)
    ensures t & !env.params.stakeTimestampMask <= t
  {
  }

  /**
   * With the lowest mask bit set, the timestamp that follows an accepted one
   * is refused.
   */
  lemma NextTimestampRefused(env: Env, t: bv32)
    requires env.params.stakeTimestampMask & 1 == 1
    requires CheckCoinStakeTimestamp(env, t)
    ensures !CheckCoinStakeTimestamp(env, t + 1)
  {
  }
}
