/**
 * CheckStakeKernelHash: the collapsed proof-of-stake kernel. The kernel hash
 * over (stake modifier, origin block time, prevout hash, prevout index, block
 * time) must not exceed the compact target scaled by POW_POT_DIFF_HELPER.
 */
module KernelHash {
  import opened Primitives

  /** The fixed value the block's nonce must carry (the proof-of-transaction-work indicator). */
  const STAKE_MARKER: U32 := 0xD0D0FACE

  /**
   * What CheckStakeKernelHash reports. The two early rejections return before
   * either out-parameter is written; `Checked` carries the values written to
   * hashProofOfStake and targetProofOfStake and whether the target was met.
   */
  datatype KernelOutcome =
    | TimeViolation
    | NonceViolation
    | Checked(hashProof: U256, target: U256, meets: bool)
  {
    predicate Ok() { Checked? && meets }
  }

  /** The stream hashed for the kernel, in serialisation order. */
  function KernelHashInput(modifier: U256, blockFromTime: U32, prevout: OutPoint, nTimeBlock: U32): seq<Field>
  {
    [U256Field(modifier), U32Field(blockFromTime), U256Field(prevout.hash), U32Field(prevout.n), U32Field(nTimeBlock)]
  }

  /** POW_POT_DIFF_HELPER * bnTarget, an arith_uint256 product: it wraps modulo 2^256. */
  function ScaledTarget(env: Env, nBits: U32): U256
  {
    (env.params.powPotDiffHelper * env.setCompact(nBits)) % U256_MODULUS
  }

  /**
   * The kernel check. `prevoutValue` is a parameter of the source's signature
   * that its body never reads; it is kept so that
   * KernelIgnoresPrevoutValue can state that.
   */
  function CheckStakeKernelHash(env: Env, tip: BlockIndex, nBits: U32, blockFromTime: U32, prevoutValue: int,
                                prevout: OutPoint, nTimeBlock: U32, nonce: U32): (r: KernelOutcome)
    ensures nTimeBlock < blockFromTime ==> r == TimeViolation
    ensures blockFromTime <= nTimeBlock && nonce != STAKE_MARKER ==> r == NonceViolation
    ensures blockFromTime <= nTimeBlock && nonce == STAKE_MARKER ==>
              && r.Checked?
              && r.target == env.setCompact(nBits)
              && r.hashProof == env.hash(KernelHashInput(tip.stakeModifier, blockFromTime, prevout, nTimeBlock))
    ensures r.Ok() <==>
              && blockFromTime <= nTimeBlock
              && nonce == STAKE_MARKER
              && env.hash(KernelHashInput(tip.stakeModifier, blockFromTime, prevout, nTimeBlock)) <= ScaledTarget(env, nBits)
  {
    if nTimeBlock < blockFromTime then TimeViolation
    else if nonce != STAKE_MARKER then NonceViolation
    else
      var target := env.setCompact(nBits);
      var hashProof := env.hash(KernelHashInput(tip.stakeModifier, blockFromTime, prevout, nTimeBlock));
      Checked(hashProof, target, !(hashProof > ScaledTarget(env, nBits)))
  }

  /** The staked amount has no influence on the outcome. */
  lemma KernelIgnoresPrevoutValue(env: Env, tip: BlockIndex, nBits: U32, blockFromTime: U32, v1: int, v2: int,
                                  prevout: OutPoint, nTimeBlock: U32, nonce: U32)
    ensures CheckStakeKernelHash(env, tip, nBits, blockFromTime, v1, prevout, nTimeBlock, nonce)
         == CheckStakeKernelHash(env, tip, nBits, blockFromTime, v2, prevout, nTimeBlock, nonce)
  {
  }

  /** Of the tip, only its stake modifier matters. */
  lemma KernelDependsOnlyOnTipModifier(env: Env, t1: BlockIndex, t2: BlockIndex, nBits: U32, blockFromTime: U32,
                                       value: int, prevout: OutPoint, nTimeBlock: U32, nonce: U32)
    requires t1.stakeModifier == t2.stakeModifier
    ensures CheckStakeKernelHash(env, t1, nBits, blockFromTime, value, prevout, nTimeBlock, nonce)
         == CheckStakeKernelHash(env, t2, nBits, blockFromTime, value, prevout, nTimeBlock, nonce)
  {
  }

  /**
   * When POW_POT_DIFF_HELPER * target does not overflow, the kernel is met
   * exactly when its hash is at most the plain product.
   */
  lemma KernelBoundWithoutOverflow(env: Env, tip: BlockIndex, nBits: U32, blockFromTime: U32, value: int,
                                   prevout: OutPoint, nTimeBlock: U32)
    requires env.params.powPotDiffHelper * env.setCompact(nBits) < U256_MODULUS
    ensures CheckStakeKernelHash(env, tip, nBits, blockFromTime, value, prevout, nTimeBlock, STAKE_MARKER).Ok()
        <==> blockFromTime <= nTimeBlock
             && env.hash(KernelHashInput(tip.stakeModifier, blockFromTime, prevout, nTimeBlock))
                <= env.params.powPotDiffHelper * env.setCompact(nBits)
  {
  }

  /**
   * Two kernel checks that reach the hash with different kernels (tip
   * modifier, origin time, prevout or block time) report different proof
   * hashes, unless the hash has a collision on the two streams.
   */
  lemma DistinctKernelsDistinctProofs(env: Env, t1: BlockIndex, f1: U32, p1: OutPoint, n1: U32,
                                      t2: BlockIndex, f2: U32, p2: OutPoint, n2: U32, nBits: U32, value: int)
    requires (t1.stakeModifier, f1, p1, n1) != (t2.stakeModifier, f2, p2, n2)
    requires f1 <= n1 && f2 <= n2
    ensures CheckStakeKernelHash(env, t1, nBits, f1, value, p1, n1, STAKE_MARKER).hashProof
            != CheckStakeKernelHash(env, t2, nBits, f2, value, p2, n2, STAKE_MARKER).hashProof
            || Collides(env, KernelHashInput(t1.stakeModifier, f1, p1, n1), KernelHashInput(t2.stakeModifier, f2, p2, n2))
  {
  }
}
