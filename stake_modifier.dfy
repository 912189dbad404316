/**
 * ComputeStakeModifier: the per-block stake modifier, chained from the
 * previous block's modifier so that a coin owner cannot compute future
 * proofs at the time the coin is confirmed.
 */
module StakeModifier {
  import opened Primitives

  /** The stream `ss << kernel << pindexPrev->nStakeModifier`: the kernel first. */
  function ModifierHashInput(kernel: U256, prevModifier: U256): seq<Field>
  {
    [U256Field(kernel), U256Field(prevModifier)]
  }

  /**
   * The genesis block (no predecessor) has the all-zero modifier; every other
   * block hashes its kernel value followed by its predecessor's modifier.
   */
  function ComputeStakeModifier(env: Env, prev: Option<BlockIndex>, kernel: U256): (r: U256)
    ensures prev.None? ==> r == 0
    ensures prev.Some? ==> r == env.hash(ModifierHashInput(kernel, prev.value.stakeModifier))
  {
    match prev
    case None => 0
    case Some(pindexPrev) => env.hash(ModifierHashInput(kernel, pindexPrev.stakeModifier))
  }

  /** Of the predecessor, only its own stake modifier matters. */
  lemma ModifierDependsOnlyOnPrevModifier(env: Env, p1: BlockIndex, p2: BlockIndex, kernel: U256)
    requires p1.stakeModifier == p2.stakeModifier
    ensures ComputeStakeModifier(env, Some(p1), kernel) == ComputeStakeModifier(env, Some(p2), kernel)
  {
  }

  /**
   * Two different kernel values on the same predecessor give two different
   * modifiers, unless the hash has a collision on the two streams.
   */
  lemma DistinctKernelsDistinctModifiers(env: Env, prev: BlockIndex, k1: U256, k2: U256)
    requires k1 != k2
    ensures ComputeStakeModifier(env, Some(prev), k1) != ComputeStakeModifier(env, Some(prev), k2)
            || Collides(env, ModifierHashInput(k1, prev.stakeModifier), ModifierHashInput(k2, prev.stakeModifier))
  {
  }

  /**
   * The order of the stream matters: a block whose kernel value and
   * predecessor modifier are swapped gets a different modifier, unless the
   * hash has a collision on the two streams.
   */
  lemma SwappedInputsDistinctModifiers(env: Env, prev: BlockIndex, kernel: U256)
    requires kernel != prev.stakeModifier
    ensures ComputeStakeModifier(env, Some(prev), kernel)
            != ComputeStakeModifier(env, Some(prev.(stakeModifier := kernel)), prev.stakeModifier)
            || Collides(env, ModifierHashInput(kernel, prev.stakeModifier), ModifierHashInput(prev.stakeModifier, kernel))
  {
  }
}
