/**
 * How the block-validation path (CheckProofOfStake) and the staking-search
 * path (CacheKernel, CheckKernel) agree on the same coin and chain.
 */
module Consistency {
  import opened Primitives
  import opened KernelHash
  import opened ProofOfStake
  import opened KernelCache

  /**
   * A coinstake accepted by CheckProofOfStake, spending an unspent coin of the
   * view, passes the cache-less CheckKernel with the same bits, time and nonce.
   */
  lemma AcceptedStakePassesCheckKernel(env: Env, chain: Chain, tip: BlockIndex, tx: Transaction,
                                       nBits: U32, nTimeBlock: U32, nonce: U32)
    requires env.isCoinStake(tx) && |tx.vin| > 0
    requires CheckProofOfStake(env, chain, tip, tx, nBits, nTimeBlock, nonce).ok
    requires !chain.view[tx.vin[0].prevout].spent
    ensures UncachedKernel(env, chain, tip, nBits, nTimeBlock, nonce, tx.vin[0].prevout)
  {
  }

  /**
   * CacheKernel records an entry for the first input's coin exactly when
   * CheckProofOfStake gets past its coin, maturity and origin-block gates.
   */
  lemma CacheEntryIffCoinResolves(env: Env, chain: Chain, tip: BlockIndex, tx: Transaction,
                                  nBits: U32, nTimeBlock: U32, nonce: U32)
    requires env.isCoinStake(tx) && |tx.vin| > 0
    ensures CacheEntryFor(env, chain, tip, tx.vin[0].prevout).Some?
        <==> var r := CheckProofOfStake(env, chain, tip, tx, nBits, nTimeBlock, nonce);
             !(r.state.StateInvalid? && r.state.reason in {PREVOUT_MISSING, PREVOUT_IMMATURE, PREVOUT_UNLOADABLE})
  {
  }
}
