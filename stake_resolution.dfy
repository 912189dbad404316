/**
 * The resolution of a staked coin that CheckProofOfStake, CheckKernel and
 * CacheKernel share: once a coin is found, it must be COINBASE_MATURITY deep
 * below the block being built on top of `tip`, and the block that created it
 * must be reachable as an ancestor of `tip`.
 */
module StakeResolution {
  import opened Primitives

  /** How deep the coin is in a block built on top of `tip`: nHeight + 1 - coin.nHeight. */
  function Depth(tip: BlockIndex, coin: Coin): int
  {
    tip.height + 1 - coin.height
  }

  datatype Resolution =
    | CoinMissing
    | Immature(expected: int, actual: int)
    | AncestorMissing(height: int)
    | Resolved(coin: Coin, blockFrom: BlockIndex)

  /**
   * The three gates applied, in the source's order, to the outcome of a coin
   * lookup: lookup, maturity, then the ancestor at the coin's height.
   */
  function Resolve(env: Env, chain: Chain, tip: BlockIndex, found: Option<Coin>): (r: Resolution)
    ensures r.CoinMissing? <==> found.None?
    ensures r.Immature? <==> found.Some? && Depth(tip, found.value) < env.params.coinbaseMaturity
    ensures r.Immature? ==> r.expected == env.params.coinbaseMaturity && r.actual == Depth(tip, found.value)
    ensures r.AncestorMissing? <==>
              found.Some? && Depth(tip, found.value) >= env.params.coinbaseMaturity
              && chain.ancestor(tip, found.value.height).None?
    ensures r.AncestorMissing? ==> r.height == found.value.height
    ensures r.Resolved? ==> Some(r.coin) == found && Some(r.blockFrom) == chain.ancestor(tip, r.coin.height)
  {
    match found
    case None => CoinMissing
    case Some(coin) =>
      if Depth(tip, coin) < env.params.coinbaseMaturity then
        Immature(env.params.coinbaseMaturity, Depth(tip, coin))
      else
        match chain.ancestor(tip, coin.height)
        case None => AncestorMissing(coin.height)
        case Some(blockFrom) => Resolved(coin, blockFrom)
  }
}
