/**
 * The staking session's kernel cache: CacheKernel records, once per output,
 * the origin-block time and the amount of a staked coin; CheckKernel uses a
 * recorded entry only as a pre-filter and confirms every pre-filter success
 * on the uncached path, so that a stale entry (after a deep reorganisation)
 * never yields a false positive.
 */
module KernelCache {
  import opened Primitives
  import opened StakeResolution
  import opened KernelHash

  /** CStakeCache: the origin block's time and the coin's value. */
  datatype StakeCache = StakeCache(blockFromTime: U32, amount: int)

  /** The std::map<COutPoint, CStakeCache> a staking session owns and CacheKernel fills. */
  class StakeCacheMap {
    var entries: map<OutPoint, StakeCache>

    constructor ()
      ensures entries == map[]
    {
      entries := map[];
    }
  }

  /**
   * The entry CacheKernel would record for `prevout`: the coin is looked up in
   * the view only (no main-chain fallback, no spent check), must be mature and
   * its origin block loadable.
   */
  function CacheEntryFor(env: Env, chain: Chain, tip: BlockIndex, prevout: OutPoint): (r: Option<StakeCache>)
    ensures r.Some? <==>
              && prevout in chain.view
              && Depth(tip, chain.view[prevout]) >= env.params.coinbaseMaturity
              && chain.ancestor(tip, chain.view[prevout].height).Some?
    ensures r.Some? ==>
              r.value == StakeCache(chain.ancestor(tip, chain.view[prevout].height).value.time,
                                    chain.view[prevout].value)
  {
    match Resolve(env, chain, tip, GetCoin(chain, prevout))
    case Resolved(coin, blockFrom) => Some(StakeCache(blockFrom.time, coin.value))
    case _ => None
  }

  /**
   * The cache after CacheKernel: unchanged when `prevout` is already a key or
   * cannot be resolved, otherwise extended by exactly one entry.
   */
  function CacheAfter(entries: map<OutPoint, StakeCache>, env: Env, chain: Chain, tip: BlockIndex,
                      prevout: OutPoint): (r: map<OutPoint, StakeCache>)
    ensures prevout in entries ==> r == entries
    ensures prevout !in entries && CacheEntryFor(env, chain, tip, prevout).None? ==> r == entries
    ensures prevout !in entries && CacheEntryFor(env, chain, tip, prevout).Some? ==>
              && r.Keys == entries.Keys + {prevout}
              && r[prevout] == CacheEntryFor(env, chain, tip, prevout).value
    // entries are never updated in place
    ensures forall p :: p in entries ==> p in r && r[p] == entries[p]
  {
    if prevout in entries then entries
    else
      match CacheEntryFor(env, chain, tip, prevout)
      case None => entries
      case Some(entry) => entries[prevout := entry]
  }

  method CacheKernel(cache: StakeCacheMap, prevout: OutPoint, tip: BlockIndex, env: Env, chain: Chain)
    modifies cache
    ensures cache.entries == CacheAfter(old(cache.entries), env, chain, tip, prevout)
  {
    if prevout in cache.entries {
      return;
    }
    if prevout !in chain.view {
      return;
    }
    var coinPrev := chain.view[prevout];
    if tip.height + 1 - coinPrev.height < env.params.coinbaseMaturity {
      return;
    }
    var blockFrom := chain.ancestor(tip, coinPrev.height);
    if blockFrom.None? {
      return;
    }
    var c := StakeCache(blockFrom.value.time, coinPrev.value);
    cache.entries := cache.entries[prevout := c];
  }

  /**
   * The uncached kernel check: the coin from the view or, failing that, from
   * the main chain; mature; its origin block loadable; not spent; and the
   * kernel meets the target with the origin block's time.
   */
  function UncachedKernel(env: Env, chain: Chain, tip: BlockIndex, nBits: U32, nTimeBlock: U32, nonce: U32,
                          prevout: OutPoint): bool
  {
    match Resolve(env, chain, tip, FindStakedCoin(chain, tip, prevout))
    case Resolved(coin, blockFrom) =>
      !coin.spent
      && CheckStakeKernelHash(env, tip, nBits, blockFrom.time, coin.value, prevout, nTimeBlock, nonce).Ok()
    case _ => false
  }

  /** The pre-filter a cache entry allows: the kernel with the recorded time and amount. */
  function CachedPreFilter(env: Env, tip: BlockIndex, nBits: U32, nTimeBlock: U32, nonce: U32,
                           prevout: OutPoint, entry: StakeCache): bool
  {
    CheckStakeKernelHash(env, tip, nBits, entry.blockFromTime, entry.amount, prevout, nTimeBlock, nonce).Ok()
  }

  /**
   * The cached kernel check: on a miss the uncached check; on a hit the
   * pre-filter, confirmed by the uncached check when it passes.
   */
  function CachedKernel(entries: map<OutPoint, StakeCache>, env: Env, chain: Chain, tip: BlockIndex,
                        nBits: U32, nTimeBlock: U32, nonce: U32, prevout: OutPoint): bool
  {
    if prevout !in entries then UncachedKernel(env, chain, tip, nBits, nTimeBlock, nonce, prevout)
    else CachedPreFilter(env, tip, nBits, nTimeBlock, nonce, prevout, entries[prevout])
         && UncachedKernel(env, chain, tip, nBits, nTimeBlock, nonce, prevout)
  }

  /** CheckKernel without a cache: it runs the cached check on a fresh, empty map. */
  method CheckKernel(tip: BlockIndex, nBits: U32, nTimeBlock: U32, nonce: U32, prevout: OutPoint,
                     env: Env, chain: Chain) returns (ok: bool)
    ensures ok == UncachedKernel(env, chain, tip, nBits, nTimeBlock, nonce, prevout)
    decreases 1
  {
    var tmp := new StakeCacheMap();
    ok := CheckKernelWithCache(tip, nBits, nTimeBlock, nonce, prevout, env, chain, tmp);
  }

  /**
   * CheckKernel with the session's cache, which it only reads. A hit recurses
   * through the cache-less CheckKernel, whose empty map always misses.
   */
  method CheckKernelWithCache(tip: BlockIndex, nBits: U32, nTimeBlock: U32, nonce: U32, prevout: OutPoint,
                              env: Env, chain: Chain, cache: StakeCacheMap) returns (ok: bool)
    ensures ok == CachedKernel(cache.entries, env, chain, tip, nBits, nTimeBlock, nonce, prevout)
    decreases if prevout in cache.entries then 2 else 0
  {
    if prevout !in cache.entries {
      // not in the cache: resolve the coin with the main-chain fallback
      var coinPrev: Coin;
      if prevout in chain.view {
        coinPrev := chain.view[prevout];
      } else {
        var mainChain := chain.spentCoinFromMainChain(tip, prevout);
        if mainChain.None? {
          return false;
        }
        coinPrev := mainChain.value;
      }
      if tip.height + 1 - coinPrev.height < env.params.coinbaseMaturity {
        return false;
      }
      var blockFrom := chain.ancestor(tip, coinPrev.height);
      if blockFrom.None? {
        return false;
      }
      if coinPrev.spent {
        return false;
      }
      var kernel := CheckStakeKernelHash(env, tip, nBits, blockFrom.value.time, coinPrev.value, prevout,
                                         nTimeBlock, nonce);
      return kernel.Ok();
    } else {
      var stake := cache.entries[prevout];
      var kernel := CheckStakeKernelHash(env, tip, nBits, stake.blockFromTime, stake.amount, prevout,
                                         nTimeBlock, nonce);
      if kernel.Ok() {
        // a cached entry may be stale after a deep reorganisation: confirm without the cache
        ok := CheckKernel(tip, nBits, nTimeBlock, nonce, prevout, env, chain);
        return;
      }
    }
    return false;
  }

  /**
   * No false positive from a stale cache: whatever the entries hold, a
   * cached success is an uncached success.
   */
  lemma CachedKernelSound(entries: map<OutPoint, StakeCache>, env: Env, chain: Chain, tip: BlockIndex,
                          nBits: U32, nTimeBlock: U32, nonce: U32, prevout: OutPoint)
    ensures CachedKernel(entries, env, chain, tip, nBits, nTimeBlock, nonce, prevout)
        ==> UncachedKernel(env, chain, tip, nBits, nTimeBlock, nonce, prevout)
  {
  }

  /** A hit whose pre-filter fails is a failure, whatever the chain says now. */
  lemma FailedPreFilterRejects(entries: map<OutPoint, StakeCache>, env: Env, chain: Chain, tip: BlockIndex,
                               nBits: U32, nTimeBlock: U32, nonce: U32, prevout: OutPoint)
    requires prevout in entries
    requires !CachedPreFilter(env, tip, nBits, nTimeBlock, nonce, prevout, entries[prevout])
    ensures !CachedKernel(entries, env, chain, tip, nBits, nTimeBlock, nonce, prevout)
  {
  }

  /**
   * With no reorganisation between caching and checking, the entry CacheKernel
   * records agrees with the chain, and the cached check gives exactly the
   * uncached result.
   */
  lemma FreshEntryAgrees(entries: map<OutPoint, StakeCache>, env: Env, chain: Chain, tip: BlockIndex,
                         nBits: U32, nTimeBlock: U32, nonce: U32, prevout: OutPoint)
    requires prevout !in entries
    ensures CachedKernel(CacheAfter(entries, env, chain, tip, prevout), env, chain, tip, nBits, nTimeBlock, nonce, prevout)
         == UncachedKernel(env, chain, tip, nBits, nTimeBlock, nonce, prevout)
  {
  }

  /**
   * The price of the pre-filter: on a hit where the chain does support a
   * kernel, the recorded entry alone decides the result, so an entry made
   * stale by a reorganisation (its recorded time or amount no longer those
   * of the chain) can hide a valid kernel.
   */
  lemma StaleEntryMayHideKernel(entries: map<OutPoint, StakeCache>, env: Env, chain: Chain, tip: BlockIndex,
                                nBits: U32, nTimeBlock: U32, nonce: U32, prevout: OutPoint)
    requires prevout in entries
    requires UncachedKernel(env, chain, tip, nBits, nTimeBlock, nonce, prevout)
    ensures CachedKernel(entries, env, chain, tip, nBits, nTimeBlock, nonce, prevout)
        <==> CachedPreFilter(env, tip, nBits, nTimeBlock, nonce, prevout, entries[prevout])
  {
  }

  /**
   * CacheKernel inserts exactly when CheckProofOfStake's gates 2 to 4 (coin in
   * the view, mature, origin block loadable) pass, and the entry it records
   * is what the uncached path resolves when the view has the coin.
   */
  lemma CacheEntryMatchesUncachedResolution(env: Env, chain: Chain, tip: BlockIndex, prevout: OutPoint)
    requires CacheEntryFor(env, chain, tip, prevout).Some?
    ensures Resolve(env, chain, tip, FindStakedCoin(chain, tip, prevout)).Resolved?
    ensures var r := Resolve(env, chain, tip, FindStakedCoin(chain, tip, prevout));
            CacheEntryFor(env, chain, tip, prevout).value == StakeCache(r.blockFrom.time, r.coin.value)
  {
  }
}
