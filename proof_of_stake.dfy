/**
 * CheckProofOfStake: the ordered gates a coinstake passes before its block
 * header is accepted, each failure tagged with its own reason code.
 */
module ProofOfStake {
  import opened Primitives
  import opened StakeResolution
  import opened KernelHash

  /** The two BlockValidationResult classes the gates use. */
  datatype BlockValidationResult = BlockInvalidHeader | BlockHeaderSync

  /** The numbers the debug message of a rejection reports. */
  datatype Detail =
    | NoDetail
    | PrevoutHash(txid: U256)
    | Maturity(expected: int, actual: int)
    | AtHeight(height: int)

  /** BlockValidationState: still valid, or invalid with a class and a reason code. */
  datatype ValidationState =
    | StateValid
    | StateInvalid(result: BlockValidationResult, reason: string, detail: Detail)

  /**
   * The outcome of CheckProofOfStake: its return value, the validation state
   * it leaves, and the kernel outcome when the kernel check was reached (that
   * is when hashProofOfStake and targetProofOfStake may have been written).
   */
  datatype PosOutcome = PosOutcome(ok: bool, state: ValidationState, kernel: Option<KernelOutcome>)

  const PREVOUT_MISSING := "bad-stake-prevout-doesnotexist"
  const PREVOUT_IMMATURE := "bad-stake-prevout-notmature"
  const PREVOUT_UNLOADABLE := "bad-stake-prevout-couldnotload"
  const BELOW_MIN_UTXO := "stake-less-than-min-utxo"
  const SIGNATURE_FAILED := "bad-stake-signature-verify"
  const KERNEL_FAILED := "bad-stake-kernel-check"

  function Reject(reason: string, detail: Detail): PosOutcome
  {
    PosOutcome(false, StateInvalid(BlockInvalidHeader, reason, detail), None)
  }

  /**
   * All gates pass: a coinstake whose first input's coin is in the view, is
   * mature, has a loadable origin block, carries at least the minimum value,
   * has a valid spending signature and meets the kernel target.
   */
  ghost predicate StakeAccepted(env: Env, chain: Chain, tip: BlockIndex, tx: Transaction,
                                nBits: U32, nTimeBlock: U32, nonce: U32)
    requires env.isCoinStake(tx) ==> |tx.vin| > 0
  {
    && env.isCoinStake(tx)
    && var prevout := tx.vin[0].prevout;
    && prevout in chain.view
    && var coin := chain.view[prevout];
    && tip.height + 1 - coin.height >= env.params.coinbaseMaturity
    && chain.ancestor(tip, coin.height).Some?
    && coin.value >= env.params.minStakingValue
    && env.verifySignature(coin, prevout.hash, tx, 0)
    && CheckStakeKernelHash(env, tip, nBits, chain.ancestor(tip, coin.height).value.time, coin.value,
                            prevout, nTimeBlock, nonce).Ok()
  }

  /**
   * The coin spent by the first input was found, is mature and its origin
   * block was loaded: gates 2 to 4 pass.
   */
  ghost predicate CoinResolves(env: Env, chain: Chain, tip: BlockIndex, prevout: OutPoint)
  {
    && prevout in chain.view
    && tip.height + 1 - chain.view[prevout].height >= env.params.coinbaseMaturity
    && chain.ancestor(tip, chain.view[prevout].height).Some?
  }

  function CheckProofOfStake(env: Env, chain: Chain, tip: BlockIndex, tx: Transaction,
                             nBits: U32, nTimeBlock: U32, nonce: U32): (r: PosOutcome)
    requires env.isCoinStake(tx) ==> |tx.vin| > 0
    // a non-coinstake is refused without touching the validation state
    ensures !env.isCoinStake(tx) ==> r == PosOutcome(false, StateValid, None)
    // accepted exactly when every gate passes
    ensures r.ok <==> StakeAccepted(env, chain, tip, tx, nBits, nTimeBlock, nonce)
    ensures r.ok ==> r.state == StateValid && r.kernel.Some? && r.kernel.value.Ok()
    ensures !r.ok && env.isCoinStake(tx) ==> r.state.StateInvalid?
    // only the kernel failure is a header-sync failure; all others invalidate the header
    ensures r.state.StateInvalid? ==> (r.state.result == BlockHeaderSync <==> r.state.reason == KERNEL_FAILED)
    // the kernel is evaluated only once every cheaper gate has passed
    ensures r.kernel.Some? ==>
              && env.isCoinStake(tx)
              && CoinResolves(env, chain, tip, tx.vin[0].prevout)
              && chain.view[tx.vin[0].prevout].value >= env.params.minStakingValue
              && env.verifySignature(chain.view[tx.vin[0].prevout], tx.vin[0].prevout.hash, tx, 0)
    // ... and it is evaluated whenever they have
    ensures env.isCoinStake(tx)
            && CoinResolves(env, chain, tip, tx.vin[0].prevout)
            && chain.view[tx.vin[0].prevout].value >= env.params.minStakingValue
            && env.verifySignature(chain.view[tx.vin[0].prevout], tx.vin[0].prevout.hash, tx, 0)
            ==> r.kernel.Some?
    // hashProofOfStake and targetProofOfStake are those of the kernel of the
    // first input's coin, timed by its origin block
    ensures r.kernel.Some? && env.isCoinStake(tx) && CoinResolves(env, chain, tip, tx.vin[0].prevout) ==>
              r.kernel.value == CheckStakeKernelHash(env, tip, nBits,
                                                     chain.ancestor(tip, chain.view[tx.vin[0].prevout].height).value.time,
                                                     chain.view[tx.vin[0].prevout].value, tx.vin[0].prevout,
                                                     nTimeBlock, nonce)
  {
    if !env.isCoinStake(tx) then PosOutcome(false, StateValid, None)
    else
      var prevout := tx.vin[0].prevout;
      match Resolve(env, chain, tip, GetCoin(chain, prevout))
      case CoinMissing => Reject(PREVOUT_MISSING, PrevoutHash(prevout.hash))
      case Immature(expected, actual) => Reject(PREVOUT_IMMATURE, Maturity(expected, actual))
      case AncestorMissing(height) => Reject(PREVOUT_UNLOADABLE, AtHeight(height))
      case Resolved(coin, blockFrom) =>
        if coin.value < env.params.minStakingValue then Reject(BELOW_MIN_UTXO, AtHeight(tip.height + 1))
        else if !env.verifySignature(coin, prevout.hash, tx, 0) then Reject(SIGNATURE_FAILED, NoDetail)
        else
          var kernel := CheckStakeKernelHash(env, tip, nBits, blockFrom.time, coin.value, prevout, nTimeBlock, nonce);
          if !kernel.Ok() then PosOutcome(false, StateInvalid(BlockHeaderSync, KERNEL_FAILED, NoDetail), Some(kernel))
          else PosOutcome(true, StateValid, Some(kernel))
  }

  /**
   * Each reason code is reported exactly when every earlier gate passed and
   * its own gate failed: the first failure wins. A missing origin block is
   * reported with the coin's height.
   */
  lemma FirstFailingGateWins(env: Env, chain: Chain, tip: BlockIndex, tx: Transaction,
                             nBits: U32, nTimeBlock: U32, nonce: U32)
    requires env.isCoinStake(tx)
    requires |tx.vin| > 0
    ensures var r := CheckProofOfStake(env, chain, tip, tx, nBits, nTimeBlock, nonce);
            var prevout := tx.vin[0].prevout;
            && (r.state == StateInvalid(BlockInvalidHeader, PREVOUT_MISSING, PrevoutHash(prevout.hash))
                <==> prevout !in chain.view)
            && (r.state.StateInvalid? && r.state.reason == PREVOUT_IMMATURE
                <==> prevout in chain.view && tip.height + 1 - chain.view[prevout].height < env.params.coinbaseMaturity)
            && (r.state == StateInvalid(BlockInvalidHeader, PREVOUT_UNLOADABLE,
                                        AtHeight(if prevout in chain.view then chain.view[prevout].height else 0))
                <==> prevout in chain.view
                     && tip.height + 1 - chain.view[prevout].height >= env.params.coinbaseMaturity
                     && chain.ancestor(tip, chain.view[prevout].height).None?)
            && (r.state.StateInvalid? && r.state.reason == BELOW_MIN_UTXO
                <==> CoinResolves(env, chain, tip, prevout) && chain.view[prevout].value < env.params.minStakingValue)
            && (r.state.StateInvalid? && r.state.reason == SIGNATURE_FAILED
                <==> CoinResolves(env, chain, tip, prevout)
                     && chain.view[prevout].value >= env.params.minStakingValue
                     && !env.verifySignature(chain.view[prevout], prevout.hash, tx, 0))
            && (r.state.StateInvalid? && r.state.reason == KERNEL_FAILED
                <==> CoinResolves(env, chain, tip, prevout)
                     && chain.view[prevout].value >= env.params.minStakingValue
                     && env.verifySignature(chain.view[prevout], prevout.hash, tx, 0)
                     && !CheckStakeKernelHash(env, tip, nBits, chain.ancestor(tip, chain.view[prevout].height).value.time,
                                              chain.view[prevout].value, prevout, nTimeBlock, nonce).Ok())
  {
  }

  /**
   * An immature coin is reported with the required depth COINBASE_MATURITY
   * and the depth it actually has.
   */
  lemma ImmatureReportsDepths(env: Env, chain: Chain, tip: BlockIndex, tx: Transaction,
                              nBits: U32, nTimeBlock: U32, nonce: U32)
    requires env.isCoinStake(tx) && |tx.vin| > 0
    requires tx.vin[0].prevout in chain.view
    requires tip.height + 1 - chain.view[tx.vin[0].prevout].height < env.params.coinbaseMaturity
    ensures CheckProofOfStake(env, chain, tip, tx, nBits, nTimeBlock, nonce).state
         == StateInvalid(BlockInvalidHeader, PREVOUT_IMMATURE,
                         Maturity(env.params.coinbaseMaturity, tip.height + 1 - chain.view[tx.vin[0].prevout].height))
  {
  }

  /**
   * A stake below the minimum value is refused before the signature and the
   * kernel are looked at: the outcome is the same whatever the signature
   * verifier and the hash function say.
   */
  lemma BelowMinimumIgnoresSignatureAndKernel(env: Env, env': Env, chain: Chain, tip: BlockIndex, tx: Transaction,
                                              nBits: U32, nTimeBlock: U32, nonce: U32)
    requires env.isCoinStake(tx) && |tx.vin| > 0
    requires env' == env.(verifySignature := env'.verifySignature, hash := env'.hash, setCompact := env'.setCompact)
    requires CoinResolves(env, chain, tip, tx.vin[0].prevout)
    requires chain.view[tx.vin[0].prevout].value < env.params.minStakingValue
    ensures CheckProofOfStake(env, chain, tip, tx, nBits, nTimeBlock, nonce)
         == CheckProofOfStake(env', chain, tip, tx, nBits, nTimeBlock, nonce)
         == Reject(BELOW_MIN_UTXO, AtHeight(tip.height + 1))
  {
  }
}
