/**
 * The two checks that the block was produced by the owner of the staked
 * output: the coinstake pays the stake back to the same owner
 * (CheckBlockInputPubKeyMatchesOutputPubKey), and the block signature
 * recovers to the staked output's key (CheckRecoveredPubKeyFromBlockSignature).
 */
module Ownership {
  import opened Primitives

  /**
   * The one relaxation of exact script equality: the input pays to a key hash
   * (P2PKH), the output pays to a public key (P2PK), and both decode to the
   * same key hash.
   */
  ghost predicate KeyHashUpgrade(env: Env, inputScript: Script, outputScript: Script)
  {
    var input, output := env.extractDestination(inputScript), env.extractDestination(outputScript);
    && input.Some? && input.value.kind == PayToPubKeyHash && input.value.dest.PKHashDest?
    && output.Some? && output.value.kind == PayToPubKey && output.value.dest.PKHashDest?
    && input.value.dest.id == output.value.dest.id
  }

  /**
   * The staked coin's script must reappear as the coinstake's second output,
   * or be upgraded from P2PKH to P2PK for the same key. The caller guarantees
   * that the block has a coinstake at vtx[1].
   */
  function CheckBlockInputPubKeyMatchesOutputPubKey(env: Env, chain: Chain, block: Block): (r: bool)
    requires |block.vtx| >= 2
    ensures r <==>
              && block.header.prevoutStake in chain.view
              && |block.vtx[1].vout| >= 2
              && (|| chain.view[block.header.prevoutStake].script == block.vtx[1].vout[1].script
                  || KeyHashUpgrade(env, chain.view[block.header.prevoutStake].script, block.vtx[1].vout[1].script))
  {
    match GetCoin(chain, block.header.prevoutStake)
    case None => false
    case Some(coinIn) =>
      var coinstake := block.vtx[1];
      if |coinstake.vout| < 2 then false
      else
        var txout := coinstake.vout[1];
        if coinIn.script == txout.script then true
        else
          match env.extractDestination(coinIn.script)
          case None => false
          case Some(input) =>
            if input.kind != PayToPubKeyHash || !input.dest.PKHashDest? then false
            else
              match env.extractDestination(txout.script)
              case None => false
              case Some(output) =>
                if output.kind != PayToPubKey || !output.dest.PKHashDest? then false
                else input.dest.id == output.dest.id
  }

  /**
   * Ownership never changes: an accepted block whose output script differs
   * from the staked one pays a P2PK output of the very key hash the P2PKH
   * input paid to; the reverse direction (P2PK input, P2PKH output) is refused.
   */
  lemma AcceptedMismatchIsKeyHashUpgrade(env: Env, chain: Chain, block: Block)
    requires |block.vtx| >= 2
    requires CheckBlockInputPubKeyMatchesOutputPubKey(env, chain, block)
    requires chain.view[block.header.prevoutStake].script != block.vtx[1].vout[1].script
    ensures env.extractDestination(chain.view[block.header.prevoutStake].script).Some?
    ensures env.extractDestination(chain.view[block.header.prevoutStake].script).value.kind == PayToPubKeyHash
    ensures env.extractDestination(block.vtx[1].vout[1].script).Some?
    ensures env.extractDestination(block.vtx[1].vout[1].script).value.kind == PayToPubKey
    ensures env.extractDestination(chain.view[block.header.prevoutStake].script).value.dest
         == env.extractDestination(block.vtx[1].vout[1].script).value.dest
  {
  }

  /** A P2PKH-to-P2PK upgrade to a different key is refused. */
  lemma UpgradeToOtherKeyRefused(env: Env, chain: Chain, block: Block, inId: KeyId, outId: KeyId)
    requires |block.vtx| >= 2 && |block.vtx[1].vout| >= 2
    requires block.header.prevoutStake in chain.view
    requires chain.view[block.header.prevoutStake].script != block.vtx[1].vout[1].script
    requires env.extractDestination(chain.view[block.header.prevoutStake].script)
          == Some(Extracted(PayToPubKeyHash, PKHashDest(inId)))
    requires env.extractDestination(block.vtx[1].vout[1].script) == Some(Extracted(PayToPubKey, PKHashDest(outId)))
    ensures CheckBlockInputPubKeyMatchesOutputPubKey(env, chain, block) <==> inId == outId
  {
  }

  /** The number of (recid, compressed) combinations tried: recid 0..3, compressed 0..1. */
  const RECOVERY_ATTEMPTS: nat := 8

  /** Attempt i tries recid i / 2 with compressed i % 2: compressed varies fastest. */
  function RecoveryId(i: nat): int { i / 2 }

  function RecoveryCompressed(i: nat): bool { i % 2 == 1 }

  /**
   * The staked script decodes to a P2PK or P2PKH destination whose key hash
   * is that of `pubkey`.
   */
  predicate StakerKeyMatches(env: Env, script: Script, pubkey: PubKey)
  {
    match env.extractDestination(script)
    case Some(Extracted(kind, PKHashDest(id))) =>
      (kind == PayToPubKey || kind == PayToPubKeyHash) && env.keyId(pubkey) == id
    case _ => false
  }

  /** Attempt i recovers a key from the signature, and that key owns the staked script. */
  predicate AttemptMatches(env: Env, hash: U256, sig: seq<Byte>, script: Script, i: nat)
  {
    match env.recoverLaxDer(hash, sig, RecoveryId(i), RecoveryCompressed(i))
    case None => false
    case Some(pubkey) => StakerKeyMatches(env, script, pubkey)
  }

  /** The first attempt at or after `from` that matches, if there is one. */
  function FirstMatchingAttempt(env: Env, hash: U256, sig: seq<Byte>, script: Script, from: nat): (r: Option<nat>)
    requires from <= RECOVERY_ATTEMPTS
    ensures r.Some? ==>
              && from <= r.value < RECOVERY_ATTEMPTS
              && AttemptMatches(env, hash, sig, script, r.value)
              && forall j :: from <= j < r.value ==> !AttemptMatches(env, hash, sig, script, j)
    ensures r.None? ==> forall j :: from <= j < RECOVERY_ATTEMPTS ==> !AttemptMatches(env, hash, sig, script, j)
    decreases RECOVERY_ATTEMPTS - from
  {
    if from == RECOVERY_ATTEMPTS then None
    else if AttemptMatches(env, hash, sig, script, from) then Some(from)
    else FirstMatchingAttempt(env, hash, sig, script, from + 1)
  }

  /**
   * The attempt at which the signer search succeeds: none when the staked
   * coin is found neither in the view nor on the main chain, or when the
   * signature is empty.
   */
  function SignerSearch(env: Env, chain: Chain, tip: BlockIndex, header: BlockHeader): (r: Option<nat>)
    ensures r.Some? <==>
              && FindStakedCoin(chain, tip, header.prevoutStake).Some?
              && |header.blockSig| > 0
              && exists i :: 0 <= i < RECOVERY_ATTEMPTS
                   && AttemptMatches(env, env.hashWithoutSign(header), header.blockSig,
                                     FindStakedCoin(chain, tip, header.prevoutStake).value.script, i)
  {
    match FindStakedCoin(chain, tip, header.prevoutStake)
    case None => None
    case Some(coin) =>
      if |header.blockSig| == 0 then None
      else FirstMatchingAttempt(env, env.hashWithoutSign(header), header.blockSig, coin.script, 0)
  }

  /**
   * The signer-recovery search. `attempts` counts the calls to RecoverLaxDER:
   * none when the staked coin is not found or the signature is empty, at most eight, and on success exactly up to
   * the first matching combination.
   */
  method CheckRecoveredPubKeyFromBlockSignature(env: Env, chain: Chain, tip: BlockIndex, header: BlockHeader)
    returns (ok: bool, ghost attempts: nat)
    ensures ok <==> SignerSearch(env, chain, tip, header).Some?
    ensures attempts <= RECOVERY_ATTEMPTS
    ensures FindStakedCoin(chain, tip, header.prevoutStake).None? ==> attempts == 0
    ensures |header.blockSig| == 0 ==> attempts == 0
    ensures ok ==> attempts == SignerSearch(env, chain, tip, header).value + 1
    ensures !ok && FindStakedCoin(chain, tip, header.prevoutStake).Some? && |header.blockSig| > 0 ==>
              attempts == RECOVERY_ATTEMPTS
  {
    attempts := 0;
    var found := FindStakedCoin(chain, tip, header.prevoutStake);
    if found.None? {
      return false, attempts;
    }
    var coinPrev := found.value;
    var hash := env.hashWithoutSign(header);
    if |header.blockSig| == 0 {
      return false, attempts;
    }
    ghost var search := FirstMatchingAttempt(env, hash, header.blockSig, coinPrev.script, 0);

    var recid := 0;
    while recid <= 3
      invariant 0 <= recid <= 4
      invariant attempts == 2 * recid
      invariant forall j :: 0 <= j < attempts ==> !AttemptMatches(env, hash, header.blockSig, coinPrev.script, j)
    {
      var compressed := 0;
      while compressed < 2
        invariant 0 <= compressed <= 2
        invariant attempts == 2 * recid + compressed
        invariant forall j :: 0 <= j < attempts ==> !AttemptMatches(env, hash, header.blockSig, coinPrev.script, j)
      {
        var pubkey := env.recoverLaxDer(hash, header.blockSig, recid, compressed == 1);
        attempts := attempts + 1;
        if pubkey.Some? {
          var address := env.extractDestination(coinPrev.script);
          if address.Some? && (address.value.kind == PayToPubKey || address.value.kind == PayToPubKeyHash)
             && address.value.dest.PKHashDest? && env.keyId(pubkey.value) == address.value.dest.id
          {
            assert AttemptMatches(env, hash, header.blockSig, coinPrev.script, attempts - 1);
            return true, attempts;
          }
        }
        compressed := compressed + 1;
      }
      recid := recid + 1;
    }
    return false, attempts;
  }
}
