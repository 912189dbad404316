/**
 * Values, collaborators and consensus constants shared by the proof-of-stake
 * checks of src/pos.cpp.
 *
 * Everything the file calls but does not define (hashing, compact-target
 * decoding, public-key recovery, script decoding, signature verification,
 * coin and block-index lookups) is a field of function type of `Env` or
 * `Chain`. Nothing is assumed about these functions: every property proved
 * in this project holds for all of them.
 */
module Primitives {

  datatype Option<T> = None | Some(value: T)

  /** 2^256: arith_uint256 arithmetic is modulo this value. */
  const U256_MODULUS: nat := 0x1_0000_0000_0000_0000_0000_0000_0000_0000_0000_0000_0000_0000_0000_0000_0000_0000

  /** uint256 / arith_uint256 values: hashes, targets, stake modifiers. */
  type U256 = x: nat | x < U256_MODULUS

  /** uint32_t / unsigned int values: timestamps, compact bits, output indices. */
  type U32 = x: nat | x < 0x1_0000_0000

  type Byte = bv8

  /** A locking script (scriptPubKey), compared byte for byte. */
  type Script = seq<Byte>

  /** A public key as the bytes RecoverLaxDER fills in. */
  type PubKey = seq<Byte>

  /** The 160-bit hash of a public key (CKeyID, PKHash). */
  type KeyId = nat

  /** COutPoint: the transaction id and output index of a spent output. */
  datatype OutPoint = OutPoint(hash: U256, n: U32)

  /**
   * Coin: an output as the UTXO view reports it. `value` is CAmount,
   * `height` the height of the block that created it.
   */
  datatype Coin = Coin(value: int, height: int, spent: bool, script: Script)

  datatype TxIn = TxIn(prevout: OutPoint)

  datatype TxOut = TxOut(value: int, script: Script)

  datatype Transaction = Transaction(vin: seq<TxIn>, vout: seq<TxOut>)

  /** The fields of CBlockIndex that the checks read. */
  datatype BlockIndex = BlockIndex(height: int, time: U32, stakeModifier: U256)

  /** The fields of CBlockHeader that the checks read. */
  datatype BlockHeader = BlockHeader(prevoutStake: OutPoint, blockSig: seq<Byte>)

  /** CBlock: its header and its transactions (vtx[1] is the coinstake). */
  datatype Block = Block(header: BlockHeader, vtx: seq<Transaction>)

  /** The TxoutType values the ownership checks distinguish. */
  datatype TxoutType = Nonstandard | PayToPubKey | PayToPubKeyHash | OtherStandard

  /** CTxDestination: a PKHash alternative, or any other alternative. */
  datatype Destination = PKHashDest(id: KeyId) | OtherDest

  /** What a successful ExtractDestination reports: the script type and the address. */
  datatype Extracted = Extracted(kind: TxoutType, dest: Destination)

  /** One item written to a CDataStream before hashing. */
  datatype Field = U256Field(v: U256) | U32Field(w: U32)

  /** The consensus constants of the chain parameters header. */
  datatype Params = Params(
    coinbaseMaturity: int,       // COINBASE_MATURITY
    minStakingValue: int,        // DEFAULT_STAKING_MIN_UTXO_VALUE
    stakeTimestampMask: bv32,    // STAKE_TIMESTAMP_MASK
    powPotDiffHelper: U256)      // POW_POT_DIFF_HELPER

  /** The primitives pos.cpp calls into, and the consensus constants. */
  datatype Env = Env(
    hash: seq<Field> -> U256,                                  // Hash(CDataStream)
    setCompact: U32 -> U256,                                   // arith_uint256::SetCompact
    extractDestination: Script -> Option<Extracted>,           // ExtractDestination
    recoverLaxDer: (U256, seq<Byte>, int, bool) -> Option<PubKey>, // CPubKey::RecoverLaxDER
    keyId: PubKey -> KeyId,                                    // CPubKey::GetID
    verifySignature: (Coin, U256, Transaction, int) -> bool,   // VerifySignature, SCRIPT_VERIFY_NONE
    isCoinStake: Transaction -> bool,                          // CTransaction::IsCoinStake
    hashWithoutSign: BlockHeader -> U256,                      // CBlockHeader::GetHashWithoutSign
    params: Params)

  /**
   * The chain state the checks read: the UTXO view (CCoinsViewCache), the
   * ancestor lookup of the block index (CBlockIndex::GetAncestor) and the
   * main-chain lookup of spent coins (GetSpentCoinFromMainChain).
   */
  datatype Chain = Chain(
    view: map<OutPoint, Coin>,
    ancestor: (BlockIndex, int) -> Option<BlockIndex>,
    spentCoinFromMainChain: (BlockIndex, OutPoint) -> Option<Coin>)

  /** Two different hash streams with the same hash: a collision of `env.hash`. */
  predicate Collides(env: Env, a: seq<Field>, b: seq<Field>)
  {
    a != b && env.hash(a) == env.hash(b)
  }

  /** CCoinsViewCache::GetCoin. */
  function GetCoin(chain: Chain, prevout: OutPoint): Option<Coin>
  {
    if prevout in chain.view then Some(chain.view[prevout]) else None
  }

  /**
   * The coin lookup with main-chain fallback shared by
   * CheckRecoveredPubKeyFromBlockSignature and CheckKernel: the view first,
   * GetSpentCoinFromMainChain when the view does not have it.
   */
  function FindStakedCoin(chain: Chain, tip: BlockIndex, prevout: OutPoint): (r: Option<Coin>)
    ensures prevout in chain.view ==> r == Some(chain.view[prevout])
    ensures prevout !in chain.view ==> r == chain.spentCoinFromMainChain(tip, prevout)
  {
    match GetCoin(chain, prevout)
    case Some(coin) => Some(coin)
    case None => chain.spentCoinFromMainChain(tip, prevout)
  }
}
