# Proof-of-stake kernel validation, modelled in Dafny

This project models the proof-of-stake consensus gates of `src/pos.cpp`:

- the chained stake modifier (`ComputeStakeModifier`);
- the collapsed kernel check (`CheckStakeKernelHash`);
- the ordered validation of a coinstake with its reason codes (`CheckProofOfStake`);
- the coinstake timestamp mask (`CheckCoinStakeTimestamp`);
- the two ownership checks (`CheckBlockInputPubKeyMatchesOutputPubKey` and
  `CheckRecoveredPubKeyFromBlockSignature`);
- the staking session's kernel cache (`CacheKernel`, both `CheckKernel` overloads).

The code that works step by step takes imperative form:

- `CheckRecoveredPubKeyFromBlockSignature` is a method with the source's nested
  `recid`/`compressed` loops and early exit.
- `CacheKernel` is a method that updates the `entries` map of a `StakeCacheMap`
  object, the caller-owned `std::map`.
- The two `CheckKernel` overloads are two mutually recursive methods. In Dafny
  they are `CheckKernel` (no cache) and `CheckKernelWithCache`. The cache-less
  one allocates a fresh empty map, so the recursion from a cache hit always
  takes the miss branch.

The remaining gates are functions. Each method is proved against a
specification function, and the properties the source promises are proved
about those functions.

Everything `pos.cpp` calls but does not define is a field of function type in
`Primitives.Env` or `Primitives.Chain`. Nothing is assumed about these
functions, so every property holds for every hash function, every compact
decoder, every key-recovery routine and every chain state:

- hashing of a `CDataStream`, as a sequence of fields in serialisation order;
- `SetCompact`;
- `RecoverLaxDER` and `GetID`;
- `ExtractDestination`;
- `VerifySignature`;
- `IsCoinStake`;
- `GetHashWithoutSign`;
- `GetAncestor`;
- `GetSpentCoinFromMainChain`;
- the UTXO view, as a map.

The header constants `COINBASE_MATURITY`, `DEFAULT_STAKING_MIN_UTXO_VALUE`,
`STAKE_TIMESTAMP_MASK` and `POW_POT_DIFF_HELPER` are the fields of
`Primitives.Params`, with arbitrary values.

Modules, one per component:

- `Primitives`: the shared values, collaborators and constants.
- `StakeResolution`: coin lookup, maturity and ancestor gates, shared by three operations.
- `StakeModifier`, `KernelHash`, `ProofOfStake`, `CoinStakeTimestamp`, `Ownership` and `KernelCache`: one each.
- `Consistency`: lemmas relating the block-validation path to the staking path.

Where the code differs from its comments or from the plain reading of the protocol, the model follows the code:

- The comment above `CheckStakeKernelHash` states the kernel as `hash < bnTarget`;
  the code rejects only `actual > bnTarget`, so a hash equal to the bound passes.
- `POW_POT_DIFF_HELPER*bnTarget` is an `arith_uint256` product, so it wraps modulo
  2^256 (`KernelHash.ScaledTarget`). The comparison bound is the plain product
  only when that product is below 2^256 (`KernelHash.KernelBoundWithoutOverflow`).
- `CheckStakeKernelHash` takes `prevoutValue` but never reads it. The model keeps the
  parameter, and `KernelHash.KernelIgnoresPrevoutValue` states that it has no influence.

## Model

| member | source | states |
|---|---|---|
| StakeModifier.ComputeStakeModifier | src/pos.cpp:29-37 | a null predecessor gives the all-zero modifier; otherwise the result is the hash of the stream (kernel, predecessor's modifier), kernel first |
| StakeModifier.ModifierDependsOnlyOnPrevModifier | src/pos.cpp:34-36 | of the predecessor block only its own stake modifier enters the result |
| StakeModifier.DistinctKernelsDistinctModifiers | src/pos.cpp:34-36 | two different kernels on the same predecessor give different modifiers unless the hash collides on the two streams |
| StakeModifier.SwappedInputsDistinctModifiers | src/pos.cpp:33-36 | swapping a block's kernel value and its predecessor's modifier changes the modifier unless the two are equal or the hash collides |
| KernelHash.CheckStakeKernelHash | src/pos.cpp:58-95 | a block time before the origin time is a time violation whatever the other inputs; then a nonce other than 0xD0D0FACE is a nonce violation; otherwise the target out-parameter is the unscaled SetCompact(nBits), the proof hash is the hash of (modifier, origin time, prevout hash, prevout index, block time), and the check passes iff that hash is at most POW_POT_DIFF_HELPER times the target (mod 2^256) |
| KernelHash.KernelIgnoresPrevoutValue | src/pos.cpp:58-80 | the outcome is the same for every prevoutValue |
| KernelHash.KernelDependsOnlyOnTipModifier | src/pos.cpp:74-80 | of the tip block only its stake modifier enters the kernel |
| KernelHash.KernelBoundWithoutOverflow | src/pos.cpp:67-94 | when POW_POT_DIFF_HELPER * SetCompact(nBits) is below 2^256, a kernel with the marker nonce is met iff the time order holds and its hash is at most that plain product |
| KernelHash.DistinctKernelsDistinctProofs | src/pos.cpp:74-81 | two kernel checks with different tip modifier, origin time, prevout or block time report different proof hashes unless the hash collides |
| StakeResolution.Resolve | src/pos.cpp:108-119 | a found coin is rejected as immature iff nHeight + 1 - coin height < COINBASE_MATURITY (reporting both numbers), then as unloadable iff the ancestor at the coin's height is null; otherwise the coin and that ancestor are resolved |
| Primitives.FindStakedCoin | src/pos.cpp:195-200 | the coin comes from the view when the view has it, and from the main-chain lookup otherwise |
| ProofOfStake.CheckProofOfStake | src/pos.cpp:98-137 | a non-coinstake is refused with no reason code; accepted iff every gate passes; only the kernel failure is BLOCK_HEADER_SYNC and every other reason is BLOCK_INVALID_HEADER; the kernel is evaluated iff coin, maturity, ancestor, minimum value and signature gates pass, and the reported proof hash and target are those of CheckStakeKernelHash on the coin's value and origin-block time |
| ProofOfStake.FirstFailingGateWins | src/pos.cpp:100-136 | each reason code (doesnotexist, notmature, couldnotload, stake-less-than-min-utxo, signature-verify, kernel-check) is reported iff all earlier gates passed and its own failed (for the kernel: CheckStakeKernelHash on the coin is not met); couldnotload reports the coin's height |
| ProofOfStake.ImmatureReportsDepths | src/pos.cpp:112-114 | an immature coin is reported with the required COINBASE_MATURITY and the depth the coin actually has |
| ProofOfStake.BelowMinimumIgnoresSignatureAndKernel | src/pos.cpp:121-131 | a stake below the minimum value is refused with "stake-less-than-min-utxo" whatever the signature verifier, the hash and the compact decoder say |
| CoinStakeTimestamp.CheckCoinStakeTimestamp | src/pos.cpp:140-143 | a timestamp is accepted iff no bit of STAKE_TIMESTAMP_MASK is set in it |
| CoinStakeTimestamp.RoundedDownAccepted | src/pos.cpp:140-143 | clearing the mask bits of any timestamp (rounding down onto the grid) gives an accepted timestamp |
| CoinStakeTimestamp.RoundedDownNotLater | src/pos.cpp:140-143 | rounding down onto the grid never gives a later timestamp |
| CoinStakeTimestamp.NextTimestampRefused | src/pos.cpp:140-143 | when the mask's lowest bit is set, the timestamp after an accepted one is refused |
| Ownership.CheckBlockInputPubKeyMatchesOutputPubKey | src/pos.cpp:145-191 | accepted iff the staked coin is in the view, the coinstake has at least two outputs, and its second output's script equals the coin's script or the coin is P2PKH and the output P2PK with the same key hash |
| Ownership.AcceptedMismatchIsKeyHashUpgrade | src/pos.cpp:162-190 | an accepted block whose output script differs from the staked one pays P2PK to the same key hash the P2PKH input paid to: ownership never changes |
| Ownership.UpgradeToOtherKeyRefused | src/pos.cpp:174-188 | a P2PKH input with a P2PK output is accepted iff the two key hashes are equal |
| Ownership.FirstMatchingAttempt | src/pos.cpp:209-226 | the result is the first (recid, compressed) combination, in the loop's order, whose recovered key owns the staked P2PK/P2PKH script; none means no combination of the eight does |
| Ownership.SignerSearch | src/pos.cpp:193-228 | the search succeeds iff the coin is found in the view or on the main chain, the signature is non-empty, and some of the eight combinations recovers the staked script's key |
| Ownership.CheckRecoveredPubKeyFromBlockSignature | src/pos.cpp:193-229 | returns the search result; makes no recovery attempt when the coin is not found or the signature is empty, at most eight in all, stops at the first matching combination and tries all eight before failing |
| KernelCache.CacheEntryFor | src/pos.cpp:281-294 | an entry exists iff the coin is in the view (no main-chain fallback, no spent check), mature, and its ancestor loads; it records the ancestor's time and the coin's value |
| KernelCache.CacheAfter | src/pos.cpp:275-296 | nothing changes when the outpoint is already a key or does not resolve; otherwise exactly one entry is added, and existing entries are never changed |
| KernelCache.CacheKernel | src/pos.cpp:275-296 | the caller's map becomes the map CacheAfter describes |
| KernelCache.CheckKernel | src/pos.cpp:231-235 | the check without a cache is the uncached kernel check |
| KernelCache.CheckKernelWithCache | src/pos.cpp:237-273 | a miss gives the uncached check (coin with fallback, mature, ancestor, unspent, kernel); a hit gives the pre-filter on the cached values confirmed by the uncached check |
| KernelCache.CachedKernelSound | src/pos.cpp:263-271 | whatever the cache holds, a cached success is an uncached success |
| KernelCache.FailedPreFilterRejects | src/pos.cpp:266-272 | a hit whose pre-filter fails is a failure |
| KernelCache.StaleEntryMayHideKernel | src/pos.cpp:262-272 | on a hit where the chain supports a kernel, the result is decided by the recorded entry alone: a stale entry can hide a valid kernel (false negatives only) |
| KernelCache.FreshEntryAgrees | src/pos.cpp:266-295 | after CacheKernel inserts an entry for an outpoint, the cached check on the same chain gives exactly the uncached result |
| KernelCache.CacheEntryMatchesUncachedResolution | src/pos.cpp:243-256 | when CacheKernel would insert an entry, the uncached path resolves the same coin and ancestor the entry records |
| Consistency.AcceptedStakePassesCheckKernel | src/pos.cpp:108-131 | a coinstake CheckProofOfStake accepts, whose coin is unspent, passes the cache-less CheckKernel with the same bits, time and nonce |
| Consistency.CacheEntryIffCoinResolves | src/pos.cpp:282-292 | CacheKernel records an entry for the first input's coin iff CheckProofOfStake is not refused as doesnotexist, notmature or couldnotload |

## Left out

- Serialisation and hashing (`CDataStream`, `Hash`): abstract, a function of the ordered stream of fields. Byte encoding is not modelled.
- `arith_uint256::SetCompact` (its negative and overflow flags included) and `UintToArith256`: abstract; a `uint256` is a natural number below 2^256.
- ECDSA key recovery (`RecoverLaxDER`, `GetID`), `ExtractDestination`, `VerifySignature` and `IsCoinStake`: foreign crypto and script code, abstract functions.
- `GetHashWithoutSign` and the header fields other than `prevoutStake` and `vchBlockSig`: the hash is abstract.
- The internals of `CCoinsViewCache::GetCoin`, `GetAncestor` and `GetSpentCoinFromMainChain`: external chain state, given as a map and two functions. Whether the view reports spent coins is not assumed.
- Logging (`LogPrint`, `error()`) and the `fPrintProofOfStake` flag: they only print.
- The text of the debug messages of `state.Invalid`: only the numbers they report (prevout hash, required and actual maturity, heights) are kept; transaction hashes and the proof hash are not.
- CheckProofOfStake: a non-coinstake leaves the caller's `BlockValidationState` untouched; the model shows that untouched state as `StateValid`, as for a fresh state.
- CheckStakeKernelHash: on an early rejection the out-parameters keep whatever the caller had in them; the model has no value for them in that case (`TimeViolation`, `NonceViolation`).
- CoinStakeTimestamp.CheckCoinStakeTimestamp: that the accepted timestamps are exactly the multiples of 2^k for a mask of the k low bits is not proved; the solver does not settle the bit-vector/integer link reliably. The rounding-down lemmas state the grid in bit-vector terms.
- CheckBlockInputPubKeyMatchesOutputPubKey: the source reads `block.vtx[1]` without a bounds check; the model requires a block with at least two transactions.
- CheckProofOfStake: the source reads `tx.vin[0]` of a coinstake without a bounds check; the model requires that a transaction `IsCoinStake` accepts has an input.
- Concurrency: the file has none; the cache is single-session state.
