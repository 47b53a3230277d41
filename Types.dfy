/** Value types of the secret social recovery pallet: account ids, block
    numbers, the two stored records, origins, errors, events, and the shapes
    of the three collaborators the pallet calls but does not implement
    (signature verification, merkle proof validation, call dispatch). */
module RecoveryTypes {

  /** Account ids are sr25519 public keys in the runtime. The pallet only
      compares them for equality and, through `binary_search`, by their
      total order, which `nat` provides. */
  type AccountId = nat

  /** The runtime's `BlockNumber` is `u64`. */
  const MAX_BLOCK_NUMBER: nat := 0xFFFF_FFFF_FFFF_FFFF

  type BlockNumber = n: nat | n <= 0xFFFF_FFFF_FFFF_FFFF

  /** The width of `RecoveryConfig::threshold`. */
  type U16 = n: nat | n <= 0xFFFF

  type Bytes = seq<bv8>

  /** An sr25519 signature, as opaque bytes. */
  type Signature = Bytes

  datatype Option<T> = None | Some(value: T)

  /** Stored once per recoverable account; never updated. */
  datatype RecoveryConfig = RecoveryConfig(
    delayPeriod: BlockNumber,
    friendsMerkleRoot: Bytes,
    threshold: U16)

  /** Stored per (lost, rescuer) pair. `approvedFriends` is kept sorted. */
  datatype ActiveRecovery = ActiveRecovery(
    created: BlockNumber,
    approvedFriends: seq<AccountId>)

  /** `Recoverable`: lost account to its configuration. */
  type Configs = map<AccountId, RecoveryConfig>

  /** `ActiveRecoveries`: (lost, rescuer) to the recovery attempt. */
  type Ledger = map<(AccountId, AccountId), ActiveRecovery>

  /** `Proxy`: rescuer to the account it may act for. */
  type Proxies = map<AccountId, AccountId>

  /** A merkle inclusion proof. Only `value`, the claimed leaf, is read by
      the pallet; the rest is handed to the validator untouched. */
  datatype MerkleProof = MerkleProof(value: AccountId, rootHash: Bytes, path: seq<Bytes>)

  /** A runtime call forwarded by `as_recovered`, as an opaque encoding. */
  datatype Call = Call(encoded: Bytes)

  datatype Origin = Root | Signed(who: AccountId) | NoneOrigin

  /** The pallet's error variants that some dispatchable raises. */
  datatype Error =
    | NotAllowed
    | ZeroThreshold
    | AlreadyRecoverable
    | AlreadyStarted
    | NotRecoverable
    | SignatureInvalid
    | MerkleProofInvalid
    | NotStarted
    | AlreadyApproved
    | AlreadyProxied
    | Overflow
    | DelayPeriod
    | UnderThreshold

  /** `BadOrigin` comes from `ensure_signed`/`ensure_root`; `Other` stands for
      any error a forwarded call of another pallet may return. */
  datatype DispatchError = BadOrigin | Module(error: Error) | Other(code: nat)

  /** `DispatchResult`. */
  datatype Outcome = Ok | Err(reason: DispatchError)

  datatype Event =
    | RecoveryCreated(who: AccountId)
    | RecoveryInitiated(lost: AccountId, rescuer: AccountId)
    | AccountRecovered(lost: AccountId, rescuer: AccountId)
    | ApprovedRecovery(lost: AccountId, rescuer: AccountId, approver: AccountId)

  /** `sr25519::Pair::verify(signature, message, public)`. The message is an
      account id and the public key is the signer's account id itself. */
  type SignatureVerifier = (Signature, AccountId, AccountId) -> bool

  /** `Proof::validate(root)`. */
  type ProofValidator = (MerkleProof, Bytes) -> bool

  /** `call.dispatch(origin)`, executed by the rest of the runtime. */
  type Dispatcher = (Call, Origin) -> Outcome

  /** `BlockNumber::checked_add` on `u64`. */
  function CheckedAdd(a: BlockNumber, b: BlockNumber): (r: Option<BlockNumber>)
    ensures r.Some? <==> a + b <= MAX_BLOCK_NUMBER
    ensures r.Some? ==> r.value == a + b && a <= r.value && b <= r.value
  {
    if a + b <= MAX_BLOCK_NUMBER then Some(a + b) else None
  }
}
