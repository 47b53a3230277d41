# Secret social recovery pallet, modelled in Dafny

The pallet lets the owner of an account commit to a hidden set of friends.
Only a merkle root of the friends' account ids is stored. Each friend later
vouches for one rescuer with two things: a merkle inclusion proof and a
signature over the rescuer's id. Once enough friends have vouched, and the
delay period has passed, the rescuer becomes a proxy of the lost account.
A proxy can forward any call with the lost account as origin. Root can also
install a proxy directly.

The model follows `src/lib.rs`:

- `Types.dfy` (module `RecoveryTypes`) holds the value types:
  - `RecoveryConfig` and `ActiveRecovery`;
  - the three storage maps `Recoverable`, `ActiveRecoveries` and `Proxy`, as `Configs`, `Ledger` and `Proxies`;
  - origins (`Root | Signed(who) | NoneOrigin`), the error variants that are raised, and the events;
  - `u64` block numbers with `checked_add`;
  - the arrow types of the three collaborators (signature verification, merkle proof validation, call dispatch).
- `SortedVec.dfy` (module `SortedVec`) is the approvals vector:
  - `binary_search` is a loop with invariants;
  - `Vec::insert` is `InsertAt`;
  - `Insert` is a reference definition of the ordered-set insert;
  - lemmas: insertion keeps the vector sorted without duplicates and adds exactly one element; a strictly sorted sequence is determined by its elements; two inserts commute.
- `Rules.dfy` (module `RecoveryRules`) holds the check chain of each dispatchable, as a pure function of the storage it reads:
  - each check returns `Ok` or the first failing error, in the source's order;
  - its contract states the success condition as an if-and-only-if, and names the condition behind each error;
  - the lemmas relate several calls: approvals commute, a repeated approval is refused, a second claim is refused, two rescuers can both claim one account, and a proxy entry authorises forwarding.
- `Pallet.dfy` (module `Pallet`) holds the class `RecoveryPallet`:
  - its fields are the three maps, the current block number, the reference counters and the event log;
  - there is one method per dispatchable, written check by check as the source is;
  - the four dispatchables with a check chain (`CreateRecovery`, `InitiateRecovery`, `ApproveRecovery`, `ClaimRecovery`) return exactly the outcome of their check function;
  - `AsRecovered` returns `ProxyCheck`'s error when the check fails, and otherwise whatever the dispatched call returns;
  - `SetRecovered` has no check function: it succeeds exactly for a root origin;
  - a rejected call leaves the object unchanged (`unchanged(this)`);
  - a successful call makes exactly the listed writes and keeps the storage invariant `Valid()`. The invariant says:
    - every stored threshold is at least 1;
    - every attempt belongs to a recoverable account;
    - every approvals vector is sorted without duplicates.
  - Four methods with no contract replay the scenarios of `src/tests.rs`. They are `SetRecoveredScenario`, `InitiateRecoveryScenario`, `ApproveRecoveryScenario` and `ClaimRecoveryScenario`. Each one states the facts it needs about signatures and proofs in its `requires`.

Points where the source's behaviour is easy to misread:

- `approve_recovery` discards the result of `ensure_signed` (src/lib.rs:229). So any origin is accepted, including unsigned and root.
- `as_recovered` with an unsigned origin fails `BadOrigin`, not `NotAllowed` (src/lib.rs:177).
- The signature an approver gives covers only the rescuer's id (src/lib.rs:236). It does not cover the lost account. `SignatureBindsRescuer` states the binding the code does provide.

## Model

| member | source | states |
|---|---|---|
| `RecoveryTypes.CheckedAdd` | src/lib.rs:257 | `checked_add` on `u64` block numbers. The result is `Some` exactly when the sum does not exceed 2^64-1, and it then holds the sum. |
| `SortedVec.BinarySearch` | src/lib.rs:242-244 | `binary_search` on a sorted vector. `Found` holds exactly when the element is present, at an index where it occurs. `NotFound(pos)` gives the insertion point: everything before `pos` is smaller and everything from `pos` on is larger. |
| `SortedVec.InsertAt` | src/lib.rs:244 | `Vec::insert(pos, x)`: the result is one longer, holds `x` at `pos`, keeps the elements before `pos` in place and shifts every element from `pos` on one place to the right. |
| `SortedVec.InsertAtSearchPoint` | src/lib.rs:242-244 | `Vec::insert` at the position `binary_search` reports for an absent approver gives the same vector as the ordered-set insert. |
| `SortedVec.InsertKeepsStrictlySorted` | src/lib.rs:69-70 | Inserting into a strictly sorted vector keeps it strictly sorted. The elements become the old ones plus the new one, so the length grows by exactly 1 for an absent element. Inserting an element that is already present changes nothing. |
| `SortedVec.StrictlySortedUnique` | src/lib.rs:69-70 | Two strictly sorted vectors with the same elements are equal. So the stored approvals depend only on who approved. |
| `SortedVec.InsertCommutes` | src/lib.rs:242-245 | On a strictly sorted vector, inserting `a` then `b` gives the same vector as inserting `b` then `a`. |
| `RecoveryRules.CreateRecoveryCheck` | src/lib.rs:191-195 | `create_recovery` succeeds iff the origin is signed, the caller has no configuration, and the threshold is at least 1. Otherwise it fails `BadOrigin`, then `AlreadyRecoverable`, then `ZeroThreshold`, in that order. |
| `RecoveryRules.InitiateRecoveryCheck` | src/lib.rs:212-216 | `initiate_recovery` succeeds iff the origin is signed, `lost` has a configuration, and the (lost, rescuer) pair has no attempt. Otherwise it fails `BadOrigin`, `NotRecoverable` or `AlreadyStarted`, in that order. |
| `RecoveryRules.ApproveRecoveryCheck` | src/lib.rs:229-245 | `approve_recovery` succeeds iff all of these hold: `lost` has a configuration; `proof.value`'s signature over the rescuer's id verifies; the proof validates against the stored root; the attempt exists; `proof.value` is not yet among its approvals. Otherwise it fails `NotRecoverable`, `SignatureInvalid`, `MerkleProofInvalid`, `NotStarted` or `AlreadyApproved`, the first failing check in that order. The origin never causes an error. |
| `RecoveryRules.ClaimRecoveryCheck` | src/lib.rs:251-260 | `claim_recovery` succeeds iff all of these hold: the origin is signed; a configuration exists; the attempt exists; the rescuer holds no proxy; `created + delay_period` does not overflow `u64`; that sum is at most the current block; the approvals number at least the threshold. Otherwise it fails `BadOrigin`, `NotRecoverable`, `NotStarted`, `AlreadyProxied`, `Overflow`, `DelayPeriod` or `UnderThreshold`, the first failing check in that order. |
| `RecoveryRules.ProxyCheck` | src/lib.rs:177-180 | Forwarding is allowed iff the signed caller has a `Proxy` entry and that entry equals `lost`. An unsigned origin fails `BadOrigin`; every other refusal is `NotAllowed`. |
| `RecoveryRules.ApplyApproval` | src/lib.rs:242-246 | The ledger `approve_recovery` writes. The same attempts exist, and every attempt other than (lost, rescuer) is unchanged. That attempt keeps its `created` block, and its approvals become the ordered-set insert of the approver. |
| `RecoveryRules.ApprovalKeepsInvariant` | src/lib.rs:241-246 | After a successful approval, the storage invariant still holds and the same attempts exist. The attempt's `created` is unchanged. Its approvals are the old set plus the approver, and its length grows by exactly 1. |
| `RecoveryRules.DuplicateApprovalRejected` | src/lib.rs:242-243 | Repeating a successful approval, with the same signature and proof, fails `AlreadyApproved`. |
| `RecoveryRules.ApprovalsCommute` | src/lib.rs:242-246 | Take two distinct friends who could each approve an attempt. Whichever approves first, the other's approval still succeeds, and both orders store the same ledger. |
| `RecoveryRules.SignatureBindsRescuer` | src/lib.rs:233-236 | A signature is bound to the rescuer it names. Suppose a friend's signature admits one rescuer's attempt but does not verify over a second rescuer's id. Then the same friend's approval of the second rescuer's attempt, with that signature, fails `SignatureInvalid`, whatever proof comes with it. |
| `RecoveryRules.SecondClaimRejected` | src/lib.rs:254 | After a successful claim, the same rescuer's next claim on the same account fails `AlreadyProxied` at any block. The attempt is never removed. |
| `RecoveryRules.ClaimStaysPossible` | src/lib.rs:256-258 | A claim that is possible at some block stays possible at every later block, as long as the storage is unchanged. The delay is a gate checked at claim time. |
| `RecoveryRules.ConcurrentClaimsBothSucceed` | src/lib.rs:250-263 | Two different rescuers who can each claim the same lost account can both do so: the first claim does not block the second. |
| `RecoveryRules.ProxyEntryAuthorises` | src/lib.rs:177-180 | A `Proxy` entry rescuer → lost lets the rescuer forward calls for `lost`, and for no other account. |
| `Pallet.RecoveryPallet.constructor` | src/lib.rs:74-97 | Genesis: all three maps are empty, there are no reference counts and no events, and the storage invariant holds. |
| `Pallet.RecoveryPallet.SetBlockNumber` | src/mock.rs:133-141 | The host moves the current block forward. Nothing else changes. |
| `Pallet.RecoveryPallet.SetRecovered` | src/lib.rs:161-166 | Only a root origin succeeds; any other origin fails `BadOrigin` and changes nothing. For root, `Proxy[rescuer] = lost` is written whatever the rest of storage holds, replacing any earlier entry. The reference count is not touched and `AccountRecovered` is logged. |
| `Pallet.RecoveryPallet.AsRecovered` | src/lib.rs:173-182 | If the caller is `lost`'s proxy, the call is dispatched with `Signed(lost)` as origin and its result is returned unchanged. Otherwise the method fails without dispatching: `BadOrigin` for an unsigned origin, `NotAllowed` for a caller without a matching proxy entry. |
| `Pallet.RecoveryPallet.CreateRecovery` | src/lib.rs:186-208 | Returns `CreateRecoveryCheck`'s outcome. On success, `Recoverable[who]` is exactly `{delay_period, friends_merkle_root, threshold}`, nothing else in storage changes, `RecoveryCreated` is logged and the invariant is kept. On failure nothing changes. |
| `Pallet.RecoveryPallet.InitiateRecovery` | src/lib.rs:211-225 | Returns `InitiateRecoveryCheck`'s outcome. On success, the (lost, rescuer) attempt is `{created: current block, approved_friends: []}` and `RecoveryInitiated` is logged. On failure, including `AlreadyStarted`, the existing attempt and all other storage stay unchanged. |
| `Pallet.RecoveryPallet.ApproveRecovery` | src/lib.rs:228-248 | Returns `ApproveRecoveryCheck`'s outcome, whatever the origin. On success, the approver goes into the approvals through `binary_search` and `Vec::insert`. The stored vector equals the ordered-set insert, stays strictly sorted, gains exactly the approver and grows by 1. `created` and all other storage are unchanged, and `ApprovedRecovery` is logged. On failure nothing changes. |
| `Pallet.RecoveryPallet.ClaimRecovery` | src/lib.rs:250-264 | Returns `ClaimRecoveryCheck`'s outcome. On success, `Proxy[rescuer] = lost` is written and the rescuer's reference count goes up by exactly 1. `Recoverable`, `ActiveRecoveries` and the block number are unchanged, and `AccountRecovered` is logged. On failure nothing changes. |

## Left out

- Weights and fees are not modelled. This covers the `SimpleDispatchInfo` constants and the `FunctionOf` weight of `as_recovered` (src/lib.rs:160, 168-172, 185, 210). They are host accounting, not protocol logic.
- The storage, event and module macros (`decl_storage!`, `decl_event!`, `decl_module!`) and the storage hashers are not modelled. Storage is plain fields of the class, and `deposit_event` appends to an `events` sequence.
- `sr25519::Pair::verify` and `merkle::Proof::validate` are not modelled. They are foreign libraries, so they are uninterpreted functions fixed when the pallet is built. Whether `validate` ties `proof.value` to the proved leaf is a property of the merkle library, which is not part of this model.
- The conversion of the approver's id to a 32-byte public key (src/lib.rs:234) is not modelled. It always succeeds when account ids are sr25519 public keys, so the approver's account id is passed to the verifier as the key.
- `AsRecovered`: what the forwarded call does to storage, including this pallet's own storage, is not modelled. The call goes to an injected dispatcher, and its result is returned unchanged.
- `ClaimRecovery`: the reference counter is an unbounded natural number. frame_system, which owns `inc_ref`, is not part of this model, so its counter width and saturation are not captured.
- Account ids are natural numbers under their usual order. This stands in for the byte order of sr25519 public keys, which is all `binary_search` uses.
- The error variants `NoneValue`, `StorageOverflow` and `InconsistentProofValue` (src/lib.rs:118-120, 138) are declared but never raised, so they are not in the model's `Error` type.
- The mock runtime (src/mock.rs) is not modelled: genesis balances, key derivation and the balances pallet. The test scenarios are replayed against abstract verifiers and an abstract dispatcher.
- Substrate's rollback of a failed dispatch is not modelled. It is not needed: every error in the pallet is raised before any write.
