/** The pallet's storage and its six dispatchables. Each dispatchable reads,
    checks, and only then writes, so every method either fails with storage
    untouched or succeeds with the writes listed in its contract. */
module Pallet {
  import opened RecoveryTypes
  import opened SortedVec
  import opened RecoveryRules

  /** frame_system's per-account reference counter; an absent entry is 0. */
  function RefCountOf(refs: map<AccountId, nat>, who: AccountId): nat {
    if who in refs then refs[who] else 0
  }

  class RecoveryPallet {
    /** The three collaborators: signature scheme, merkle library, runtime dispatch. */
    const verify: SignatureVerifier
    const validate: ProofValidator
    const dispatch: Dispatcher

    /** `Recoverable`, `ActiveRecoveries`, `Proxy`. */
    var recoverable: Configs
    var activeRecoveries: Ledger
    var proxy: Proxies

    /** Host state the pallet reads or touches: the current block number,
        the account reference counters and the deposited events. */
    var blockNumber: BlockNumber
    var refCount: map<AccountId, nat>
    var events: seq<Event>

    ghost predicate Valid()
      reads this
    {
      StorageInvariant(recoverable, activeRecoveries)
    }

    /** Genesis: empty storage at block `genesisBlock`. */
    constructor (verify: SignatureVerifier, validate: ProofValidator, dispatch: Dispatcher, genesisBlock: BlockNumber)
      ensures Valid()
      ensures this.verify == verify && this.validate == validate && this.dispatch == dispatch
      ensures recoverable == map[] && activeRecoveries == map[] && proxy == map[]
      ensures blockNumber == genesisBlock && refCount == map[] && events == []
    {
      this.verify, this.validate, this.dispatch := verify, validate, dispatch;
      recoverable, activeRecoveries, proxy := map[], map[], map[];
      blockNumber, refCount, events := genesisBlock, map[], [];
    }

    /** The host moves to a later block. */
    method SetBlockNumber(n: BlockNumber)
      requires Valid()
      requires blockNumber <= n
      modifies this
      ensures Valid()
      ensures blockNumber == n
      ensures recoverable == old(recoverable) && activeRecoveries == old(activeRecoveries)
      ensures proxy == old(proxy) && refCount == old(refCount) && events == old(events)
    {
      blockNumber := n;
    }

    /** Root installs `rescuer` as proxy of `lost`, replacing any entry the
        rescuer had, whatever the rest of storage says. */
    method SetRecovered(origin: Origin, lost: AccountId, rescuer: AccountId) returns (r: Outcome)
      requires Valid()
      modifies this
      ensures Valid()
      ensures r == (if origin.Root? then Ok else Err(BadOrigin))
      ensures r.Ok? ==> proxy == old(proxy)[rescuer := lost]
      ensures r.Ok? ==> events == old(events) + [AccountRecovered(lost, rescuer)]
      ensures r.Ok? ==> recoverable == old(recoverable) && activeRecoveries == old(activeRecoveries)
      ensures r.Ok? ==> refCount == old(refCount) && blockNumber == old(blockNumber)
      ensures r.Err? ==> unchanged(this)
    {
      if !origin.Root? {
        return Err(BadOrigin);
      }
      proxy := proxy[rescuer := lost];
      events := events + [AccountRecovered(lost, rescuer)];
      r := Ok;
    }

    /** Forwards `call` with `lost` as signed origin when the caller is
        `lost`'s proxy, and returns what the call returns. */
    method AsRecovered(origin: Origin, lost: AccountId, call: Call) returns (r: Outcome)
      ensures ProxyCheck(proxy, origin, lost) == Ok ==> r == dispatch(call, Signed(lost))
      ensures ProxyCheck(proxy, origin, lost) != Ok ==> r == ProxyCheck(proxy, origin, lost)
      ensures !origin.Signed? ==> r == Err(BadOrigin)
      ensures origin.Signed? && (origin.who !in proxy || proxy[origin.who] != lost) ==> r == Err(Module(NotAllowed))
    {
      if !origin.Signed? {
        return Err(BadOrigin);
      }
      var rescuer := origin.who;
      if rescuer !in proxy {
        return Err(Module(NotAllowed));
      }
      var target := proxy[rescuer];
      if target != lost {
        return Err(Module(NotAllowed));
      }
      r := dispatch(call, Signed(lost));
    }

    /** The caller makes its own account recoverable, once. */
    method CreateRecovery(origin: Origin, friendsMerkleRoot: Bytes, threshold: U16, delayPeriod: BlockNumber)
      returns (r: Outcome)
      requires Valid()
      modifies this
      ensures Valid()
      ensures r == CreateRecoveryCheck(old(recoverable), origin, threshold)
      ensures r.Ok? ==> recoverable == old(recoverable)[origin.who := RecoveryConfig(delayPeriod, friendsMerkleRoot, threshold)]
      ensures r.Ok? ==> events == old(events) + [RecoveryCreated(origin.who)]
      ensures r.Ok? ==> activeRecoveries == old(activeRecoveries) && proxy == old(proxy)
      ensures r.Ok? ==> refCount == old(refCount) && blockNumber == old(blockNumber)
      ensures r.Err? ==> unchanged(this)
    {
      if !origin.Signed? {
        return Err(BadOrigin);
      }
      var who := origin.who;
      if who in recoverable {
        return Err(Module(AlreadyRecoverable));
      }
      if threshold < 1 {
        return Err(Module(ZeroThreshold));
      }
      var config := RecoveryConfig(delayPeriod, friendsMerkleRoot, threshold);
      recoverable := recoverable[who := config];
      events := events + [RecoveryCreated(who)];
      r := Ok;
    }

    /** The caller starts an attempt to recover `lost`, stamped with the
        current block and no approvals. */
    method InitiateRecovery(origin: Origin, lost: AccountId) returns (r: Outcome)
      requires Valid()
      modifies this
      ensures Valid()
      ensures r == InitiateRecoveryCheck(old(recoverable), old(activeRecoveries), origin, lost)
      ensures r.Ok? ==> activeRecoveries == old(activeRecoveries)[(lost, origin.who) := ActiveRecovery(old(blockNumber), [])]
      ensures r.Ok? ==> events == old(events) + [RecoveryInitiated(lost, origin.who)]
      ensures r.Ok? ==> recoverable == old(recoverable) && proxy == old(proxy)
      ensures r.Ok? ==> refCount == old(refCount) && blockNumber == old(blockNumber)
      ensures r.Err? ==> unchanged(this)
    {
      if !origin.Signed? {
        return Err(BadOrigin);
      }
      var rescuer := origin.who;
      if lost !in recoverable {
        return Err(Module(NotRecoverable));
      }
      if (lost, rescuer) in activeRecoveries {
        return Err(Module(AlreadyStarted));
      }
      var status := ActiveRecovery(blockNumber, []);
      activeRecoveries := activeRecoveries[(lost, rescuer) := status];
      events := events + [RecoveryInitiated(lost, rescuer)];
      r := Ok;
    }

    /** `proof.value` vouches for `rescuer`'s attempt on `lost`. The origin
        is accepted whatever it is. */
    method ApproveRecovery(origin: Origin, lost: AccountId, rescuer: AccountId, signature: Signature, proof: MerkleProof)
      returns (r: Outcome)
      requires Valid()
      modifies this
      ensures Valid()
      ensures r == ApproveRecoveryCheck(old(recoverable), old(activeRecoveries), verify, validate, lost, rescuer, signature, proof)
      ensures r.Ok? ==> activeRecoveries == ApplyApproval(old(activeRecoveries), lost, rescuer, proof.value)
      ensures r.Ok? ==>
        var before, after := old(activeRecoveries)[(lost, rescuer)], activeRecoveries[(lost, rescuer)];
        && after.created == before.created
        && Elems(after.approvedFriends) == Elems(before.approvedFriends) + {proof.value}
        && |after.approvedFriends| == |before.approvedFriends| + 1
      ensures r.Ok? ==> events == old(events) + [ApprovedRecovery(lost, rescuer, proof.value)]
      ensures r.Ok? ==> recoverable == old(recoverable) && proxy == old(proxy)
      ensures r.Ok? ==> refCount == old(refCount) && blockNumber == old(blockNumber)
      ensures r.Err? ==> unchanged(this)
    {
      if lost !in recoverable {
        return Err(Module(NotRecoverable));
      }
      var approver := proof.value;
      if !verify(signature, rescuer, approver) {
        return Err(Module(SignatureInvalid));
      }
      var config := recoverable[lost];
      if !validate(proof, config.friendsMerkleRoot) {
        return Err(Module(MerkleProofInvalid));
      }
      if (lost, rescuer) !in activeRecoveries {
        return Err(Module(NotStarted));
      }
      var attempt := activeRecoveries[(lost, rescuer)];
      var search := BinarySearch(attempt.approvedFriends, approver);
      match search
      case Found(_) => {
        return Err(Module(AlreadyApproved));
      }
      case NotFound(pos) => {
        InsertAtSearchPoint(attempt.approvedFriends, pos, approver);
        attempt := attempt.(approvedFriends := InsertAt(attempt.approvedFriends, pos, approver));
      }
      ApprovalKeepsInvariant(recoverable, activeRecoveries, verify, validate, lost, rescuer, signature, proof);
      activeRecoveries := activeRecoveries[(lost, rescuer) := attempt];
      events := events + [ApprovedRecovery(lost, rescuer, approver)];
      r := Ok;
    }

    /** The caller becomes proxy of `lost` once the delay has passed and
        enough friends have approved; the attempt stays in storage. */
    method ClaimRecovery(origin: Origin, lost: AccountId) returns (r: Outcome)
      requires Valid()
      modifies this
      ensures Valid()
      ensures r == ClaimRecoveryCheck(old(recoverable), old(activeRecoveries), old(proxy), old(blockNumber), origin, lost)
      ensures r.Ok? ==> proxy == old(proxy)[origin.who := lost]
      ensures r.Ok? ==> refCount == old(refCount)[origin.who := RefCountOf(old(refCount), origin.who) + 1]
      ensures r.Ok? ==> events == old(events) + [AccountRecovered(lost, origin.who)]
      ensures r.Ok? ==> recoverable == old(recoverable) && activeRecoveries == old(activeRecoveries)
      ensures r.Ok? ==> blockNumber == old(blockNumber)
      ensures r.Err? ==> unchanged(this)
    {
      if !origin.Signed? {
        return Err(BadOrigin);
      }
      var rescuer := origin.who;
      if lost !in recoverable {
        return Err(Module(NotRecoverable));
      }
      var config := recoverable[lost];
      if (lost, rescuer) !in activeRecoveries {
        return Err(Module(NotStarted));
      }
      var attempt := activeRecoveries[(lost, rescuer)];
      if rescuer in proxy {
        return Err(Module(AlreadyProxied));
      }
      var current := blockNumber;
      var recoverableAt := CheckedAdd(attempt.created, config.delayPeriod);
      if recoverableAt.None? {
        return Err(Module(Overflow));
      }
      if recoverableAt.value > current {
        return Err(Module(DelayPeriod));
      }
      if |attempt.approvedFriends| < config.threshold {
        return Err(Module(UnderThreshold));
      }
      proxy := proxy[rescuer := lost];
      refCount := refCount[rescuer := RefCountOf(refCount, rescuer) + 1];
      events := events + [AccountRecovered(lost, rescuer)];
      r := Ok;
    }
  }

  /** Replays the set-recovered test: a signed caller cannot use the root
      override; root can, and the rescuer can then act for the lost account. */
  method SetRecoveredScenario(
    verify: SignatureVerifier, validate: ProofValidator, dispatch: Dispatcher,
    alice: AccountId, bob: AccountId, charlie: AccountId, transfer: Call)
  {
    var pallet := new RecoveryPallet(verify, validate, dispatch, 1);
    var r := pallet.SetRecovered(Signed(charlie), alice, bob);
    assert r == Err(BadOrigin);
    r := pallet.SetRecovered(Root, alice, bob);
    assert r == Ok;
    r := pallet.AsRecovered(Signed(bob), alice, transfer);
    assert r == dispatch(transfer, Signed(alice));
  }

  /** Replays the initiate test: no attempt before the account is
      recoverable, one attempt per pair, stamped with the current block. */
  method InitiateRecoveryScenario(
    verify: SignatureVerifier, validate: ProofValidator, dispatch: Dispatcher,
    alice: AccountId, bob: AccountId, root: Bytes)
  {
    var pallet := new RecoveryPallet(verify, validate, dispatch, 1);
    var r := pallet.InitiateRecovery(Signed(bob), alice);
    assert r == Err(Module(NotRecoverable));
    r := pallet.CreateRecovery(Signed(alice), root, 2, 5);
    assert r == Ok;
    assert pallet.recoverable[alice] == RecoveryConfig(5, root, 2);
    r := pallet.InitiateRecovery(Signed(bob), alice);
    assert r == Ok;
    r := pallet.InitiateRecovery(Signed(bob), alice);
    assert r == Err(Module(AlreadyStarted));
    assert pallet.activeRecoveries[(alice, bob)] == ActiveRecovery(1, []);
  }

  /** Replays the approve test: an account with no configuration, a
      signature by someone else, and a proof against another tree are
      refused; a friend's approval is stored once and refused the second time. */
  method ApproveRecoveryScenario(
    verify: SignatureVerifier, validate: ProofValidator, dispatch: Dispatcher,
    alice: AccountId, bob: AccountId, charlie: AccountId,
    root: Bytes, charlieProof: MerkleProof, otherTreeProof: MerkleProof,
    charlieSignature: Signature, maliciousSignature: Signature)
    requires alice != charlie
    requires charlieProof.value == charlie && otherTreeProof.value == charlie
    requires validate(charlieProof, root) && !validate(otherTreeProof, root)
    requires verify(charlieSignature, bob, charlie) && !verify(maliciousSignature, bob, charlie)
  {
    var pallet := new RecoveryPallet(verify, validate, dispatch, 1);
    var r := pallet.CreateRecovery(Signed(alice), root, 2, 10);
    assert r == Ok;
    r := pallet.InitiateRecovery(Signed(bob), alice);
    assert r == Ok;
    r := pallet.ApproveRecovery(Signed(bob), charlie, bob, charlieSignature, charlieProof);
    assert r == Err(Module(NotRecoverable));
    r := pallet.ApproveRecovery(Signed(bob), alice, bob, maliciousSignature, charlieProof);
    assert r == Err(Module(SignatureInvalid));
    r := pallet.ApproveRecovery(Signed(bob), alice, bob, charlieSignature, otherTreeProof);
    assert r == Err(Module(MerkleProofInvalid));
    r := pallet.ApproveRecovery(Signed(bob), alice, bob, charlieSignature, charlieProof);
    assert r == Ok;
    assert pallet.activeRecoveries[(alice, bob)] == ActiveRecovery(1, [charlie]);
    r := pallet.ApproveRecovery(Signed(bob), alice, bob, charlieSignature, charlieProof);
    assert r == Err(Module(AlreadyApproved));
  }

  /** Replays the claim test: too early at block 1, one approval short at
      block 11, then a second friend approves and the claim goes through;
      a repeated claim is refused and the rescuer can act for the account. */
  method ClaimRecoveryScenario(
    verify: SignatureVerifier, validate: ProofValidator, dispatch: Dispatcher,
    alice: AccountId, bob: AccountId, charlie: AccountId, dave: AccountId,
    root: Bytes, charlieProof: MerkleProof, daveProof: MerkleProof,
    charlieSignature: Signature, daveSignature: Signature, transfer: Call)
    requires charlie != dave
    requires charlieProof.value == charlie && daveProof.value == dave
    requires validate(charlieProof, root) && validate(daveProof, root)
    requires verify(charlieSignature, bob, charlie) && verify(daveSignature, bob, dave)
  {
    var pallet := new RecoveryPallet(verify, validate, dispatch, 1);
    var r := pallet.CreateRecovery(Signed(alice), root, 2, 10);
    assert r == Ok;
    r := pallet.InitiateRecovery(Signed(bob), alice);
    assert r == Ok;
    r := pallet.ApproveRecovery(Signed(bob), alice, bob, charlieSignature, charlieProof);
    assert r == Ok;
    assert pallet.activeRecoveries[(alice, bob)] == ActiveRecovery(1, [charlie]);
    r := pallet.ClaimRecovery(Signed(bob), alice);
    assert r == Err(Module(DelayPeriod));
    pallet.SetBlockNumber(11);
    r := pallet.ClaimRecovery(Signed(bob), alice);
    assert r == Err(Module(UnderThreshold));
    r := pallet.ApproveRecovery(Signed(bob), alice, bob, daveSignature, daveProof);
    assert r == Ok;
    assert pallet.activeRecoveries[(alice, bob)] == ActiveRecovery(1, Insert([charlie], dave));
    r := pallet.ClaimRecovery(Signed(bob), alice);
    assert r == Ok;
    assert pallet.proxy[bob] == alice;
    r := pallet.ClaimRecovery(Signed(bob), alice);
    assert r == Err(Module(AlreadyProxied));
    r := pallet.AsRecovered(Signed(bob), alice, transfer);
    assert r == dispatch(transfer, Signed(alice));
  }
}
