/** The checks each dispatchable makes before it writes anything, as pure
    functions of the storage it reads, and what follows from them across
    several calls. Each check returns `Ok` or the first failing error in the
    order the dispatchable raises them; the pallet's methods are proved to
    return exactly these outcomes. */
module RecoveryRules {
  import opened RecoveryTypes
  import opened SortedVec

  /** What every reachable storage satisfies: stored thresholds are at least
      one, every attempt belongs to a recoverable account, and every list of
      approvals is sorted without duplicates. */
  ghost predicate StorageInvariant(recoverable: Configs, ledger: Ledger) {
    && (forall lost :: lost in recoverable ==> recoverable[lost].threshold >= 1)
    && (forall key :: key in ledger ==> key.0 in recoverable && StrictlySorted(ledger[key].approvedFriends))
  }

  /** `create_recovery`: signed origin, no configuration yet, non-zero threshold. */
  function CreateRecoveryCheck(recoverable: Configs, origin: Origin, threshold: U16): (r: Outcome)
    ensures r == Ok <==> origin.Signed? && origin.who !in recoverable && threshold >= 1
    ensures r == Err(BadOrigin) <==> !origin.Signed?
    ensures r == Err(Module(AlreadyRecoverable)) <==> origin.Signed? && origin.who in recoverable
    ensures r == Err(Module(ZeroThreshold)) <==> origin.Signed? && origin.who !in recoverable && threshold == 0
  {
    match origin
    case Signed(who) =>
      if who in recoverable then Err(Module(AlreadyRecoverable))
      else if threshold < 1 then Err(Module(ZeroThreshold))
      else Ok
    case _ => Err(BadOrigin)
  }

  /** `initiate_recovery`: signed origin (the rescuer), `lost` recoverable,
      and no attempt yet for the pair. */
  function InitiateRecoveryCheck(recoverable: Configs, ledger: Ledger, origin: Origin, lost: AccountId): (r: Outcome)
    ensures r == Ok <==> origin.Signed? && lost in recoverable && (lost, origin.who) !in ledger
    ensures r == Err(BadOrigin) <==> !origin.Signed?
    ensures r == Err(Module(NotRecoverable)) <==> origin.Signed? && lost !in recoverable
    ensures r == Err(Module(AlreadyStarted)) <==> origin.Signed? && lost in recoverable && (lost, origin.who) in ledger
  {
    match origin
    case Signed(rescuer) =>
      if lost !in recoverable then Err(Module(NotRecoverable))
      else if (lost, rescuer) in ledger then Err(Module(AlreadyStarted))
      else Ok
    case _ => Err(BadOrigin)
  }

  /** `approve_recovery`. The origin is not consulted: the approver is
      `proof.value`, who must have signed the rescuer's id and be proved a
      leaf of the friends' merkle root. */
  function ApproveRecoveryCheck(
    recoverable: Configs, ledger: Ledger, verify: SignatureVerifier, validate: ProofValidator,
    lost: AccountId, rescuer: AccountId, signature: Signature, proof: MerkleProof): (r: Outcome)
    ensures r == Ok <==>
      && lost in recoverable
      && verify(signature, rescuer, proof.value)
      && validate(proof, recoverable[lost].friendsMerkleRoot)
      && (lost, rescuer) in ledger
      && proof.value !in ledger[(lost, rescuer)].approvedFriends
    ensures r.Err? ==> r.reason.Module?
    ensures r == Err(Module(NotRecoverable)) <==> lost !in recoverable
    ensures r == Err(Module(SignatureInvalid)) <==>
      lost in recoverable && !verify(signature, rescuer, proof.value)
    ensures r == Err(Module(MerkleProofInvalid)) <==>
      && lost in recoverable && verify(signature, rescuer, proof.value)
      && !validate(proof, recoverable[lost].friendsMerkleRoot)
    ensures r == Err(Module(NotStarted)) <==>
      && lost in recoverable && verify(signature, rescuer, proof.value)
      && validate(proof, recoverable[lost].friendsMerkleRoot)
      && (lost, rescuer) !in ledger
    ensures r == Err(Module(AlreadyApproved)) <==>
      && lost in recoverable && verify(signature, rescuer, proof.value)
      && validate(proof, recoverable[lost].friendsMerkleRoot)
      && (lost, rescuer) in ledger && proof.value in ledger[(lost, rescuer)].approvedFriends
  {
    if lost !in recoverable then Err(Module(NotRecoverable))
    else if !verify(signature, rescuer, proof.value) then Err(Module(SignatureInvalid))
    else if !validate(proof, recoverable[lost].friendsMerkleRoot) then Err(Module(MerkleProofInvalid))
    else if (lost, rescuer) !in ledger then Err(Module(NotStarted))
    else if proof.value in ledger[(lost, rescuer)].approvedFriends then Err(Module(AlreadyApproved))
    else Ok
  }

  /** The ledger after a successful approval: the approver is added to the
      pair's ordered set of approvals; nothing else changes. */
  function ApplyApproval(ledger: Ledger, lost: AccountId, rescuer: AccountId, approver: AccountId): (r: Ledger)
    requires (lost, rescuer) in ledger
    ensures r.Keys == ledger.Keys
    ensures forall key :: key in ledger && key != (lost, rescuer) ==> r[key] == ledger[key]
    ensures r[(lost, rescuer)].created == ledger[(lost, rescuer)].created
    ensures r[(lost, rescuer)].approvedFriends == Insert(ledger[(lost, rescuer)].approvedFriends, approver)
  {
    var attempt := ledger[(lost, rescuer)];
    ledger[(lost, rescuer) := attempt.(approvedFriends := Insert(attempt.approvedFriends, approver))]
  }

  /** `claim_recovery`: the rescuer (signed origin) may become proxy for
      `lost` exactly when all of these hold. */
  function ClaimRecoveryCheck(
    recoverable: Configs, ledger: Ledger, proxy: Proxies, now: BlockNumber,
    origin: Origin, lost: AccountId): (r: Outcome)
    ensures r == Ok <==>
      && origin.Signed?
      && lost in recoverable
      && (lost, origin.who) in ledger
      && origin.who !in proxy
      && ledger[(lost, origin.who)].created + recoverable[lost].delayPeriod <= MAX_BLOCK_NUMBER
      && ledger[(lost, origin.who)].created + recoverable[lost].delayPeriod <= now
      && |ledger[(lost, origin.who)].approvedFriends| >= recoverable[lost].threshold
    ensures r == Err(BadOrigin) <==> !origin.Signed?
    ensures r == Err(Module(NotRecoverable)) <==> origin.Signed? && lost !in recoverable
    ensures r == Err(Module(NotStarted)) <==>
      origin.Signed? && lost in recoverable && (lost, origin.who) !in ledger
    ensures r == Err(Module(AlreadyProxied)) <==>
      origin.Signed? && lost in recoverable && (lost, origin.who) in ledger && origin.who in proxy
    ensures r == Err(Module(Overflow)) <==>
      && origin.Signed? && lost in recoverable && (lost, origin.who) in ledger && origin.who !in proxy
      && ledger[(lost, origin.who)].created + recoverable[lost].delayPeriod > MAX_BLOCK_NUMBER
    ensures r == Err(Module(DelayPeriod)) <==>
      && origin.Signed? && lost in recoverable && (lost, origin.who) in ledger && origin.who !in proxy
      && now < ledger[(lost, origin.who)].created + recoverable[lost].delayPeriod <= MAX_BLOCK_NUMBER
    ensures r == Err(Module(UnderThreshold)) <==>
      && origin.Signed? && lost in recoverable && (lost, origin.who) in ledger && origin.who !in proxy
      && ledger[(lost, origin.who)].created + recoverable[lost].delayPeriod <= now
      && |ledger[(lost, origin.who)].approvedFriends| < recoverable[lost].threshold
  {
    match origin
    case Signed(rescuer) =>
      if lost !in recoverable then Err(Module(NotRecoverable))
      else if (lost, rescuer) !in ledger then Err(Module(NotStarted))
      else if rescuer in proxy then Err(Module(AlreadyProxied))
      else
        var config, attempt := recoverable[lost], ledger[(lost, rescuer)];
        (match CheckedAdd(attempt.created, config.delayPeriod)
         case None => Err(Module(Overflow))
         case Some(recoverableAt) =>
           if recoverableAt > now then Err(Module(DelayPeriod))
           else if |attempt.approvedFriends| < config.threshold then Err(Module(UnderThreshold))
           else Ok)
    case _ => Err(BadOrigin)
  }

  /** `as_recovered`: the signed origin must hold a proxy entry, and that
      entry must name `lost`. */
  function ProxyCheck(proxy: Proxies, origin: Origin, lost: AccountId): (r: Outcome)
    ensures r == Ok <==> origin.Signed? && origin.who in proxy && proxy[origin.who] == lost
    ensures r == Err(BadOrigin) <==> !origin.Signed?
    ensures r.Err? ==> r == Err(BadOrigin) || r == Err(Module(NotAllowed))
  {
    match origin
    case Signed(rescuer) =>
      if rescuer !in proxy then Err(Module(NotAllowed))
      else if proxy[rescuer] != lost then Err(Module(NotAllowed))
      else Ok
    case _ => Err(BadOrigin)
  }

  /** A successful approval keeps the storage invariant, adds exactly the
      approver to the pair's approvals and leaves `created` alone. */
  lemma ApprovalKeepsInvariant(
    recoverable: Configs, ledger: Ledger, verify: SignatureVerifier, validate: ProofValidator,
    lost: AccountId, rescuer: AccountId, signature: Signature, proof: MerkleProof)
    requires StorageInvariant(recoverable, ledger)
    requires ApproveRecoveryCheck(recoverable, ledger, verify, validate, lost, rescuer, signature, proof) == Ok
    ensures var after := ApplyApproval(ledger, lost, rescuer, proof.value);
      && StorageInvariant(recoverable, after)
      && after.Keys == ledger.Keys
      && after[(lost, rescuer)].created == ledger[(lost, rescuer)].created
      && Elems(after[(lost, rescuer)].approvedFriends) == Elems(ledger[(lost, rescuer)].approvedFriends) + {proof.value}
      && |after[(lost, rescuer)].approvedFriends| == |ledger[(lost, rescuer)].approvedFriends| + 1
  {
    InsertKeepsStrictlySorted(ledger[(lost, rescuer)].approvedFriends, proof.value);
  }

  /** The same approval submitted twice: the second is refused with
      `AlreadyApproved`. */
  lemma DuplicateApprovalRejected(
    recoverable: Configs, ledger: Ledger, verify: SignatureVerifier, validate: ProofValidator,
    lost: AccountId, rescuer: AccountId, signature: Signature, proof: MerkleProof)
    requires StorageInvariant(recoverable, ledger)
    requires ApproveRecoveryCheck(recoverable, ledger, verify, validate, lost, rescuer, signature, proof) == Ok
    ensures ApproveRecoveryCheck(recoverable, ApplyApproval(ledger, lost, rescuer, proof.value),
                                 verify, validate, lost, rescuer, signature, proof)
            == Err(Module(AlreadyApproved))
  {
    var s := ledger[(lost, rescuer)].approvedFriends;
    InsertKeepsStrictlySorted(s, proof.value);
    assert proof.value in Elems(Insert(s, proof.value));
  }

  /** Two different friends approving the same attempt: whichever goes first,
      the second still succeeds, and both orders store the same sequence. */
  lemma ApprovalsCommute(
    recoverable: Configs, ledger: Ledger, verify: SignatureVerifier, validate: ProofValidator,
    lost: AccountId, rescuer: AccountId,
    sigA: Signature, proofA: MerkleProof, sigB: Signature, proofB: MerkleProof)
    requires StorageInvariant(recoverable, ledger)
    requires ApproveRecoveryCheck(recoverable, ledger, verify, validate, lost, rescuer, sigA, proofA) == Ok
    requires ApproveRecoveryCheck(recoverable, ledger, verify, validate, lost, rescuer, sigB, proofB) == Ok
    requires proofA.value != proofB.value
    ensures var afterA := ApplyApproval(ledger, lost, rescuer, proofA.value);
            var afterB := ApplyApproval(ledger, lost, rescuer, proofB.value);
      && ApproveRecoveryCheck(recoverable, afterA, verify, validate, lost, rescuer, sigB, proofB) == Ok
      && ApproveRecoveryCheck(recoverable, afterB, verify, validate, lost, rescuer, sigA, proofA) == Ok
      && ApplyApproval(afterA, lost, rescuer, proofB.value) == ApplyApproval(afterB, lost, rescuer, proofA.value)
  {
    var s := ledger[(lost, rescuer)].approvedFriends;
    var a, b := proofA.value, proofB.value;
    assert b !in Insert(s, a) by {
      InsertKeepsStrictlySorted(s, a);
      assert b !in Elems(Insert(s, a));
    }
    assert a !in Insert(s, b) by {
      InsertKeepsStrictlySorted(s, b);
      assert a !in Elems(Insert(s, b));
    }
    InsertCommutes(s, a, b);
  }

  /** A signature is bound to the rescuer it names: a signature that admits
      one rescuer's attempt but does not verify over another rescuer makes
      the same friend's approval of the other attempt fail, whatever the
      proof and whether or not that attempt exists. */
  lemma SignatureBindsRescuer(
    recoverable: Configs, ledger: Ledger, verify: SignatureVerifier, validate: ProofValidator,
    lost: AccountId, rescuer: AccountId, other: AccountId, signature: Signature,
    proof: MerkleProof, otherProof: MerkleProof)
    requires ApproveRecoveryCheck(recoverable, ledger, verify, validate, lost, rescuer, signature, proof) == Ok
    requires otherProof.value == proof.value
    requires !verify(signature, other, proof.value)
    ensures ApproveRecoveryCheck(recoverable, ledger, verify, validate, lost, other, signature, otherProof)
            == Err(Module(SignatureInvalid))
  {
  }

  /** After a successful claim the same rescuer's next claim fails
      `AlreadyProxied`, at any later block: the attempt is not removed, so
      the check gets that far. */
  lemma SecondClaimRejected(
    recoverable: Configs, ledger: Ledger, proxy: Proxies, now: BlockNumber, later: BlockNumber,
    origin: Origin, lost: AccountId)
    requires ClaimRecoveryCheck(recoverable, ledger, proxy, now, origin, lost) == Ok
    ensures ClaimRecoveryCheck(recoverable, ledger, proxy[origin.who := lost], later, origin, lost)
            == Err(Module(AlreadyProxied))
  {
  }

  /** Once a claim is possible it stays possible as blocks go by, as long as
      the storage it reads is unchanged. */
  lemma ClaimStaysPossible(
    recoverable: Configs, ledger: Ledger, proxy: Proxies, now: BlockNumber, later: BlockNumber,
    origin: Origin, lost: AccountId)
    requires ClaimRecoveryCheck(recoverable, ledger, proxy, now, origin, lost) == Ok
    requires now <= later
    ensures ClaimRecoveryCheck(recoverable, ledger, proxy, later, origin, lost) == Ok
  {
  }

  /** Nothing stops two rescuers of one lost account from both claiming it:
      the first claim leaves the second rescuer's claim possible. */
  lemma ConcurrentClaimsBothSucceed(
    recoverable: Configs, ledger: Ledger, proxy: Proxies, now: BlockNumber,
    first: AccountId, second: AccountId, lost: AccountId)
    requires first != second
    requires ClaimRecoveryCheck(recoverable, ledger, proxy, now, Signed(first), lost) == Ok
    requires ClaimRecoveryCheck(recoverable, ledger, proxy, now, Signed(second), lost) == Ok
    ensures ClaimRecoveryCheck(recoverable, ledger, proxy[first := lost], now, Signed(second), lost) == Ok
  {
  }

  /** The proxy entry `set_recovered` or a claim installs is what
      `as_recovered` accepts, for that account and no other. */
  lemma ProxyEntryAuthorises(proxy: Proxies, rescuer: AccountId, lost: AccountId, other: AccountId)
    requires other != lost
    ensures ProxyCheck(proxy[rescuer := lost], Signed(rescuer), lost) == Ok
    ensures ProxyCheck(proxy[rescuer := lost], Signed(rescuer), other) == Err(Module(NotAllowed))
  {
  }
}
