/** The zero-knowledge proof contract: three parallel lists (commitments, verification
    keys, proof types) managed by an owner, a stand-in proof check that compares
    polynomial hashes, and a log of verified proof ids. */
module ZkProofs {
  import opened Common
  import opened PolyHash

  datatype ProofInfo = ProofInfo(id: nat, commitment: Bytes, proofType: Text, verified: bool, createdAt: nat)

  /** The error texts the contract returns. */
  datatype ZkError = Unauthorized | InvalidProofId | InvalidProofFormat | LengthMismatch | ProofNotFound

  /** The shortest proof `verify_zk_snark` accepts, in bytes. */
  const MinProofLength: nat := 32

  /** `verify_zk_snark`: a proof shorter than 32 bytes is malformed; otherwise it matches
      when its hash equals the commitment's. The public inputs play no part. */
  function SnarkCheck(proof: Bytes, publicInputs: Bytes, commitment: Bytes): (r: Result<bool, ZkError>)
    ensures r.Err? <==> |proof| < MinProofLength
    ensures r == Ok(true) <==> |proof| >= MinProofLength && Fold(proof) == Fold(commitment)
  {
    BeBytesInjective(Fold(proof), Fold(commitment));
    if |proof| < MinProofLength then Err(InvalidProofFormat)
    else Ok(HashBytes(proof) == HashBytes(commitment))
  }

  /** `hash_binary` of this contract: the fold, emitted as eight big-endian bytes. */
  method HashBinaryBytes(data: Bytes) returns (r: Bytes)
    ensures r == HashBytes(data)
  {
    var h := HashBinary(data);
    r := ToBeBytes(h);
  }

  method VerifyZkSnark(proof: Bytes, publicInputs: Bytes, commitment: Bytes) returns (r: Result<bool, ZkError>)
    ensures r == SnarkCheck(proof, publicInputs, commitment)
  {
    if |proof| < MinProofLength {
      return Err(InvalidProofFormat);
    }
    var proofHash := HashBinaryBytes(proof);
    var commitmentHash := HashBinaryBytes(commitment);
    r := Ok(proofHash == commitmentHash);
  }

  /** The one-byte commitment the batch check uses for position `i`: `i as u8`, so
      positions wrap every 256. */
  function BatchCommitment(i: nat): Bytes {
    [(i % 256) as bv8]
  }

  /** What `batch_verify_zk_proofs` answers: a length mismatch fails; a malformed proof
      anywhere fails the whole batch; otherwise one answer per pair, in order. */
  function BatchOutcome(proofs: seq<Bytes>, publicInputs: seq<Bytes>): Result<seq<bool>, ZkError> {
    if |proofs| != |publicInputs| then Err(LengthMismatch)
    else if exists i :: 0 <= i < |proofs| && |proofs[i]| < MinProofLength then Err(InvalidProofFormat)
    else Ok(seq(|proofs|, i requires 0 <= i < |proofs| => Fold(proofs[i]) == Fold(BatchCommitment(i))))
  }

  /** `batch_verify_zk_proofs`: checks the pairs in order and stops at the first error. */
  method BatchVerifyZkProofs(proofs: seq<Bytes>, publicInputs: seq<Bytes>) returns (r: Result<seq<bool>, ZkError>)
    ensures r == BatchOutcome(proofs, publicInputs)
  {
    if |proofs| != |publicInputs| {
      return Err(LengthMismatch);
    }
    var results: seq<bool> := [];
    for i := 0 to |proofs|
      invariant |results| == i
      invariant forall k :: 0 <= k < i ==> |proofs[k]| >= MinProofLength
      invariant forall k :: 0 <= k < i ==> results[k] == (Fold(proofs[k]) == Fold(BatchCommitment(k)))
    {
      var answer := VerifyZkSnark(proofs[i], publicInputs[i], BatchCommitment(i));
      match answer
      case Ok(valid) =>
        results := results + [valid];
      case Err(e) =>
        assert |proofs[i]| < MinProofLength;
        return Err(e);
    }
    assert results == seq(|proofs|, i requires 0 <= i < |proofs| => Fold(proofs[i]) == Fold(BatchCommitment(i)));
    r := Ok(results);
  }

  class ZkProofContract {
    var owner: Option<Address>
    var commitments: seq<Bytes>
    var verificationKeys: seq<Address>
    var proofTypes: seq<Text>
    /** The ids `verify_zk_proof` records, under the storage key "verified_proof". */
    var verifiedLog: seq<nat>
    /** The list `is_proof_verified` reads, under the storage key "verified_proofs";
        no operation writes it. */
    var verifiedProofs: seq<nat>

    /** The three per-proof lists stay the same length. */
    ghost predicate Valid()
      reads this
    {
      |commitments| == |verificationKeys| == |proofTypes|
    }

    /** A contract whose storage is still empty. */
    constructor ()
      ensures Valid()
      ensures owner == None && commitments == [] && verificationKeys == [] && proofTypes == []
      ensures verifiedLog == [] && verifiedProofs == []
    {
      owner := None;
      commitments := [];
      verificationKeys := [];
      proofTypes := [];
      verifiedLog := [];
      verifiedProofs := [];
    }

    /** `__init`: unguarded; sets the owner and empties the three lists. */
    method Init(newOwner: Address)
      modifies this
      ensures Valid()
      ensures owner == Some(newOwner) && commitments == [] && verificationKeys == [] && proofTypes == []
      ensures verifiedLog == old(verifiedLog) && verifiedProofs == old(verifiedProofs)
    {
      owner := Some(newOwner);
      commitments := [];
      verificationKeys := [];
      proofTypes := [];
    }

    /** `create_zk_proof`: owner only; appends one entry to each list. The metadata is
        not stored. */
    method CreateZkProof(invoker: Address, proofType: Text, commitment: Bytes, verificationKey: Address, metadata: Bytes)
      returns (r: Outcome<ZkError>)
      modifies this
      ensures old(Valid()) ==> Valid()
      ensures r == (if old(owner) == Some(invoker) then Pass else Fail(Unauthorized))
      ensures r.Pass? ==>
        && commitments == old(commitments) + [commitment]
        && verificationKeys == old(verificationKeys) + [verificationKey]
        && proofTypes == old(proofTypes) + [proofType]
      ensures r.Fail? ==>
        commitments == old(commitments) && verificationKeys == old(verificationKeys) && proofTypes == old(proofTypes)
      ensures owner == old(owner) && verifiedLog == old(verifiedLog) && verifiedProofs == old(verifiedProofs)
    {
      if owner != Some(invoker) {
        return Fail(Unauthorized);
      }
      commitments := commitments + [commitment];
      verificationKeys := verificationKeys + [verificationKey];
      proofTypes := proofTypes + [proofType];
      r := Pass;
    }

    /** `verify_zk_proof`: an unknown id fails, a malformed proof fails; a matching proof
        is logged. The list that `get_proof_info` consults is left as it was. */
    method VerifyZkProof(proofId: nat, proof: Bytes, publicInputs: Bytes) returns (r: Result<bool, ZkError>)
      modifies this
      ensures r == (if proofId >= |old(commitments)| then Err(InvalidProofId)
                    else SnarkCheck(proof, publicInputs, old(commitments)[proofId]))
      ensures verifiedLog == old(verifiedLog) + (if r == Ok(true) then [proofId] else [])
      ensures verifiedProofs == old(verifiedProofs)
      ensures owner == old(owner) && commitments == old(commitments)
      ensures verificationKeys == old(verificationKeys) && proofTypes == old(proofTypes)
    {
      if proofId >= |commitments| {
        return Err(InvalidProofId);
      }
      var commitment := commitments[proofId];
      r := VerifyZkSnark(proof, publicInputs, commitment);
      if r == Ok(true) {
        verifiedLog := verifiedLog + [proofId];
      }
    }

    /** `get_proof_info`: an unknown id fails; the reported type falls back to "unknown";
        the flag comes from the "verified_proofs" list. */
    function GetProofInfo(proofId: nat, now: nat): (r: Result<ProofInfo, ZkError>)
      reads this
      ensures r.Err? <==> proofId >= |commitments|
      ensures r.Ok? ==>
        && r.value.id == proofId && r.value.commitment == commitments[proofId]
        && (r.value.verified <==> proofId in verifiedProofs)
        && (Valid() ==> r.value.proofType == proofTypes[proofId])
    {
      if proofId >= |commitments| then Err(ProofNotFound)
      else
        var proofType := if proofId < |proofTypes| then proofTypes[proofId] else "unknown";
        Ok(ProofInfo(proofId, commitments[proofId], proofType, proofId in verifiedProofs, now))
    }

    /** `update_proof_type`: owner only, in range only; changes that one entry. */
    method UpdateProofType(invoker: Address, proofId: nat, newType: Text) returns (r: Outcome<ZkError>)
      modifies this
      ensures old(Valid()) ==> Valid()
      ensures r == (if old(owner) != Some(invoker) then Fail(Unauthorized)
                    else if proofId >= |old(proofTypes)| then Fail(InvalidProofId)
                    else Pass)
      ensures proofTypes == (if r.Pass? then old(proofTypes)[proofId := newType] else old(proofTypes))
      ensures owner == old(owner) && commitments == old(commitments) && verificationKeys == old(verificationKeys)
      ensures verifiedLog == old(verifiedLog) && verifiedProofs == old(verifiedProofs)
    {
      if owner != Some(invoker) {
        return Fail(Unauthorized);
      }
      if proofId >= |proofTypes| {
        return Fail(InvalidProofId);
      }
      proofTypes := proofTypes[proofId := newType];
      r := Pass;
    }
  }

  /** Verifying a proof never changes the flag `get_proof_info` reports for it. */
  method VerificationLeavesFlag(c: ZkProofContract, proofId: nat, proof: Bytes, inputs: Bytes, now: nat)
    returns (before: Result<ProofInfo, ZkError>, after: Result<ProofInfo, ZkError>)
    modifies c
    ensures before.Ok? && after.Ok? ==> before.value.verified == after.value.verified
    ensures before.Ok? <==> after.Ok?
  {
    before := c.GetProofInfo(proofId, now);
    var _ := c.VerifyZkProof(proofId, proof, inputs);
    after := c.GetProofInfo(proofId, now);
  }
}
