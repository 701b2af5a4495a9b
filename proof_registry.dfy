/** The proof registry: proofs keyed by a running id, each carrying the SHA-256 digest of
    its event data and metadata, an admin who may revoke any proof, and the list of
    revoked ids. SHA-256 itself is a parameter of the registry. */
module ProofVerifier {
  import opened Common

  /** One metadata entry as hashed: the key symbol's text and the value's bytes. */
  datatype MetaEntry = MetaEntry(key: Bytes, value: Bytes)

  datatype Proof = Proof(
    id: nat,
    issuer: Address,
    subject: Address,
    proofType: seq<char>,
    eventData: Bytes,
    timestamp: nat,
    verified: bool,
    hash: Bytes,
    revoked: bool,
    metadata: seq<MetaEntry>)   // in the host map's iteration order

  datatype ProofRequest = ProofRequest(subject: Address, proofType: seq<char>, eventData: Bytes, metadata: seq<MetaEntry>)

  /** Operation type 1 issues, 2 verifies, 3 revokes. */
  datatype BatchOperation = BatchOperation(operationType: nat, proofId: Option<nat>, proofRequest: Option<ProofRequest>)

  /** The error texts a batch result can carry. */
  datatype BatchError = MissingProofRequest | MissingProofId | InvalidOperationType

  datatype BatchResult = BatchResult(success: bool, proofId: Option<nat>, error: Option<BatchError>)

  /** The reasons the contract panics. */
  datatype RegistryError = AlreadyInitialized | ProofNotFound | AdminNotFound | NotAuthorized | AlreadyRevoked

  /** Which party of a proof a query matches. */
  datatype Party = Issuer | Subject

  function PartyOf(p: Proof, party: Party): Address {
    match party
    case Issuer => p.issuer
    case Subject => p.subject
  }

  /* ---------------------------------------------------------------------------
     The hash preimage
     ------------------------------------------------------------------------- */

  /** The metadata bytes that follow the event data: each key's bytes, then its value's. */
  function MetadataBytes(metadata: seq<MetaEntry>): Bytes {
    if metadata == [] then []
    else
      var e := metadata[|metadata| - 1];
      MetadataBytes(metadata[..|metadata| - 1]) + e.key + e.value
  }

  /** The bytes a proof's digest is taken over. */
  function HashPreimage(eventData: Bytes, metadata: seq<MetaEntry>): Bytes {
    eventData + MetadataBytes(metadata)
  }

  /** The hash-input loop of `issue_proof`, `verify_proof` and `is_proof_valid`. */
  method BuildHashInput(eventData: Bytes, metadata: seq<MetaEntry>) returns (input: Bytes)
    ensures input == HashPreimage(eventData, metadata)
  {
    input := eventData;
    for i := 0 to |metadata|
      invariant input == eventData + MetadataBytes(metadata[..i])
    {
      assert metadata[..i + 1][..i] == metadata[..i];
      input := input + metadata[i].key;
      input := input + metadata[i].value;
    }
    assert metadata[..|metadata|] == metadata;
  }

  /** The preimage starts with the event data, followed by every key and value. */
  lemma {:induction false} PreimageLayout(eventData: Bytes, metadata: seq<MetaEntry>)
    ensures eventData <= HashPreimage(eventData, metadata)
    ensures |HashPreimage(eventData, metadata)| == |eventData| + MetadataLength(metadata)
    ensures metadata == [] ==> HashPreimage(eventData, metadata) == eventData
  {
    if metadata != [] {
      PreimageLayout(eventData, metadata[..|metadata| - 1]);
    }
  }

  function MetadataLength(metadata: seq<MetaEntry>): nat {
    if metadata == [] then 0
    else MetadataLength(metadata[..|metadata| - 1]) + |metadata[|metadata| - 1].key| + |metadata[|metadata| - 1].value|
  }

  /* ---------------------------------------------------------------------------
     Queries
     ------------------------------------------------------------------------- */

  /** The filter of the issuer and subject queries. */
  function Matches(party: Party, who: Address): Proof -> bool {
    p => PartyOf(p, party) == who
  }

  function ProofId(p: Proof): nat {
    p.id
  }

  /** The stored proofs among a list of ids, in list order. */
  function ProofsAt(proofs: map<nat, Proof>, ids: seq<nat>): seq<Proof> {
    if ids == [] then []
    else ProofsAt(proofs, ids[..|ids| - 1]) + (if ids[|ids| - 1] in proofs then [proofs[ids[|ids| - 1]]] else [])
  }

  /** When every listed id is stored, the lookup returns one proof per id, in order. */
  lemma {:induction false} ProofsAtComplete(proofs: map<nat, Proof>, ids: seq<nat>)
    requires forall id :: id in ids ==> id in proofs
    ensures |ProofsAt(proofs, ids)| == |ids|
    ensures forall i :: 0 <= i < |ids| ==> ProofsAt(proofs, ids)[i] == proofs[ids[i]]
  {
    if ids != [] {
      ProofsAtComplete(proofs, ids[..|ids| - 1]);
    }
  }

  /* ---------------------------------------------------------------------------
     Batches
     ------------------------------------------------------------------------- */

  /** The number of proofs one batch operation issues. */
  function IssuesOf(op: BatchOperation): nat {
    if op.operationType == 1 && op.proofRequest.Some? then 1 else 0
  }

  /** The ids one batch operation revokes. */
  function RevokesOf(op: BatchOperation): seq<nat> {
    if op.operationType == 3 && op.proofId.Some? then [op.proofId.value] else []
  }

  /** The number of proofs a batch issues. */
  function IssueCount(ops: seq<BatchOperation>): nat {
    if ops == [] then 0
    else IssueCount(ops[..|ops| - 1]) + IssuesOf(ops[|ops| - 1])
  }

  /** The ids a batch revokes, in order. */
  function RevokedIds(ops: seq<BatchOperation>): seq<nat> {
    if ops == [] then []
    else RevokedIds(ops[..|ops| - 1]) + RevokesOf(ops[|ops| - 1])
  }

  /** The result a batch reports for one operation, as far as it is fixed by the
      operation itself: malformed and unknown operations fail with their error, issues
      and revocations succeed, a verification reports its id. */
  predicate ResultFits(op: BatchOperation, r: BatchResult) {
    match op.operationType
    case 1 =>
      if op.proofRequest.Some? then r.success && r.proofId.Some? && r.error.None?
      else r == BatchResult(false, None, Some(MissingProofRequest))
    case 2 =>
      if op.proofId.Some? then r.proofId == op.proofId && r.error.None?
      else r == BatchResult(false, None, Some(MissingProofId))
    case 3 =>
      if op.proofId.Some? then r == BatchResult(true, op.proofId, None)
      else r == BatchResult(false, None, Some(MissingProofId))
    case _ => r == BatchResult(false, None, Some(InvalidOperationType))
  }

  /** The part of the registry's storage a batch changes. */
  datatype Store = Store(proofCount: nat, proofs: map<nat, Proof>, revoked: seq<nat>)

  /** The storage after one batch operation, with the result reported for it. */
  datatype Applied = Applied(store: Store, result: BatchResult)

  /** The storage after a run of batch operations, with one result per operation. */
  datatype Ran = Ran(store: Store, results: seq<BatchResult>)

  /** The proof `issue_proof` stores under `id`: unverified, unrevoked, with the digest of
      its event data and metadata. */
  function Issued(sha256: Bytes -> Bytes, id: nat, issuer: Address, request: ProofRequest, now: nat): Proof {
    Proof(id, issuer, request.subject, request.proofType, request.eventData, now,
          false, sha256(HashPreimage(request.eventData, request.metadata)), false, request.metadata)
  }

  /** The checks of `revoke_proof`, in the order it makes them. */
  function RevokeCheck(admin: Option<Address>, proofs: map<nat, Proof>, revoker: Address, id: nat): Outcome<RegistryError> {
    if admin.None? then Fail(AdminNotFound)
    else if id !in proofs then Fail(ProofNotFound)
    else if revoker != admin.value && revoker != proofs[id].issuer then Fail(NotAuthorized)
    else if proofs[id].revoked then Fail(AlreadyRevoked)
    else Pass
  }

  /** One batch operation on the storage: an issue takes the next id, a verification
      marks an intact unrevoked proof verified and reports that verdict, a revocation
      that passes its checks revokes; malformed and unknown operations change nothing.
      A verification of an unknown id and a revocation that fails its checks panic. */
  function Step(sha256: Bytes -> Bytes, admin: Option<Address>, operator: Address, op: BatchOperation, now: nat, s: Store)
    : Result<Applied, RegistryError>
  {
    match op.operationType
    case 1 =>
      if op.proofRequest.None? then Ok(Applied(s, BatchResult(false, None, Some(MissingProofRequest))))
      else
        var id := s.proofCount + 1;
        Ok(Applied(Store(id, s.proofs[id := Issued(sha256, id, operator, op.proofRequest.value, now)], s.revoked),
                   BatchResult(true, Some(id), None)))
    case 2 =>
      if op.proofId.None? then Ok(Applied(s, BatchResult(false, None, Some(MissingProofId))))
      else if op.proofId.value !in s.proofs then Err(ProofNotFound)
      else
        var p := s.proofs[op.proofId.value];
        if p.revoked || sha256(HashPreimage(p.eventData, p.metadata)) != p.hash then
          Ok(Applied(s, BatchResult(false, op.proofId, None)))
        else
          Ok(Applied(s.(proofs := s.proofs[op.proofId.value := p.(verified := true)]), BatchResult(true, op.proofId, None)))
    case 3 =>
      if op.proofId.None? then Ok(Applied(s, BatchResult(false, None, Some(MissingProofId))))
      else
        var id := op.proofId.value;
        var check := RevokeCheck(admin, s.proofs, operator, id);
        if check.Fail? then Err(check.error)
        else
          Ok(Applied(Store(s.proofCount, s.proofs[id := s.proofs[id].(revoked := true, verified := false)], s.revoked + [id]),
                     BatchResult(true, op.proofId, None)))
    case _ => Ok(Applied(s, BatchResult(false, None, Some(InvalidOperationType))))
  }

  /** A run of batch operations, in order, stopping at the first panic. */
  function RunAll(sha256: Bytes -> Bytes, admin: Option<Address>, operator: Address, ops: seq<BatchOperation>, now: nat, s: Store)
    : Result<Ran, RegistryError>
  {
    if ops == [] then Ok(Ran(s, []))
    else
      var before := RunAll(sha256, admin, operator, ops[..|ops| - 1], now, s);
      if before.Err? then before
      else
        var step := Step(sha256, admin, operator, ops[|ops| - 1], now, before.value.store);
        if step.Err? then Err(step.error)
        else Ok(Ran(step.value.store, before.value.results + [step.value.result]))
  }

  /** A panic in a prefix of the batch is the panic of the whole batch. */
  lemma {:induction false} RunAllStopsAtPanic(sha256: Bytes -> Bytes, admin: Option<Address>, operator: Address,
                                              ops: seq<BatchOperation>, k: nat, now: nat, s: Store)
    requires k <= |ops|
    requires RunAll(sha256, admin, operator, ops[..k], now, s).Err?
    ensures RunAll(sha256, admin, operator, ops, now, s) == RunAll(sha256, admin, operator, ops[..k], now, s)
  {
    if k < |ops| {
      assert ops[..|ops| - 1][..k] == ops[..k];
      RunAllStopsAtPanic(sha256, admin, operator, ops[..|ops| - 1], k, now, s);
    } else {
      assert ops[..k] == ops;
    }
  }

  /** One operation's result fits the operation, it issues and revokes what the
      operation names, and only a verification or a revocation with an id can panic. */
  lemma StepAccounting(sha256: Bytes -> Bytes, admin: Option<Address>, operator: Address, op: BatchOperation, now: nat, s: Store)
    ensures var step := Step(sha256, admin, operator, op, now, s);
      && (step.Ok? ==>
            && ResultFits(op, step.value.result)
            && step.value.store.proofCount == s.proofCount + IssuesOf(op)
            && step.value.store.revoked == s.revoked + RevokesOf(op))
      && (step.Err? ==> op.operationType in {2, 3} && op.proofId.Some?)
  {
  }

  /** A batch that does not panic reports one fitting result per operation, advances
      the counter by the issues and appends the revoked ids in order. */
  lemma {:induction false} RunAllAccounting(sha256: Bytes -> Bytes, admin: Option<Address>, operator: Address,
                                            ops: seq<BatchOperation>, now: nat, s: Store)
    requires RunAll(sha256, admin, operator, ops, now, s).Ok?
    ensures var run := RunAll(sha256, admin, operator, ops, now, s).value;
      && |run.results| == |ops|
      && (forall i :: 0 <= i < |ops| ==> ResultFits(ops[i], run.results[i]))
      && run.store.proofCount == s.proofCount + IssueCount(ops)
      && run.store.revoked == s.revoked + RevokedIds(ops)
  {
    if ops != [] {
      var init := ops[..|ops| - 1];
      RunAllAccounting(sha256, admin, operator, init, now, s);
      var before := RunAll(sha256, admin, operator, init, now, s).value;
      StepAccounting(sha256, admin, operator, ops[|ops| - 1], now, before.store);
      var run := RunAll(sha256, admin, operator, ops, now, s).value;
      forall i | 0 <= i < |ops|
        ensures ResultFits(ops[i], run.results[i])
      {
        if i < |ops| - 1 {
          assert init[i] == ops[i];
        }
      }
    }
  }

  /* ---------------------------------------------------------------------------
     The contract
     ------------------------------------------------------------------------- */

  class ProofRegistry {
    /** SHA-256, as the host computes it. */
    const sha256: Bytes -> Bytes
    var admin: Option<Address>
    var proofCount: nat
    var proofs: map<nat, Proof>
    var revoked: seq<nat>

    /** Every stored proof sits under its own id, which the counter has reached; the
        revoked list holds each revoked proof exactly once and nothing else; a revoked
        proof is not verified; nothing is revoked before there is an admin. */
    ghost predicate Valid()
      reads this
    {
      && (forall id :: id in proofs ==> proofs[id].id == id && 1 <= id <= proofCount)
      && (forall i, j :: 0 <= i < j < |revoked| ==> revoked[i] != revoked[j])
      && (forall id :: id in revoked <==> id in proofs && proofs[id].revoked)
      && (forall id :: id in proofs && proofs[id].revoked ==> !proofs[id].verified)
      && (admin.None? ==> revoked == [])
    }

    /** The storage a batch changes. */
    function Snapshot(): Store
      reads this
    {
      Store(proofCount, proofs, revoked)
    }

    /** Whether a stored proof's digest matches its data. */
    function HashIntact(p: Proof): bool
      reads this
    {
      sha256(HashPreimage(p.eventData, p.metadata)) == p.hash
    }

    constructor (sha256: Bytes -> Bytes)
      ensures Valid()
      ensures this.sha256 == sha256
      ensures admin == None && proofCount == 0 && proofs == map[] && revoked == []
    {
      this.sha256 := sha256;
      admin := None;
      proofCount := 0;
      proofs := map[];
      revoked := [];
    }

    /** `initialize` as written: fails once an admin exists; otherwise sets the admin,
        resets the proof counter to 0 and empties the revoked list, even when proofs
        were issued before. */
    method InitializeAsWritten(newAdmin: Address) returns (r: Outcome<RegistryError>)
      modifies this
      ensures old(admin).Some? ==> r == Fail(AlreadyInitialized) && unchanged(this)
      ensures old(admin).None? ==>
        r == Pass && admin == Some(newAdmin) && proofCount == 0 && revoked == [] && proofs == old(proofs)
    {
      if admin.Some? {
        return Fail(AlreadyInitialized);
      }
      admin := Some(newAdmin);
      proofCount := 0;
      revoked := [];
      r := Pass;
    }

    /** `initialize` keeping the proof counter proofs issued before it have advanced, so
        that ids are never reused. */
    method Initialize(newAdmin: Address) returns (r: Outcome<RegistryError>)
      modifies this
      ensures old(Valid()) ==> Valid()
      ensures old(admin).Some? ==> r == Fail(AlreadyInitialized) && unchanged(this)
      ensures old(admin).None? ==>
        && r == Pass && admin == Some(newAdmin) && revoked == []
        && proofCount == old(proofCount) && proofs == old(proofs)
    {
      if admin.Some? {
        return Fail(AlreadyInitialized);
      }
      admin := Some(newAdmin);
      revoked := [];
      r := Pass;
    }

    /** `issue_proof`: the next id, a fresh unverified, unrevoked proof whose digest is
        taken over its event data and metadata, and the counter moved to that id. */
    method IssueProof(issuer: Address, request: ProofRequest, now: nat) returns (id: nat)
      modifies this
      ensures old(Valid()) ==> Valid()
      ensures id == old(proofCount) + 1 && proofCount == id
      ensures old(Valid()) ==> id !in old(proofs)
      ensures proofs == old(proofs)[id := Issued(sha256, id, issuer, request, now)]
      ensures IsProofValid(id) == Ok(true)
      ensures admin == old(admin) && revoked == old(revoked)
    {
      id := proofCount + 1;
      var hashInput := BuildHashInput(request.eventData, request.metadata);
      var hash := sha256(hashInput);
      var proof := Proof(id, issuer, request.subject, request.proofType, request.eventData, now,
                         false, hash, false, request.metadata);
      proofs := proofs[id := proof];
      proofCount := id;
    }

    /** `verify_proof`: unknown ids fail; a revoked proof or one whose digest no longer
        matches gives false and changes nothing; otherwise the proof is marked verified
        and the answer is true. Verifying a verified proof changes nothing. */
    method VerifyProof(verifier: Address, id: nat) returns (r: Result<bool, RegistryError>)
      modifies this
      ensures old(Valid()) ==> Valid()
      ensures id !in old(proofs) ==> r == Err(ProofNotFound) && unchanged(this)
      ensures id in old(proofs) ==>
        var p := old(proofs)[id];
        if p.revoked || !HashIntact(p) then r == Ok(false) && unchanged(this)
        else r == Ok(true) && proofs == old(proofs)[id := p.(verified := true)]
      ensures r == Ok(true) && old(proofs)[id].verified ==> unchanged(this)
      ensures admin == old(admin) && proofCount == old(proofCount) && revoked == old(revoked)
    {
      if id !in proofs {
        return Err(ProofNotFound);
      }
      var proof := proofs[id];
      if proof.revoked {
        return Ok(false);
      }
      var hashInput := BuildHashInput(proof.eventData, proof.metadata);
      if sha256(hashInput) != proof.hash {
        return Ok(false);
      }
      if !proof.verified {
        proof := proof.(verified := true);
        proofs := proofs[id := proof];
      }
      assert proofs == old(proofs)[id := old(proofs)[id].(verified := true)];
      r := Ok(true);
    }

    /** `get_proof`. */
    function GetProof(id: nat): (r: Result<Proof, RegistryError>)
      reads this
      ensures r.Ok? <==> id in proofs
      ensures r.Ok? ==> r.value == proofs[id]
    {
      if id in proofs then Ok(proofs[id]) else Err(ProofNotFound)
    }

    /** `revoke_proof`: needs an admin, a stored proof, and the admin or the proof's
        issuer as revoker; a revoked proof cannot be revoked again. The proof becomes
        revoked and unverified and its id joins the revoked list. */
    method RevokeProof(revoker: Address, id: nat) returns (r: Outcome<RegistryError>)
      modifies this
      ensures old(Valid()) ==> Valid()
      ensures r.Fail? ==> unchanged(this)
      ensures r == RevokeCheck(old(admin), old(proofs), revoker, id)
      ensures r.Pass? ==>
        && proofs == old(proofs)[id := old(proofs)[id].(revoked := true, verified := false)]
        && revoked == old(revoked) + [id]
        && IsProofValid(id) == Ok(false)
      ensures admin == old(admin) && proofCount == old(proofCount)
    {
      if admin.None? {
        return Fail(AdminNotFound);
      }
      if id !in proofs {
        return Fail(ProofNotFound);
      }
      var proof := proofs[id];
      if revoker != admin.value && revoker != proof.issuer {
        return Fail(NotAuthorized);
      }
      if proof.revoked {
        return Fail(AlreadyRevoked);
      }
      proof := proof.(revoked := true, verified := false);
      proofs := proofs[id := proof];
      revoked := revoked + [id];
      r := Pass;
    }

    /** One operation of `batch_operations`: an issue, a verification or a revocation,
        or the error result of a malformed or unknown operation. A panic of the
        operation it runs is returned as an error and leaves the storage as it was. */
    method ApplyOperation(operator: Address, op: BatchOperation, now: nat)
      returns (r: Result<BatchResult, RegistryError>)
      modifies this
      ensures old(Valid()) ==> Valid()
      ensures var step := Step(sha256, old(admin), operator, op, now, old(Snapshot()));
        && (step.Err? ==> r == Err(step.error) && Snapshot() == old(Snapshot()))
        && (step.Ok? ==> r == Ok(step.value.result) && Snapshot() == step.value.store)
      ensures r.Ok? ==>
        && ResultFits(op, r.value)
        && proofCount == old(proofCount) + IssuesOf(op)
        && revoked == old(revoked) + RevokesOf(op)
      ensures r.Err? ==> op.operationType in {2, 3} && op.proofId.Some?
      ensures admin == old(admin)
    {
      if op.operationType == 1 {
        if op.proofRequest.Some? {
          var id := IssueProof(operator, op.proofRequest.value, now);
          r := Ok(BatchResult(true, Some(id), None));
        } else {
          r := Ok(BatchResult(false, None, Some(MissingProofRequest)));
        }
      } else if op.operationType == 2 {
        if op.proofId.Some? {
          var verified := VerifyProof(operator, op.proofId.value);
          if verified.Err? {
            return Err(verified.error);
          }
          r := Ok(BatchResult(verified.value, op.proofId, None));
        } else {
          r := Ok(BatchResult(false, None, Some(MissingProofId)));
        }
      } else if op.operationType == 3 {
        if op.proofId.Some? {
          var outcome := RevokeProof(operator, op.proofId.value);
          if outcome.Fail? {
            return Err(outcome.error);
          }
          r := Ok(BatchResult(true, op.proofId, None));
        } else {
          r := Ok(BatchResult(false, None, Some(MissingProofId)));
        }
      } else {
        r := Ok(BatchResult(false, None, Some(InvalidOperationType)));
      }
    }

    /** The loop of `batch_operations`: the operations in order, stopping at the first
        one that panics. */
    method RunOperations(operator: Address, ops: seq<BatchOperation>, now: nat)
      returns (r: Result<seq<BatchResult>, RegistryError>)
      modifies this
      ensures old(Valid()) ==> Valid()
      ensures var run := RunAll(sha256, old(admin), operator, ops, now, old(Snapshot()));
        && (run.Err? ==> r == Err(run.error))
        && (run.Ok? ==> r == Ok(run.value.results) && Snapshot() == run.value.store)
      ensures r.Ok? ==>
        && |r.value| == |ops|
        && (forall i :: 0 <= i < |ops| ==> ResultFits(ops[i], r.value[i]))
        && proofCount == old(proofCount) + IssueCount(ops)
        && revoked == old(revoked) + RevokedIds(ops)
      ensures admin == old(admin)
    {
      var results: seq<BatchResult> := [];
      for i := 0 to |ops|
        invariant RunAll(sha256, old(admin), operator, ops[..i], now, old(Snapshot())) == Ok(Ran(Snapshot(), results))
        invariant admin == old(admin)
        invariant old(Valid()) ==> Valid()
      {
        assert ops[..i + 1][..i] == ops[..i];
        var step := ApplyOperation(operator, ops[i], now);
        if step.Err? {
          RunAllStopsAtPanic(sha256, admin, operator, ops, i + 1, now, old(Snapshot()));
          return Err(step.error);
        }
        results := results + [step.value];
      }
      assert ops[..|ops|] == ops;
      RunAllAccounting(sha256, admin, operator, ops, now, old(Snapshot()));
      r := Ok(results);
    }

    /** `batch_operations`: one result per operation, in order. A panic in any issued,
        verified or revoked proof aborts the whole call, which then changes nothing. */
    method BatchOperations(operator: Address, ops: seq<BatchOperation>, now: nat)
      returns (r: Result<seq<BatchResult>, RegistryError>)
      modifies this
      ensures old(Valid()) ==> Valid()
      ensures r.Err? ==> Snapshot() == old(Snapshot())
      ensures var run := RunAll(sha256, old(admin), operator, ops, now, old(Snapshot()));
        && (run.Err? ==> r == Err(run.error))
        && (run.Ok? ==> r == Ok(run.value.results) && Snapshot() == run.value.store)
      ensures r.Ok? ==>
        && |r.value| == |ops|
        && (forall i :: 0 <= i < |ops| ==> ResultFits(ops[i], r.value[i]))
        && proofCount == old(proofCount) + IssueCount(ops)
        && revoked == old(revoked) + RevokedIds(ops)
      ensures admin == old(admin)
    {
      var savedCount, savedProofs, savedRevoked := proofCount, proofs, revoked;
      r := RunOperations(operator, ops, now);
      if r.Err? {
        // the panic rolls the whole batch back
        proofCount, proofs, revoked := savedCount, savedProofs, savedRevoked;
      }
    }

    /** `get_proofs_by_issuer` and `get_proofs_by_subject`: the loop over ids 1..count. */
    method GetProofsBy(party: Party, who: Address) returns (result: seq<Proof>)
      ensures result == ScanIds(proofs, proofCount, Matches(party, who))
      ensures Valid() ==>
        && (forall p :: p in result <==> p in proofs.Values && PartyOf(p, party) == who)
        && (forall i, j :: 0 <= i < j < |result| ==> result[i].id < result[j].id)
    {
      result := [];
      for i := 1 to proofCount + 1
        invariant result == ScanIds(proofs, i - 1, Matches(party, who))
      {
        if i in proofs && PartyOf(proofs[i], party) == who {
          result := result + [proofs[i]];
        }
      }
      ScanIdsExact(proofs, proofCount, Matches(party, who), ProofId);
      if Valid() {
        forall p | p in proofs.Values && PartyOf(p, party) == who
          ensures p in result
        {
          var k :| k in proofs && proofs[k] == p;
        }
      }
    }

    /** `get_revoked_proofs`: the stored proofs named by the revoked list, in its order. */
    method GetRevokedProofs() returns (result: seq<Proof>)
      ensures result == ProofsAt(proofs, revoked)
      ensures Valid() ==>
        |result| == |revoked| && forall i :: 0 <= i < |result| ==> result[i].revoked && result[i].id == revoked[i]
    {
      result := [];
      for i := 0 to |revoked|
        invariant result == ProofsAt(proofs, revoked[..i])
      {
        assert revoked[..i + 1][..i] == revoked[..i];
        if revoked[i] in proofs {
          result := result + [proofs[revoked[i]]];
        }
      }
      assert revoked[..|revoked|] == revoked;
      if Valid() {
        ProofsAtComplete(proofs, revoked);
      }
    }

    /** `is_proof_valid`: unknown ids fail; a revoked proof is not valid; otherwise the
        digest must match. */
    function IsProofValid(id: nat): (r: Result<bool, RegistryError>)
      reads this
      ensures id !in proofs <==> r == Err(ProofNotFound)
      ensures r == Ok(true) <==> id in proofs && !proofs[id].revoked && HashIntact(proofs[id])
    {
      if id !in proofs then Err(ProofNotFound)
      else if proofs[id].revoked then Ok(false)
      else Ok(HashIntact(proofs[id]))
    }

    /** `update_admin`: only the stored admin can hand the role over. */
    method UpdateAdmin(currentAdmin: Address, newAdmin: Address) returns (r: Outcome<RegistryError>)
      modifies this
      ensures old(Valid()) ==> Valid()
      ensures old(admin).None? ==> r == Fail(AdminNotFound) && unchanged(this)
      ensures old(admin).Some? && currentAdmin != old(admin).value ==> r == Fail(NotAuthorized) && unchanged(this)
      ensures old(admin) == Some(currentAdmin) ==> r == Pass && admin == Some(newAdmin)
      ensures proofCount == old(proofCount) && proofs == old(proofs) && revoked == old(revoked)
    {
      if admin.None? {
        return Fail(AdminNotFound);
      }
      if currentAdmin != admin.value {
        return Fail(NotAuthorized);
      }
      admin := Some(newAdmin);
      r := Pass;
    }
  }

  /** A helper of the two scenarios below, not an operation of the contract: two issues
      in a row by the same issuer, stated once so that each scenario's proof can reason
      about the pair as one step. The counter grows by two, the second id names a live
      proof, and every other earlier proof is left as it was. */
  method IssueTwice(registry: ProofRegistry, issuer: Address, request: ProofRequest, now: nat)
    returns (second: nat)
    modifies registry
    ensures old(registry.Valid()) ==> registry.Valid()
    ensures second == old(registry.proofCount) + 2 == registry.proofCount
    ensures second in registry.proofs && !registry.proofs[second].revoked
    ensures forall k :: k in old(registry.proofs) && k != second && k != second - 1 ==>
      k in registry.proofs && registry.proofs[k] == old(registry.proofs)[k]
    ensures registry.revoked == old(registry.revoked) && registry.admin == old(registry.admin)
  {
    var first := registry.IssueProof(issuer, request, now);
    second := registry.IssueProof(issuer, request, now);
  }

  /** With `initialize` as written, two proofs issued before it are overwritten by the
      next two issues, and revoking proof 2 before and after the overwrite lists it twice
      in the revoked list. */
  method DuplicateRevocationScenario(sha256: Bytes -> Bytes, issuer: Address, admin: Address, request: ProofRequest)
    returns (registry: ProofRegistry)
    ensures registry.revoked == [2, 2]
  {
    registry := new ProofRegistry(sha256);
    var id := IssueTwice(registry, issuer, request, 0);
    var r := registry.InitializeAsWritten(admin);
    assert registry.revoked == [] && 2 in registry.proofs;
    r := registry.RevokeProof(admin, 2);
    assert r == Pass && registry.revoked == [2];
    id := IssueTwice(registry, issuer, request, 1);
    assert id == 2;
    r := registry.RevokeProof(admin, 2);
    assert r == Pass;
    assert registry.revoked == [2] + [2];
  }

  /** The same calls with `initialize` keeping the counter: the later proofs get fresh
      ids 3 and 4, and proof 2 is revoked once. */
  method SingleRevocationScenario(sha256: Bytes -> Bytes, issuer: Address, admin: Address, request: ProofRequest)
    returns (registry: ProofRegistry)
    ensures registry.revoked == [2]
    ensures registry.Valid()
  {
    registry := new ProofRegistry(sha256);
    var id := IssueTwice(registry, issuer, request, 0);
    var r := registry.Initialize(admin);
    assert registry.revoked == [] && 2 in registry.proofs;
    r := registry.RevokeProof(admin, 2);
    assert r == Pass && registry.revoked == [2] && registry.proofs[2].revoked;
    id := IssueTwice(registry, issuer, request, 1);
    assert id == 4 && registry.proofs[2].revoked;
    r := registry.RevokeProof(admin, 2);
    assert r == Fail(AlreadyRevoked);
  }
}
