/** The Verinode registry contract: proofs issued under a running id with a hash the
    issuer supplies, marked verified by the admin. Its version-history functions are
    those of the version store and are modelled there. */
module Verinode {
  import opened Common

  datatype Proof = Proof(id: nat, issuer: Address, eventData: Bytes, timestamp: nat, verified: bool, hash: Bytes)

  /** The reasons the contract panics. */
  datatype VerinodeError = AlreadyInitialized | AdminNotFound | NotAuthorized | ProofNotFound

  function IssuedBy(issuer: Address): Proof -> bool {
    (p: Proof) => p.issuer == issuer
  }

  function ProofId(p: Proof): nat {
    p.id
  }

  class VerinodeContract {
    var admin: Option<Address>
    var proofCount: nat
    var proofs: map<nat, Proof>

    /** Every stored proof sits under its own id, which the counter has reached. */
    ghost predicate Valid()
      reads this
    {
      forall id :: id in proofs ==> proofs[id].id == id && 1 <= id <= proofCount
    }

    constructor ()
      ensures Valid()
      ensures admin == None && proofCount == 0 && proofs == map[]
    {
      admin := None;
      proofCount := 0;
      proofs := map[];
    }

    /** `initialize` as written: fails once an admin exists; otherwise sets the admin and
        resets the proof counter to 0, even when proofs were issued before. */
    method InitializeAsWritten(newAdmin: Address) returns (r: Outcome<VerinodeError>)
      modifies this
      ensures old(admin).Some? ==> r == Fail(AlreadyInitialized) && unchanged(this)
      ensures old(admin).None? ==> r == Pass && admin == Some(newAdmin) && proofCount == 0 && proofs == old(proofs)
    {
      if admin.Some? {
        return Fail(AlreadyInitialized);
      }
      admin := Some(newAdmin);
      proofCount := 0;
      r := Pass;
    }

    /** `initialize` keeping the counter that earlier issues advanced, so that ids are
        never reused. */
    method Initialize(newAdmin: Address) returns (r: Outcome<VerinodeError>)
      modifies this
      ensures old(Valid()) ==> Valid()
      ensures old(admin).Some? ==> r == Fail(AlreadyInitialized) && unchanged(this)
      ensures old(admin).None? ==> r == Pass && admin == Some(newAdmin) && proofCount == old(proofCount) && proofs == old(proofs)
    {
      if admin.Some? {
        return Fail(AlreadyInitialized);
      }
      admin := Some(newAdmin);
      r := Pass;
    }

    /** `issue_proof`: the next id, an unverified proof stored under it, and the counter
        moved to it. */
    method IssueProof(issuer: Address, eventData: Bytes, hash: Bytes, now: nat) returns (id: nat)
      modifies this
      ensures old(Valid()) ==> Valid()
      ensures id == old(proofCount) + 1 && proofCount == id
      ensures old(Valid()) ==> id !in old(proofs)
      ensures proofs == old(proofs)[id := Proof(id, issuer, eventData, now, false, hash)]
      ensures admin == old(admin)
    {
      id := proofCount + 1;
      var proof := Proof(id, issuer, eventData, now, false, hash);
      proofs := proofs[id := proof];
      proofCount := id;
    }

    /** `verify_proof`: only the stored admin may verify, and only a stored proof; the
        proof is marked verified and the answer is always true. No hash is checked. */
    method VerifyProof(caller: Address, id: nat) returns (r: Result<bool, VerinodeError>)
      modifies this
      ensures old(Valid()) ==> Valid()
      ensures r == (if old(admin).None? then Err(AdminNotFound)
                    else if caller != old(admin).value then Err(NotAuthorized)
                    else if id !in old(proofs) then Err(ProofNotFound)
                    else Ok(true))
      ensures r.Ok? ==> proofs == old(proofs)[id := old(proofs)[id].(verified := true)]
      ensures r.Err? ==> proofs == old(proofs)
      ensures admin == old(admin) && proofCount == old(proofCount)
    {
      if admin.None? {
        return Err(AdminNotFound);
      }
      if caller != admin.value {
        return Err(NotAuthorized);
      }
      if id !in proofs {
        return Err(ProofNotFound);
      }
      var proof := proofs[id];
      proof := proof.(verified := true);
      proofs := proofs[id := proof];
      r := Ok(true);
    }

    /** `get_proof`. */
    function GetProof(id: nat): (r: Result<Proof, VerinodeError>)
      reads this
      ensures r.Ok? <==> id in proofs
      ensures r.Ok? ==> r.value == proofs[id]
    {
      if id in proofs then Ok(proofs[id]) else Err(ProofNotFound)
    }

    /** `get_proofs_by_issuer`: the loop over ids 1..count. */
    method GetProofsByIssuer(issuer: Address) returns (result: seq<Proof>)
      ensures result == ScanIds(proofs, proofCount, IssuedBy(issuer))
      ensures Valid() ==>
        && (forall p :: p in result <==> p in proofs.Values && p.issuer == issuer)
        && (forall i, j :: 0 <= i < j < |result| ==> result[i].id < result[j].id)
    {
      result := [];
      for i := 1 to proofCount + 1
        invariant result == ScanIds(proofs, i - 1, IssuedBy(issuer))
      {
        if i in proofs && proofs[i].issuer == issuer {
          result := result + [proofs[i]];
        }
      }
      ScanIdsExact(proofs, proofCount, IssuedBy(issuer), ProofId);
      if Valid() {
        forall p | p in proofs.Values && p.issuer == issuer
          ensures p in result
        {
          var k :| k in proofs && proofs[k] == p;
        }
      }
    }
  }

  /** With `initialize` as written, a proof issued before it is overwritten by the next
      issue: its issuer no longer finds it. */
  method LostProofScenario(first: Address, second: Address, admin: Address, data: Bytes, hash: Bytes)
    returns (c: VerinodeContract, firstsProofs: seq<Proof>)
    requires first != second
    ensures c.proofs.Keys == {1} && c.proofs[1].issuer == second
    ensures firstsProofs == []
  {
    c := new VerinodeContract();
    var id := c.IssueProof(first, data, hash, 0);
    var r := c.InitializeAsWritten(admin);
    id := c.IssueProof(second, data, hash, 1);
    assert id == 1 && c.proofs.Keys == {1};
    firstsProofs := c.GetProofsByIssuer(first);
    assert c.Valid();
    assert forall p :: p in c.proofs.Values ==> p.issuer == second;
  }

  /** The same calls with `initialize` keeping the counter: the second proof gets id 2
      and the first issuer still finds theirs. */
  method KeptProofScenario(first: Address, second: Address, admin: Address, data: Bytes, hash: Bytes)
    returns (c: VerinodeContract, firstsProofs: seq<Proof>)
    requires first != second
    ensures c.Valid()
    ensures c.proofs.Keys == {1, 2} && c.proofs[1].issuer == first && c.proofs[2].issuer == second
    ensures firstsProofs == [c.proofs[1]]
  {
    c := new VerinodeContract();
    var id := c.IssueProof(first, data, hash, 0);
    var r := c.Initialize(admin);
    id := c.IssueProof(second, data, hash, 1);
    assert id == 2 && c.proofs.Keys == {1, 2};
    firstsProofs := c.GetProofsByIssuer(first);
    assert ScanIds(c.proofs, 1, IssuedBy(first)) == [c.proofs[1]] by {
      assert ScanIds(c.proofs, 0, IssuedBy(first)) == [];
      assert IssuedBy(first)(c.proofs[1]);
    }
    assert !IssuedBy(first)(c.proofs[2]);
  }
}
