/** The multi-signature contract: an owner-managed set of signers, signature requests
    that collect one signature per signer until they reach their quorum, and an
    aggregate check that XORs the signatures' polynomial hashes. */
module MultiSignature {
  import opened Common
  import opened PolyHash

  datatype SignatureStatus = Pending | Completed | Executed | Expired

  datatype SignatureRequest = SignatureRequest(
    id: nat,
    creator: Address,
    proofData: Bytes,
    description: seq<char>,
    createdAt: nat,
    expiresAt: nat,
    status: SignatureStatus,
    requiredSignatures: nat)

  datatype CompletedSignature = CompletedSignature(requestId: nat, signer: Address, signature: Bytes, signedAt: nat)

  datatype RequestInfo = RequestInfo(
    request: SignatureRequest,
    signatures: seq<CompletedSignature>,
    signers: seq<Address>,
    isFullySigned: bool)

  /** The error texts the contract returns. */
  datatype MultiSigError =
    | Unauthorized | SignerAlreadyExists | SignerNotFound | NotAuthorizedSigner | InvalidRequestId
    | NotPending | RequestExpired | AlreadySigned | NotFullySigned | VerificationFailed
    | NoSignatures | RequestNotFound

  /** The quorum a request gets when none was stored. */
  const DefaultRequiredSignatures: nat := 2

  /* ---------------------------------------------------------------------------
     Signer lists
     ------------------------------------------------------------------------- */

  predicate NoDuplicates<T(==)>(s: seq<T>) {
    forall i, j :: 0 <= i < j < |s| ==> s[i] != s[j]
  }

  /** The list without the first occurrence of `x`. */
  function RemoveFirst<T(==)>(s: seq<T>, x: T): seq<T> {
    if s == [] then []
    else if s[0] == x then s[1..]
    else [s[0]] + RemoveFirst(s[1..], x)
  }

  /** Removing the first occurrence takes out exactly one copy of `x`, and cutting
      the list at the first index holding `x` gives the same list. */
  lemma RemoveFirstSpec<T>(s: seq<T>, x: T, k: nat)
    requires k < |s| && s[k] == x && x !in s[..k]
    ensures RemoveFirst(s, x) == s[..k] + s[k + 1..]
    ensures multiset(RemoveFirst(s, x)) == multiset(s) - multiset{x}
  {
    RemoveFirstCut(s, x, k);
    assert s == s[..k] + [x] + s[k + 1..];
    assert multiset(s) == multiset(s[..k]) + multiset{x} + multiset(s[k + 1..]);
  }

  /** The removal, by induction on the position of the first occurrence. */
  lemma {:induction false} RemoveFirstCut<T>(s: seq<T>, x: T, k: nat)
    requires k < |s| && s[k] == x && x !in s[..k]
    ensures RemoveFirst(s, x) == s[..k] + s[k + 1..]
  {
    if k > 0 {
      assert s[1..][..k - 1] == s[1..k];
      assert x !in s[1..][..k - 1] by {
        assert forall y :: y in s[1..k] ==> y in s[..k];
      }
      RemoveFirstCut(s[1..], x, k - 1);
      assert s[..k] == [s[0]] + s[1..][..k - 1];
      assert s[k + 1..] == s[1..][k..];
    }
  }

  /** From a list without duplicates, removal leaves a list without duplicates that no
      longer holds `x`. */
  lemma RemoveFirstNoDuplicates<T>(s: seq<T>, x: T, k: nat)
    requires k < |s| && s[k] == x && x !in s[..k]
    requires NoDuplicates(s)
    ensures NoDuplicates(RemoveFirst(s, x))
    ensures x !in RemoveFirst(s, x)
  {
    RemoveFirstSpec(s, x, k);
    var r := s[..k] + s[k + 1..];
    forall i, j | 0 <= i < j < |r|
      ensures r[i] != r[j]
    {
      CutIndex(s, k, i);
      CutIndex(s, k, j);
    }
    forall i | 0 <= i < |r|
      ensures r[i] != x
    {
      CutIndex(s, k, i);
    }
  }

  /** Position `i` of the list cut at `k` is position `i` or `i + 1` of the original. */
  lemma CutIndex<T>(s: seq<T>, k: nat, i: nat)
    requires k < |s| && i < |s| - 1
    ensures (s[..k] + s[k + 1..])[i] == s[if i < k then i else i + 1]
  {
  }

  /** The search loop of `remove_signer`: the first index holding `x`, if any. */
  method FindFirst(s: seq<Address>, x: Address) returns (found: Option<nat>)
    ensures found.None? <==> x !in s
    ensures found.Some? ==> found.value < |s| && s[found.value] == x && x !in s[..found.value]
  {
    for i := 0 to |s|
      invariant x !in s[..i]
    {
      if s[i] == x {
        return Some(i);
      }
      assert s[..i + 1] == s[..i] + [s[i]];
    }
    assert s[..|s|] == s;
    return None;
  }

  /* ---------------------------------------------------------------------------
     Signatures and requests
     ------------------------------------------------------------------------- */

  /** The signatures collected for one request, in the order they were given. */
  function SignaturesFor(completed: seq<CompletedSignature>, id: nat): seq<CompletedSignature> {
    if completed == [] then []
    else
      var last := completed[|completed| - 1];
      SignaturesFor(completed[..|completed| - 1], id) + (if last.requestId == id then [last] else [])
  }

  /** Appending a signature extends only its own request's list, by that signature. */
  lemma SignaturesForAppend(completed: seq<CompletedSignature>, s: CompletedSignature, id: nat)
    ensures SignaturesFor(completed + [s], id) == SignaturesFor(completed, id) + (if s.requestId == id then [s] else [])
  {
    assert (completed + [s])[..|completed|] == completed;
  }

  /** A request's signatures are exactly the collected signatures naming it. */
  lemma {:induction false} SignaturesForExact(completed: seq<CompletedSignature>, id: nat)
    ensures forall s :: s in SignaturesFor(completed, id) <==> s in completed && s.requestId == id
    ensures |SignaturesFor(completed, id)| <= |completed|
  {
    if completed != [] {
      var init := completed[..|completed| - 1];
      SignaturesForExact(init, id);
      assert completed == init + [completed[|completed| - 1]];
    }
  }

  /** The signature loop of `get_signatures_for_request`. */
  method GetSignaturesForRequest(completed: seq<CompletedSignature>, id: nat) returns (result: seq<CompletedSignature>)
    ensures result == SignaturesFor(completed, id)
  {
    result := [];
    for i := 0 to |completed|
      invariant result == SignaturesFor(completed[..i], id)
    {
      assert completed[..i + 1][..i] == completed[..i];
      if completed[i].requestId == id {
        result := result + [completed[i]];
      }
    }
    assert completed[..|completed|] == completed;
  }

  /** Whether a signer has already signed a request. */
  predicate HasSigned(completed: seq<CompletedSignature>, id: nat, signer: Address) {
    exists k :: 0 <= k < |completed| && completed[k].requestId == id && completed[k].signer == signer
  }

  /** The duplicate-signature loop of `sign_request`. */
  method FindSignature(completed: seq<CompletedSignature>, id: nat, signer: Address) returns (signed: bool)
    ensures signed <==> HasSigned(completed, id, signer)
  {
    for i := 0 to |completed|
      invariant forall k :: 0 <= k < i ==> !(completed[k].requestId == id && completed[k].signer == signer)
    {
      if completed[i].requestId == id && completed[i].signer == signer {
        return true;
      }
    }
    return false;
  }

  /** The signature bytes of a list of collected signatures. */
  function SignatureBytes(sigs: seq<CompletedSignature>): (r: seq<Bytes>)
    ensures |r| == |sigs| && forall i :: 0 <= i < |sigs| ==> r[i] == sigs[i].signature
  {
    seq(|sigs|, i requires 0 <= i < |sigs| => sigs[i].signature)
  }

  /** The pending requests, in their original order. */
  function PendingOf(requests: seq<SignatureRequest>): seq<SignatureRequest> {
    if requests == [] then []
    else
      var last := requests[|requests| - 1];
      PendingOf(requests[..|requests| - 1]) + (if last.status == Pending then [last] else [])
  }

  /** The pending list holds exactly the pending requests; when every request's id is
      its position, their ids ascend, so the original order is kept. */
  lemma PendingOfExact(requests: seq<SignatureRequest>)
    ensures forall r :: r in PendingOf(requests) <==> r in requests && r.status == Pending
    ensures (forall i :: 0 <= i < |requests| ==> requests[i].id == i) ==>
      var p := PendingOf(requests);
      && (forall r :: r in p ==> r.id < |requests|)
      && (forall i, j :: 0 <= i < j < |p| ==> p[i].id < p[j].id)
  {
    PendingOfMembers(requests);
    if forall i :: 0 <= i < |requests| ==> requests[i].id == i {
      PendingOfAscending(requests);
    }
  }

  /** Membership in the pending list, by induction on the list of requests. */
  lemma {:induction false} PendingOfMembers(requests: seq<SignatureRequest>)
    ensures forall r :: r in PendingOf(requests) <==> r in requests && r.status == Pending
  {
    if requests != [] {
      var init := requests[..|requests| - 1];
      PendingOfMembers(init);
      assert requests == init + [requests[|requests| - 1]];
    }
  }

  /** Ascending ids in the pending list when every id is its position. */
  lemma {:induction false} PendingOfAscending(requests: seq<SignatureRequest>)
    requires forall i :: 0 <= i < |requests| ==> requests[i].id == i
    ensures var p := PendingOf(requests);
      && (forall r :: r in p ==> r.id < |requests|)
      && (forall i, j :: 0 <= i < j < |p| ==> p[i].id < p[j].id)
  {
    if requests != [] {
      var init := requests[..|requests| - 1];
      assert forall i :: 0 <= i < |init| ==> init[i].id == i;
      PendingOfAscending(init);
    }
  }

  /* ---------------------------------------------------------------------------
     The aggregate check (`verify_aggregated_signature`)
     ------------------------------------------------------------------------- */

  /** An empty list fails; otherwise the XOR of the signature hashes must equal the
      hash of the proof data. */
  function AggregateCheck(proofData: Bytes, signatures: seq<Bytes>): Result<bool, MultiSigError> {
    if signatures == [] then Err(NoSignatures)
    else Ok(XorOfHashes(signatures) == Fold(proofData))
  }

  method VerifyAggregatedSignature(proofData: Bytes, signatures: seq<Bytes>) returns (r: Result<bool, MultiSigError>)
    ensures r == AggregateCheck(proofData, signatures)
  {
    if signatures == [] {
      return Err(NoSignatures);
    }
    var combined := CombineHashes(signatures);
    var proofHash := HashBinary(proofData);
    r := Ok(combined == proofHash);
  }

  /** What the aggregate check accepts: the proof data itself as the only signature;
      and its answer is unchanged by reordering the signatures' halves or by adding a
      signature twice. */
  lemma AggregateCheckProperties(proofData: Bytes, a: seq<Bytes>, b: seq<Bytes>, x: Bytes)
    ensures AggregateCheck(proofData, [proofData]) == Ok(true)
    ensures AggregateCheck(proofData, a + b) == AggregateCheck(proofData, b + a)
    ensures a != [] ==> AggregateCheck(proofData, a + [x, x]) == AggregateCheck(proofData, a)
  {
    XorOfHashesSingle(proofData);
    XorOfHashesOrderAndCancel(a, b, x);
  }

  /* ---------------------------------------------------------------------------
     The contract
     ------------------------------------------------------------------------- */

  /** The contract's invariant over its three stored lists: signers are distinct, each
      request's id is its position, every signature names a known request, no signer
      signs a request twice, and a Completed or Executed request has reached its quorum
      with at least one signature. */
  ghost predicate Consistent(signers: seq<Address>, requests: seq<SignatureRequest>, completed: seq<CompletedSignature>) {
    && NoDuplicates(signers)
    && (forall i :: 0 <= i < |requests| ==> requests[i].id == i)
    && (forall k :: 0 <= k < |completed| ==> completed[k].requestId < |requests|)
    && (forall k, l :: 0 <= k < l < |completed| ==>
          !(completed[k].requestId == completed[l].requestId && completed[k].signer == completed[l].signer))
    && (forall i :: 0 <= i < |requests| && requests[i].status in {Completed, Executed} ==>
          var n := |SignaturesFor(completed, i)|;
          n > 0 && n >= requests[i].requiredSignatures)
  }

  /** The request list after a new signature for request `id`: Completed once its
      signatures reach the quorum. */
  function AfterSigning(requests: seq<SignatureRequest>, completed: seq<CompletedSignature>, id: nat): (r: seq<SignatureRequest>)
    requires id < |requests|
    ensures |r| == |requests|
  {
    if |SignaturesFor(completed, id)| >= requests[id].requiredSignatures
    then requests[id := requests[id].(status := Completed)]
    else requests
  }

  /** Recording a signature from a signer who has not yet signed that request keeps the
      invariant, with the request completed once it reaches its quorum. */
  lemma SignKeepsConsistent(signers: seq<Address>, requests: seq<SignatureRequest>,
                            completed: seq<CompletedSignature>, sig: CompletedSignature)
    requires Consistent(signers, requests, completed)
    requires sig.requestId < |requests| && !HasSigned(completed, sig.requestId, sig.signer)
    ensures Consistent(signers, AfterSigning(requests, completed + [sig], sig.requestId), completed + [sig])
  {
    var c, id := completed + [sig], sig.requestId;
    var rs := AfterSigning(requests, c, id);
    forall j | 0 <= j
      ensures SignaturesFor(c, j) == SignaturesFor(completed, j) + (if j == id then [sig] else [])
    {
      SignaturesForAppend(completed, sig, j);
    }
    assert forall i :: 0 <= i < |rs| ==> rs[i].id == i;
    assert forall k :: 0 <= k < |c| ==> c[k].requestId < |rs|;
    forall k, l | 0 <= k < l < |c|
      ensures !(c[k].requestId == c[l].requestId && c[k].signer == c[l].signer)
    {
      if l == |completed| {
        assert c[l] == sig && c[k] == completed[k];
      }
    }
    forall i | 0 <= i < |rs| && rs[i].status in {Completed, Executed}
      ensures var n := |SignaturesFor(c, i)|; n > 0 && n >= rs[i].requiredSignatures
    {
    }
  }

  class MultiSignatureContract {
    var owner: Option<Address>
    var requiredSignatures: Option<nat>
    var signers: seq<Address>
    var requests: seq<SignatureRequest>
    var completed: seq<CompletedSignature>

    /** Signers are listed once; each request's id is its position; every signature
        names an existing request, and no signer signs a request twice; a request that
        left Pending collected at least one signature and at least its quorum. */
    ghost predicate Valid()
      reads this
    {
      Consistent(signers, requests, completed)
    }

    /** A contract whose storage is still empty. */
    constructor ()
      ensures Valid()
      ensures owner == None && requiredSignatures == None
      ensures signers == [] && requests == [] && completed == []
    {
      owner := None;
      requiredSignatures := None;
      signers := [];
      requests := [];
      completed := [];
    }

    /** `__init`: unguarded; it sets the owner and quorum and empties every list. */
    method Init(newOwner: Address, required: nat)
      modifies this
      ensures Valid()
      ensures owner == Some(newOwner) && requiredSignatures == Some(required)
      ensures signers == [] && requests == [] && completed == []
    {
      owner := Some(newOwner);
      requiredSignatures := Some(required);
      signers := [];
      requests := [];
      completed := [];
    }

    /** Whether the invoker is the stored owner; with no owner stored the contract
        compares against a freshly generated address, which no invoker equals. */
    function IsOwner(invoker: Address): bool
      reads this
    {
      owner == Some(invoker)
    }

    /** `add_signer`: owner only; an existing signer is refused, so the list keeps no
        duplicates. */
    method AddSigner(invoker: Address, signer: Address) returns (r: Outcome<MultiSigError>)
      modifies this
      ensures old(Valid()) ==> Valid()
      ensures r == (if !old(IsOwner(invoker)) then Fail(Unauthorized)
                    else if signer in old(signers) then Fail(SignerAlreadyExists)
                    else Pass)
      ensures r.Pass? ==> signers == old(signers) + [signer]
      ensures r.Fail? ==> signers == old(signers)
      ensures owner == old(owner) && requiredSignatures == old(requiredSignatures)
      ensures requests == old(requests) && completed == old(completed)
    {
      if !IsOwner(invoker) {
        return Fail(Unauthorized);
      }
      if signer in signers {
        return Fail(SignerAlreadyExists);
      }
      signers := signers + [signer];
      r := Pass;
    }

    /** `remove_signer`: owner only; takes out the first matching entry and keeps the
        rest in order, or reports that the signer is absent. */
    method RemoveSigner(invoker: Address, signer: Address) returns (r: Outcome<MultiSigError>)
      modifies this
      ensures old(Valid()) ==> Valid()
      ensures r == (if !old(IsOwner(invoker)) then Fail(Unauthorized)
                    else if signer !in old(signers) then Fail(SignerNotFound)
                    else Pass)
      ensures r.Pass? ==>
        && signers == RemoveFirst(old(signers), signer)
        && multiset(signers) == multiset(old(signers)) - multiset{signer}
        && (old(Valid()) ==> signer !in signers)
      ensures r.Fail? ==> signers == old(signers)
      ensures owner == old(owner) && requiredSignatures == old(requiredSignatures)
      ensures requests == old(requests) && completed == old(completed)
    {
      if !IsOwner(invoker) {
        return Fail(Unauthorized);
      }
      var found := FindFirst(signers, signer);
      if found.None? {
        return Fail(SignerNotFound);
      }
      var k := found.value;
      RemoveFirstSpec(signers, signer, k);
      if NoDuplicates(signers) {
        RemoveFirstNoDuplicates(signers, signer, k);
      }
      signers := signers[..k] + signers[k + 1..];
      r := Pass;
    }

    /** `create_signature_request`: signers only; the new request takes the next
        position as its id, is Pending, and snapshots the current quorum. */
    method CreateSignatureRequest(invoker: Address, proofData: Bytes, description: seq<char>, expiresAt: nat, now: nat)
      returns (r: Result<nat, MultiSigError>)
      modifies this
      ensures old(Valid()) ==> Valid()
      ensures invoker !in old(signers) <==> r == Err(NotAuthorizedSigner)
      ensures r.Err? ==> requests == old(requests)
      ensures r.Ok? ==>
        && r.value == |old(requests)|
        && requests == old(requests) + [SignatureRequest(r.value, invoker, proofData, description, now, expiresAt,
             Pending, old(requiredSignatures).GetOr(DefaultRequiredSignatures))]
      ensures owner == old(owner) && requiredSignatures == old(requiredSignatures)
      ensures signers == old(signers) && completed == old(completed)
    {
      if invoker !in signers {
        return Err(NotAuthorizedSigner);
      }
      var id := |requests|;
      var request := SignatureRequest(id, invoker, proofData, description, now, expiresAt,
                                      Pending, requiredSignatures.GetOr(DefaultRequiredSignatures));
      requests := requests + [request];
      r := Ok(id);
    }

    /** The checks of `sign_request`, in the order the contract makes them. */
    function SignRejection(invoker: Address, id: nat, now: nat): Option<MultiSigError>
      reads this
    {
      if invoker !in signers then Some(NotAuthorizedSigner)
      else if id >= |requests| then Some(InvalidRequestId)
      else if requests[id].status != Pending then Some(NotPending)
      else if now > requests[id].expiresAt then Some(RequestExpired)
      else if HasSigned(completed, id, invoker) then Some(AlreadySigned)
      else None
    }

    /** `sign_request`: records exactly one signature, and the request becomes
        Completed once its signatures reach its quorum. */
    method SignRequest(invoker: Address, id: nat, signature: Bytes, now: nat) returns (r: Outcome<MultiSigError>)
      modifies this
      ensures old(Valid()) ==> Valid()
      ensures r.Fail? <==> old(SignRejection(invoker, id, now)).Some?
      ensures r.Fail? ==> r.error == old(SignRejection(invoker, id, now)).value
      ensures r.Fail? ==> requests == old(requests) && completed == old(completed)
      ensures r.Pass? ==>
        && completed == old(completed) + [CompletedSignature(id, invoker, signature, now)]
        && |SignaturesFor(completed, id)| == |SignaturesFor(old(completed), id)| + 1
        && requests == AfterSigning(old(requests), completed, id)
      ensures owner == old(owner) && requiredSignatures == old(requiredSignatures) && signers == old(signers)
    {
      if invoker !in signers {
        return Fail(NotAuthorizedSigner);
      }
      if id >= |requests| {
        return Fail(InvalidRequestId);
      }
      var request := requests[id];
      if request.status != Pending {
        return Fail(NotPending);
      }
      if now > request.expiresAt {
        return Fail(RequestExpired);
      }
      var signed := FindSignature(completed, id, invoker);
      if signed {
        return Fail(AlreadySigned);
      }
      var sig := CompletedSignature(id, invoker, signature, now);
      var signatures := completed + [sig];
      SignaturesForAppend(completed, sig, id);
      var mine := GetSignaturesForRequest(signatures, id);
      var updated := requests;
      if |mine| >= request.requiredSignatures {
        request := request.(status := Completed);
        updated := requests[id := request];
      }
      assert updated == AfterSigning(requests, signatures, id);
      if Valid() {
        SignKeepsConsistent(signers, requests, completed, sig);
      }
      completed, requests := signatures, updated;
      r := Pass;
    }

    /** `verify_multi_signature`: an unknown request fails; too few signatures give
        false; otherwise the aggregate check over the request's signatures decides. */
    function MultiSignatureCheck(id: nat): Result<bool, MultiSigError>
      reads this
    {
      if id >= |requests| then Err(InvalidRequestId)
      else
        var sigs := SignaturesFor(completed, id);
        if |sigs| < requests[id].requiredSignatures then Ok(false)
        else AggregateCheck(requests[id].proofData, SignatureBytes(sigs))
    }

    method VerifyMultiSignature(id: nat) returns (r: Result<bool, MultiSigError>)
      ensures r == MultiSignatureCheck(id)
    {
      var sigs := GetSignaturesForRequest(completed, id);
      if id >= |requests| {
        return Err(InvalidRequestId);
      }
      var request := requests[id];
      if |sigs| < request.requiredSignatures {
        return Ok(false);
      }
      var aggregated: seq<Bytes> := [];
      for i := 0 to |sigs|
        invariant aggregated == SignatureBytes(sigs[..i])
      {
        aggregated := aggregated + [sigs[i].signature];
      }
      assert sigs[..|sigs|] == sigs;
      r := VerifyAggregatedSignature(request.proofData, aggregated);
    }

    /** For a completed request of a valid contract the quorum test always passes and the
        signature list is never empty, so only the hash comparison decides. */
    lemma CompletedCheck(id: nat)
      requires Valid() && id < |requests| && requests[id].status == Completed
      ensures MultiSignatureCheck(id) == Ok(XorOfHashes(SignatureBytes(SignaturesFor(completed, id))) == Fold(requests[id].proofData))
    {
    }

    /** `execute_request`: only a Completed request whose multi-signature check
        succeeds becomes Executed, and the call returns its proof data. */
    method ExecuteRequest(id: nat) returns (r: Result<Bytes, MultiSigError>)
      modifies this
      ensures old(Valid()) ==> Valid()
      ensures r == (if id >= |old(requests)| then Err(InvalidRequestId)
                    else if old(requests)[id].status != Completed then Err(NotFullySigned)
                    else match old(MultiSignatureCheck(id))
                         case Ok(true) => Ok(old(requests)[id].proofData)
                         case Ok(false) => Err(VerificationFailed)
                         case Err(e) => Err(e))
      ensures r.Ok? ==> requests == old(requests)[id := old(requests)[id].(status := Executed)]
      ensures r.Err? ==> requests == old(requests)
      ensures owner == old(owner) && requiredSignatures == old(requiredSignatures)
      ensures signers == old(signers) && completed == old(completed)
    {
      if id >= |requests| {
        return Err(InvalidRequestId);
      }
      var request := requests[id];
      if request.status != Completed {
        return Err(NotFullySigned);
      }
      var verified := VerifyMultiSignature(id);
      match verified
      case Ok(true) =>
        request := request.(status := Executed);
        requests := requests[id := request];
        r := Ok(request.proofData);
      case Ok(false) =>
        r := Err(VerificationFailed);
      case Err(e) =>
        r := Err(e);
    }

    /** `get_request_info`. */
    function GetRequestInfo(id: nat): (r: Result<RequestInfo, MultiSigError>)
      reads this
      ensures id >= |requests| <==> r == Err(RequestNotFound)
      ensures r.Ok? ==>
        && r.value.request == requests[id]
        && r.value.signers == signers
        && r.value.signatures == SignaturesFor(completed, id)
        && (forall s :: s in r.value.signatures <==> s in completed && s.requestId == id)
        && (r.value.isFullySigned <==> |r.value.signatures| >= requests[id].requiredSignatures)
    {
      SignaturesForExact(completed, id);
      if id >= |requests| then Err(RequestNotFound)
      else
        var sigs := SignaturesFor(completed, id);
        Ok(RequestInfo(requests[id], sigs, signers, |sigs| >= requests[id].requiredSignatures))
    }

    /** `get_pending_requests`: exactly the pending requests, in their original order. */
    method GetPendingRequests() returns (pending: seq<SignatureRequest>)
      ensures pending == PendingOf(requests)
      ensures forall q :: q in pending <==> q in requests && q.status == Pending
      ensures Valid() ==> forall i, j :: 0 <= i < j < |pending| ==> pending[i].id < pending[j].id
    {
      pending := [];
      for i := 0 to |requests|
        invariant pending == PendingOf(requests[..i])
      {
        assert requests[..i + 1][..i] == requests[..i];
        if requests[i].status == Pending {
          pending := pending + [requests[i]];
        }
      }
      assert requests[..|requests|] == requests;
      PendingOfExact(requests);
    }

    /** `update_required_signatures`: owner only; requests already created keep the
        quorum they snapshotted. */
    method UpdateRequiredSignatures(invoker: Address, newCount: nat) returns (r: Outcome<MultiSigError>)
      modifies this
      ensures old(Valid()) ==> Valid()
      ensures !old(IsOwner(invoker)) <==> r == Fail(Unauthorized)
      ensures requiredSignatures == (if r.Pass? then Some(newCount) else old(requiredSignatures))
      ensures owner == old(owner) && signers == old(signers)
      ensures requests == old(requests) && completed == old(completed)
    {
      if !IsOwner(invoker) {
        return Fail(Unauthorized);
      }
      requiredSignatures := Some(newCount);
      r := Pass;
    }
  }
}
