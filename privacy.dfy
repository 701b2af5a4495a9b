/** The privacy-verification contract: per-proof privacy settings with a visibility
    level and a viewer list, consent records listing the actions a grantee may take,
    selective disclosure of named fields, and a data-minimisation filter. Settings and
    consents are keyed by the proof id alone. */
module PrivacyVerification {
  import opened Common

  /** A 32-byte proof id. */
  type ProofId = Bytes

  /** Visibility 0 is private, 1 public, 2 shared with the listed viewers; actions are
      0 view, 1 verify, 2 share. */
  datatype PrivacySettings = PrivacySettings(
    visibility: nat,
    allowedViewers: seq<Address>,
    allowedActions: seq<nat>,
    requireConsent: bool,
    dataMinimization: bool,
    encryptionRequired: bool)

  datatype SelectiveDisclosure = SelectiveDisclosure(disclosedFields: seq<Text>, purpose: Text, recipient: Address, signature: Bytes)

  datatype ZkProof = ZkProof(proof: Bytes, publicInputs: seq<Bytes>, verificationKey: Bytes, circuitId: Text)

  /** The settings of a proof nobody configured: private, view only, everything required. */
  const DefaultSettings := PrivacySettings(0, [], [0], true, true, true)

  /** Who may see a proof under some settings. */
  predicate MayView(settings: PrivacySettings, requester: Address) {
    settings.visibility == 1 || (settings.visibility == 2 && requester in settings.allowedViewers)
  }

  /** `is_allowed_viewer`: the viewer search; the requested actions are not looked at. */
  method IsAllowedViewer(allowedViewers: seq<Address>, requester: Address, requestedActions: seq<nat>) returns (allowed: bool)
    ensures allowed <==> requester in allowedViewers
  {
    allowed := false;
    for i := 0 to |allowedViewers|
      invariant !allowed ==> requester !in allowedViewers[..i]
      invariant allowed ==> requester in allowedViewers
    {
      if allowedViewers[i] == requester {
        allowed := true;
        break;
      }
      assert allowedViewers[..i + 1] == allowedViewers[..i] + [allowedViewers[i]];
    }
    if !allowed {
      assert allowedViewers[..|allowedViewers|] == allowedViewers;
    }
  }

  /** The visibility dispatch of `verify_privacy`. */
  method VisibilityAllows(settings: PrivacySettings, requester: Address, requestedActions: seq<nat>) returns (ok: bool)
    ensures ok <==> MayView(settings, requester)
    ensures settings.visibility == 0 || settings.visibility > 2 ==> !ok
  {
    match settings.visibility
    case 0 => ok := false;
    case 1 => ok := true;
    case 2 => ok := IsAllowedViewer(settings.allowedViewers, requester, requestedActions);
    case _ => ok := false;
  }

  /** `verify_zk_proof`: the stored public inputs must equal the expected ones position by
      position, and the proof and verification key must both be non-empty. */
  method VerifyZkProof(zkProof: ZkProof, publicInputs: seq<Bytes>) returns (ok: bool)
    ensures ok <==> zkProof.publicInputs == publicInputs && zkProof.proof != [] && zkProof.verificationKey != []
  {
    if |zkProof.publicInputs| != |publicInputs| {
      return false;
    }
    for i := 0 to |publicInputs|
      invariant zkProof.publicInputs[..i] == publicInputs[..i]
    {
      if zkProof.publicInputs[i] != publicInputs[i] {
        return false;
      }
      assert zkProof.publicInputs[..i + 1] == zkProof.publicInputs[..i] + [zkProof.publicInputs[i]];
      assert publicInputs[..i + 1] == publicInputs[..i] + [publicInputs[i]];
    }
    assert zkProof.publicInputs == zkProof.publicInputs[..|publicInputs|];
    assert publicInputs == publicInputs[..|publicInputs|];
    ok := ZkProofInternal(zkProof.proof, zkProof.verificationKey);
  }

  /** `verify_zk_proof_internal`: the stand-in for a real proof system. */
  function ZkProofInternal(proof: Bytes, verificationKey: Bytes): (ok: bool)
    ensures ok <==> |proof| > 0 && |verificationKey| > 0
  {
    proof != [] && verificationKey != []
  }

  /** Whether a consent record covers every requested action. */
  predicate Covers(consented: seq<nat>, requested: seq<nat>) {
    forall a :: a in requested ==> a in consented
  }

  /** The fields `apply_data_minimization` always keeps when present. */
  const EssentialFields: seq<Text> := ["id", "issuer", "timestamp", "verified"]

  /** The keys a minimised view may hold. */
  function MinimizedKeys(settings: PrivacySettings, requester: Address): (keys: set<Text>)
    ensures "hash" in keys <==> settings.visibility == 1 || requester in settings.allowedViewers
    ensures forall f :: f in EssentialFields ==> f in keys
  {
    (set f | f in EssentialFields) + (if settings.visibility == 1 || requester in settings.allowedViewers then {"hash"} else {})
  }

  /** `apply_data_minimization`: with minimisation off the data comes back whole;
      otherwise only the essential fields, and the hash for a public proof or an allowed
      viewer, each with its value unchanged. */
  method ApplyDataMinimization(proofData: map<Text, Bytes>, settings: PrivacySettings, requester: Address)
    returns (filtered: map<Text, Bytes>)
    ensures !settings.dataMinimization ==> filtered == proofData
    ensures settings.dataMinimization ==>
      && (forall k :: k in filtered <==> k in proofData && k in MinimizedKeys(settings, requester))
      && (forall k :: k in filtered ==> filtered[k] == proofData[k])
  {
    if !settings.dataMinimization {
      return proofData;
    }
    filtered := map[];
    for i := 0 to |EssentialFields|
      invariant forall k :: k in filtered <==> k in proofData && k in EssentialFields[..i]
      invariant forall k :: k in filtered ==> filtered[k] == proofData[k]
    {
      var field := EssentialFields[i];
      if field in proofData {
        filtered := filtered[field := proofData[field]];
      }
      assert EssentialFields[..i + 1] == EssentialFields[..i] + [field];
    }
    assert EssentialFields[..|EssentialFields|] == EssentialFields;
    var allowed := IsAllowedViewer(settings.allowedViewers, requester, [0]);
    if settings.visibility == 1 || allowed {
      if "hash" in proofData {
        filtered := filtered["hash" := proofData["hash"]];
      }
    }
  }

  class PrivacyVerificationContract {
    var settings: map<ProofId, PrivacySettings>
    var consents: map<ProofId, seq<nat>>

    /** `initialize` sets nothing up. */
    constructor ()
      ensures settings == map[] && consents == map[]
    {
      settings := map[];
      consents := map[];
    }

    /** `get_privacy_settings`: the stored settings, or the private defaults. */
    function GetPrivacySettings(proofId: ProofId): (s: PrivacySettings)
      reads this
      ensures proofId !in settings ==> s.visibility == 0 && s.allowedViewers == [] && s.dataMinimization
      ensures proofId in settings ==> s == settings[proofId]
    {
      if proofId in settings then settings[proofId] else DefaultSettings
    }

    /** `set_privacy_settings`: replaces one proof's settings; nobody's identity is checked. */
    method SetPrivacySettings(proofId: ProofId, newSettings: PrivacySettings)
      modifies this
      ensures settings == old(settings)[proofId := newSettings]
      ensures consents == old(consents)
    {
      settings := settings[proofId := newSettings];
    }

    /** `verify_privacy`: public proofs are visible to all, shared ones to their viewers,
        private ones and unknown visibility levels to nobody. */
    method VerifyPrivacy(proofId: ProofId, requester: Address, requestedActions: seq<nat>) returns (ok: bool)
      ensures ok <==> MayView(GetPrivacySettings(proofId), requester)
      ensures proofId !in settings ==> !ok
    {
      var s := GetPrivacySettings(proofId);
      ok := VisibilityAllows(s, requester, requestedActions);
    }

    /** `verify_selective_disclosure`: the requester must be allowed to view, and the
        disclosed data's keys must be exactly the fields the policy names. */
    method VerifySelectiveDisclosure(proofId: ProofId, disclosedData: map<Text, Bytes>, policy: SelectiveDisclosure, requester: Address)
      returns (ok: bool)
      ensures ok <==> MayView(GetPrivacySettings(proofId), requester) && disclosedData.Keys == set f | f in policy.disclosedFields
    {
      var visible := VerifyPrivacy(proofId, requester, [0]);
      if !visible {
        return false;
      }
      var fields := policy.disclosedFields;
      for i := 0 to |fields|
        invariant forall f :: f in fields[..i] ==> f in disclosedData
      {
        if fields[i] !in disclosedData {
          return false;
        }
        assert fields[..i + 1] == fields[..i] + [fields[i]];
      }
      assert fields[..|fields|] == fields;
      var remaining := disclosedData.Keys;
      while remaining != {}
        invariant remaining <= disclosedData.Keys
        invariant forall k :: k in disclosedData.Keys - remaining ==> k in fields
        decreases remaining
      {
        var key :| key in remaining;
        var authorized := false;
        for j := 0 to |fields|
          invariant authorized <==> key in fields[..j]
        {
          if fields[j] == key {
            authorized := true;
          }
          assert fields[..j + 1] == fields[..j] + [fields[j]];
        }
        assert fields[..|fields|] == fields;
        if !authorized {
          return false;
        }
        remaining := remaining - {key};
      }
      ok := true;
    }

    /** `check_consent`: no record means no consent; otherwise every requested action
        must be among the consented ones, which holds for an empty request. */
    method CheckConsent(proofId: ProofId, granter: Address, grantee: Address, requested: seq<nat>) returns (ok: bool)
      ensures ok <==> proofId in consents && Covers(consents[proofId], requested)
    {
      if proofId !in consents {
        return false;
      }
      var consented := consents[proofId];
      for i := 0 to |requested|
        invariant forall a :: a in requested[..i] ==> a in consented
      {
        var permitted := false;
        for j := 0 to |consented|
          invariant permitted <==> requested[i] in consented[..j]
        {
          if consented[j] == requested[i] {
            permitted := true;
          }
          assert consented[..j + 1] == consented[..j] + [consented[j]];
        }
        assert consented[..|consented|] == consented;
        if !permitted {
          return false;
        }
        assert requested[..i + 1] == requested[..i] + [requested[i]];
      }
      assert requested[..|requested|] == requested;
      ok := true;
    }

    /** `grant_consent`: records (or replaces) the proof's consented actions. */
    method GrantConsent(proofId: ProofId, granter: Address, grantee: Address, permissions: seq<nat>)
      modifies this
      ensures consents == old(consents)[proofId := permissions]
      ensures settings == old(settings)
    {
      consents := consents[proofId := permissions];
    }

    /** `revoke_consent`: drops the proof's consent record. */
    method RevokeConsent(proofId: ProofId, granter: Address, grantee: Address)
      modifies this
      ensures consents == old(consents) - {proofId}
      ensures settings == old(settings)
    {
      consents := consents - {proofId};
    }
  }

  /** Once consent to some actions is granted, any request within them is consented;
      once it is revoked, no request is, not even an empty one. */
  lemma ConsentAfterGrantAndRevoke(consents: map<ProofId, seq<nat>>, proofId: ProofId, permissions: seq<nat>, requested: seq<nat>)
    ensures (forall a :: a in requested ==> a in permissions) ==>
      var after := consents[proofId := permissions];
      proofId in after && Covers(after[proofId], requested)
    ensures proofId !in consents - {proofId}
  {
  }

  /** A minimised view holds at most the four essential fields and the hash. */
  lemma MinimizedKeysBound(settings: PrivacySettings, requester: Address)
    ensures MinimizedKeys(settings, requester) <= {"id", "issuer", "timestamp", "verified", "hash"}
  {
  }
}
