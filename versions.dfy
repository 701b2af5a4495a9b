/** Proof version histories: per proof id (a string), the list of versions added so far,
    numbered from 1 in the order they were added. */
module VersionHistory {
  import opened Common

  datatype ProofVersion = ProofVersion(
    version: nat,
    hash: Text,
    uri: Text,
    timestamp: nat,
    author: Address,
    message: Text,
    branch: Text)

  /** Entry i of a history carries version number i + 1. */
  predicate Numbered(history: seq<ProofVersion>) {
    forall i :: 0 <= i < |history| ==> history[i].version == i + 1
  }

  /** The lookup of `get_version`: nothing for 0 or past the end, otherwise entry
      `version - 1`, which carries that version number in a numbered history. */
  function VersionIn(history: seq<ProofVersion>, version: nat): (r: Option<ProofVersion>)
    ensures r.None? <==> version == 0 || version > |history|
    ensures r.Some? ==> r.value in history
    ensures r.Some? && Numbered(history) ==> r.value.version == version
  {
    if version == 0 || version > |history| then None
    else Some(history[version - 1])
  }

  /** A version number names at most one entry of a numbered history. */
  lemma {:induction false} VersionNumbersUnique(history: seq<ProofVersion>, v: ProofVersion, version: nat)
    requires Numbered(history)
    requires v in history && v.version == version
    ensures VersionIn(history, version) == Some(v)
  {
    var i :| 0 <= i < |history| && history[i] == v;
    assert history[i].version == i + 1;
  }

  class VersionStore {
    /** The persistent entry of each proof id that has a history. */
    var histories: map<Text, seq<ProofVersion>>

    /** Every stored history is numbered 1, 2, 3, ... */
    ghost predicate Valid()
      reads this
    {
      forall id :: id in histories ==> Numbered(histories[id])
    }

    constructor ()
      ensures Valid() && histories == map[]
    {
      histories := map[];
    }

    /** `get_history`: the full list in insertion order, or empty for an unknown id. */
    function GetHistory(proofId: Text): (h: seq<ProofVersion>)
      reads this
      ensures proofId !in histories ==> h == []
      ensures proofId in histories ==> h == histories[proofId]
      ensures Valid() ==> Numbered(h)
    {
      if proofId in histories then histories[proofId] else []
    }

    /** `add_version`: appends one version numbered one past the current length and
        returns that number; other proofs' histories are untouched. */
    method AddVersion(proofId: Text, hash: Text, uri: Text, author: Address, message: Text, branch: Text, now: nat)
      returns (version: nat)
      modifies this
      ensures old(Valid()) ==> Valid()
      ensures version == |old(GetHistory(proofId))| + 1
      ensures GetHistory(proofId) == old(GetHistory(proofId)) + [ProofVersion(version, hash, uri, now, author, message, branch)]
      ensures forall other :: other != proofId ==> GetHistory(other) == old(GetHistory(other))
      ensures GetVersion(proofId, version) == Some(ProofVersion(version, hash, uri, now, author, message, branch))
      ensures forall v :: 0 < v < version ==> GetVersion(proofId, v) == old(GetVersion(proofId, v))
    {
      var versions := GetHistory(proofId);
      version := |versions| + 1;
      var entry := ProofVersion(version, hash, uri, now, author, message, branch);
      versions := versions + [entry];
      histories := histories[proofId := versions];
    }

    /** `get_version`: nothing for version 0 or past the end of the history; otherwise
        the entry carrying that version number. */
    function GetVersion(proofId: Text, version: nat): (r: Option<ProofVersion>)
      reads this
      ensures r.None? <==> version == 0 || version > |GetHistory(proofId)|
      ensures r.Some? ==> r.value in GetHistory(proofId)
      ensures r.Some? && Valid() ==> r.value.version == version
    {
      VersionIn(GetHistory(proofId), version)
    }
  }
}
