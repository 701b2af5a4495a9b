# Verinode contracts in Dafny

This project models Verinode's Soroban smart contracts. Verinode is a registry of proofs
(attestations about events) with several companion contracts:

- a grant treasury that invests idle funds in yield positions and pays out grants;
- a registry of custom proof templates with a moderation workflow;
- a proof registry that stores SHA-256 digests, handles revocation and runs batch operations;
- a multi-signature contract whose requests collect signatures up to a quorum;
- a privacy contract with visibility levels, consent records and data minimisation;
- a zero-knowledge proof contract whose stand-in proof check compares polynomial hashes;
- the small Verinode proof contract itself, and proof version histories.

Each contract's persistent storage is a Dafny `class`. Its entry points are methods:

- A method returns a failure value (`Outcome`, `Result`) where the contract returns an error or panics.
- On such a failure the storage is left unchanged, as a reverted transaction would leave it.
- The caller's address (`invoker`, `require_auth`) and the ledger time are explicit parameters.

Loops in the contracts are methods with loop invariants. Each is proved equal to a recursive
specification function, and the lemmas beside that function state what the contracts promise.

Files:

- `common.dfy`: addresses, byte strings, `Option`/`Result`/`Outcome`, Rust's truncating
  division, and the id scan the proof queries use.
- `treasury.dfy`: the grant treasury.
- `templates.dfy`: the custom templates.
- `proof_registry.dfy`: the proof registry.
- `poly_hash.dfy`: the 64-bit polynomial hash shared by the multi-signature and
  zero-knowledge contracts.
- `multisig.dfy`: the multi-signature contract.
- `privacy.dfy`: the privacy contract.
- `zk_proofs.dfy`: the zero-knowledge proof contract.
- `verinode.dfy`: the Verinode proof contract.
- `versions.dfy`: the version histories.
  - These are the same three functions in `lib.rs` and in `contracts/src/lib.rs:141-184`.

## Model

| member | source | states |
|---|---|---|
| Common.TruncDiv | contracts/src/grantTreasury.rs:497-498 | Rust's `/` on i128: the quotient rounds toward zero, so it agrees with floor division for a non-negative dividend and the remainder takes the dividend's sign |
| Common.ScanIdsExact | contracts/src/proof_verifier.rs:273-302 | the loop over ids 1..count keeps exactly the stored entries that pass the filter; with every entry under its own id the ids come out strictly ascending |
| GrantTreasury.Yield | contracts/src/grantTreasury.rs:483-501 | the 5% linear yield: zero for no elapsed time, non-negative for a non-negative principal, and zero below one basis point of a year |
| GrantTreasury.YieldMonotoneInElapsed | contracts/src/grantTreasury.rs:483-501 | for a non-negative principal, a longer holding never earns less |
| GrantTreasury.YieldMonotoneInPrincipal | contracts/src/grantTreasury.rs:483-501 | over the same time, a larger principal never earns less |
| GrantTreasury.YieldOverOneYear | contracts/src/grantTreasury.rs:483-501 | over exactly one year the yield is principal * 500 / 10000, truncated |
| GrantTreasury.YieldOfThousandOverOneYear | contracts/src/grantTreasury.rs:483-501 | 1000 held for a year earns 50 |
| GrantTreasury.TruncDivScaled | contracts/src/grantTreasury.rs:497-498 | scaling both operands of a truncating division by the same positive factor leaves the quotient alone |
| GrantTreasury.SumAccumulatedYield | contracts/src/grantTreasury.rs:555-567 | the summing loop of `get_accumulated_yield` returns the positions' total accumulated yield |
| GrantTreasury.SameAmountsSamePrincipal | contracts/src/grantTreasury.rs:367-394 | rewriting positions without touching their amounts keeps the principal held |
| GrantTreasury.DivestForLiquidity | contracts/src/grantTreasury.rs:443-463 | the loop of `ensure_liquidity` returns the positions kept and the need left, exactly as the walk specification gives them |
| GrantTreasury.WalkAccounting | contracts/src/grantTreasury.rs:443-471 | the need falls by exactly the principal taken out plus the yield realised, and the kept positions hold the rest of the principal |
| GrantTreasury.WalkBounds | contracts/src/grantTreasury.rs:446-463 | on funded positions the realised yield is non-negative and the principal taken lies between 0 and the principal held |
| GrantTreasury.WalkRemainingBound | contracts/src/grantTreasury.rs:446-463 | on funded positions the realised yield is non-negative, and for a non-negative need the need never drops below minus that yield |
| GrantTreasury.WalkTakesPrincipal | contracts/src/grantTreasury.rs:446-463 | on funded positions the kept positions never hold more principal than the positions walked |
| GrantTreasury.WalkKeepsFunded | contracts/src/grantTreasury.rs:457-462 | an emptied position is removed, so every kept position holds principal |
| GrantTreasury.WalkStopsOnceMet | contracts/src/grantTreasury.rs:446-450 | once the need is met, the later positions are kept unchanged and in order |
| GrantTreasury.WalkNothingNeeded | contracts/src/grantTreasury.rs:446-450 | a need of zero or less touches no position |
| GrantTreasury.SettleAll | contracts/src/grantTreasury.rs:364-392 | the claim loop settles every position in place, appends one record per positive yield in order, and totals the positive yields |
| GrantTreasury.YieldRecordsTotal | contracts/src/grantTreasury.rs:364-392 | the amounts of the logged records add up to the total claimed |
| GrantTreasury.YieldRecordsShape | contracts/src/grantTreasury.rs:367-391 | at most one record per position; each is a positive amount at 500 bps stamped with the claim time |
| GrantTreasury.PositiveYieldNonNegative | contracts/src/grantTreasury.rs:367-371 | a claim never credits a negative total |
| GrantTreasury.SettleAllAccounting | contracts/src/grantTreasury.rs:367-394 | a claim moves exactly the claimed total into the positions' accumulated yield and leaves their principal alone |
| GrantTreasury.InvestRejection | contracts/src/grantTreasury.rs:133-161 | `invest_idle_funds` accepts exactly an initialised contract, the admin, a positive amount within the available funds, and available funds left at or above the liquidity floor |
| GrantTreasury.DivestRejection | contracts/src/grantTreasury.rs:194-221 | `divest_funds` accepts exactly an initialised contract, the admin, a position index in range, and a positive amount within that position |
| GrantTreasury.AdminRejection | contracts/src/grantTreasury.rs:255-268 | admin-only calls accept exactly an initialised contract and its admin |
| GrantTreasury.WithdrawRejection | contracts/src/grantTreasury.rs:302-321 | `withdraw_grant` accepts exactly an id in range, the allocation's grantee, and an Approved allocation |
| GrantTreasury.Treasury.constructor | contracts/src/grantTreasury.rs:506-545 | uninitialised storage reads as zero balances and empty lists |
| GrantTreasury.Treasury.Initialize | contracts/src/grantTreasury.rs:69-97 | the second call fails and changes nothing; the first stores the configuration and zeroes the ledger |
| GrantTreasury.Treasury.InvestIdleFunds | contracts/src/grantTreasury.rs:133-186 | fails as `InvestRejection` says, changing nothing; otherwise it appends one position, moves the amount from available to invested, keeps the liquidity floor and keeps both ledger identities |
| GrantTreasury.Treasury.AutoInvestIdleFunds | contracts/src/grantTreasury.rs:417-429 | below the threshold it does nothing; otherwise it invests half the available funds, rounded toward zero, as the admin |
| GrantTreasury.Treasury.Deposit | contracts/src/grantTreasury.rs:101-129 | rejects amounts of zero or less and an uninitialised contract; credits total and available, then auto-invests; an auto-invest panic undoes the deposit; a deposit keeps both the total == invested + available drift and the invested == principal drift unchanged |
| GrantTreasury.Treasury.DivestFunds | contracts/src/grantTreasury.rs:194-249 | fails as `DivestRejection` says; otherwise it realises the position's yield and takes out the amount, removing an emptied position; available rises by the amount plus the yield |
| GrantTreasury.Treasury.EnsureLiquidity | contracts/src/grantTreasury.rs:433-480 | when the need exceeds the available funds, the positions become the walk's kept list and invested falls by the need met; available rises by the whole need, so the balance drift grows by the unmet need, and the invested drift falls by the yield taken |
| GrantTreasury.Treasury.AllocateGrant | contracts/src/grantTreasury.rs:255-296 | admin only, positive amounts only; appends an Approved allocation; writes back the available balance read before raising liquidity, less the grant |
| GrantTreasury.Treasury.WithdrawGrant | contracts/src/grantTreasury.rs:302-343 | fails as `WithdrawRejection` says; otherwise the allocation becomes Disbursed, liquidity is raised if needed, and available is debited by the amount |
| GrantTreasury.Treasury.ClaimYield | contracts/src/grantTreasury.rs:349-411 | admin only; settles every position, logs the records, credits the positive total to available (not to total) and counts the claim |
| GrantTreasury.Treasury.GetAccumulatedYield | contracts/src/grantTreasury.rs:555-567 | the positions' total accumulated yield |
| GrantTreasury.Treasury.ShouldAutoInvest | contracts/src/grantTreasury.rs:574-584 | fails before initialisation; true exactly when available reaches the threshold |
| GrantTreasury.WithdrawGrantScenario | contracts/src/grantTreasury_test.rs:161-182 | deposit 3000, allocate 1000, withdraw: the grant is Disbursed, available is debited twice (ending at -500), and a second withdrawal fails |
| GrantTreasury.GetApy | contracts/src/grantTreasury.rs:569-572 | the fixed rate, 500 basis points, one twentieth of 100% |
| GrantTreasury.PrincipalAppend | contracts/src/grantTreasury.rs:164-176 | opening a position adds its amount to the principal held |
| GrantTreasury.PrincipalUpdate | contracts/src/grantTreasury.rs:223-234 | replacing or removing one position changes the principal held by that position's difference |
| CustomTemplates.ContainsChar | contracts/src/customTemplate.rs:554-557 | a one-character pattern occurs exactly when the character does |
| CustomTemplates.IsValidEmail | contracts/src/customTemplate.rs:554-557 | valid exactly when the text holds an '@' and a '.' |
| CustomTemplates.IsValidUrl | contracts/src/customTemplate.rs:559-561 | valid exactly when the text starts with "http://" or "https://" |
| CustomTemplates.ValidateTemplateStructure | contracts/src/customTemplate.rs:459-490 | accepts exactly a template with a name and a description, unique field ids, and rules that name existing fields |
| CustomTemplates.ValidateDataAgainstTemplate | contracts/src/customTemplate.rs:492-552 | accepts exactly data with every required field present and every present value of the right type and length |
| CustomTemplates.ExtraKeysIgnored | contracts/src/customTemplate.rs:492-552 | a data key that names no field never changes the verdict |
| CustomTemplates.ApplyUpdate | contracts/src/customTemplate.rs:321-360 | each field given as `Some` takes that value, each `None` keeps the old one; id, version, creator, status and timestamps are untouched |
| CustomTemplates.EmptyUpdateIsIdentity | contracts/src/customTemplate.rs:321-360 | an update with every argument `None` changes nothing |
| CustomTemplates.PageLimit | contracts/src/customTemplate.rs:223 | the page size is 50 by default and never above 100 |
| CustomTemplates.SelectionPrefix | contracts/src/customTemplate.rs:226-285 | visiting more templates only extends the selection |
| CustomTemplates.SelectionSound | contracts/src/customTemplate.rs:226-285 | every selected entry is the view of a visited template that passes the filters, and every such template is selected |
| CustomTemplates.AnyTagMatches | contracts/src/customTemplate.rs:246-258 | true exactly when some requested tag is among the template's tags |
| CustomTemplates.TemplateRegistry.constructor | contracts/src/customTemplate.rs:137-143 | empty storage with no counter |
| CustomTemplates.TemplateRegistry.Initialize | contracts/src/customTemplate.rs:137-143 | sets the counter to 0 only once; a second call fails and changes nothing |
| CustomTemplates.TemplateRegistry.CreateTemplate | contracts/src/customTemplate.rs:145-206 | the counter value names a fresh draft with the given fields, added to the creator's list; the counter advances |
| CustomTemplates.TemplateRegistry.GetTemplate | contracts/src/customTemplate.rs:208-212 | the stored template, or nothing |
| CustomTemplates.TemplateRegistry.UserTemplates | contracts/src/customTemplate.rs:442-446 | the creator's ids, or none |
| CustomTemplates.TemplateRegistry.ListTemplates | contracts/src/customTemplate.rs:214-288 | the first page-limit entries of the selection, in visiting order |
| CustomTemplates.TemplateRegistry.UpdateTemplate | contracts/src/customTemplate.rs:290-374 | unknown ids give false; only the creator may update, and only a draft; a successful update applies `ApplyUpdate`, stamps the time and leaves the template a draft; failures change nothing |
| CustomTemplates.TemplateRegistry.SubmitForApproval | contracts/src/customTemplate.rs:376-407 | unknown ids give false; only the creator, only a draft, and only a structurally valid one; it then becomes pending; failures change nothing |
| CustomTemplates.TemplateRegistry.ModerateTemplate | contracts/src/customTemplate.rs:409-440 | unknown ids give false; only a pending template; "approve" approves it, "reject" rejects it, any other decision fails and changes nothing |
| CustomTemplates.TemplateRegistry.ValidateTemplateData | contracts/src/customTemplate.rs:448-457 | false for an unknown template; otherwise the data check against its fields |
| CustomTemplates.ListingProperties | contracts/src/customTemplate.rs:214-288 | at most the page limit; every entry passes the filters; a listing not explicitly non-public holds approved templates only; a short page holds every match |
| ProofVerifier.BuildHashInput | contracts/src/proof_verifier.rs:82-87 | the hash-input loop yields the event data followed by each metadata key and value |
| ProofVerifier.PreimageLayout | contracts/src/proof_verifier.rs:82-87 | the preimage starts with the event data, has its length plus the metadata's, and is the event data alone for empty metadata |
| ProofVerifier.ProofsAtComplete | contracts/src/proof_verifier.rs:305-318 | when every listed id is stored, the lookup returns one proof per id, in order |
| ProofVerifier.ProofRegistry.constructor | contracts/src/proof_verifier.rs:64-72 | empty storage, no admin, counter 0 |
| ProofVerifier.ProofRegistry.InitializeAsWritten | contracts/src/proof_verifier.rs:64-72 | as written: sets the admin once, empties the revoked list and resets the counter to 0 even when proofs were issued before |
| ProofVerifier.ProofRegistry.Initialize | contracts/src/proof_verifier.rs:64-72 | corrected: sets the admin once and empties the revoked list but keeps the counter, so the registry invariant is preserved |
| ProofVerifier.ProofRegistry.IssueProof | contracts/src/proof_verifier.rs:75-112 | the next id, not used before; stores an unverified, unrevoked proof with the digest of its preimage; the new proof is valid |
| ProofVerifier.ProofRegistry.VerifyProof | contracts/src/proof_verifier.rs:115-152 | unknown ids fail; a revoked proof or a digest mismatch gives false and changes nothing; otherwise the proof is marked verified; verifying twice changes nothing more |
| ProofVerifier.ProofRegistry.GetProof | contracts/src/proof_verifier.rs:155-159 | the stored proof, or not found |
| ProofVerifier.ProofRegistry.RevokeProof | contracts/src/proof_verifier.rs:162-199 | needs an admin, a stored proof, the admin or the proof's issuer, and an unrevoked proof; then the proof is revoked and unverified, its id appended to the revoked list, and it is no longer valid |
| ProofVerifier.ProofRegistry.BatchOperations | contracts/src/proof_verifier.rs:202-270 | returns exactly what running the operations in order gives: the results, and the counter, proofs and revoked list after the last operation; a panic anywhere returns that panic and leaves counter, proofs and revoked list as before the batch; one fitting result per operation, the counter grown by the issues and the revoked list by the revocations |
| ProofVerifier.ProofRegistry.ApplyOperation | contracts/src/proof_verifier.rs:208-260 | one operation, by kind: an issue stores the issued proof under the next id and reports it; a verify of a stored id reports true exactly when the proof is unrevoked and its digest intact, and then marks it verified, otherwise nothing changes; a revoke that passes the revoke checks revokes and reports success; malformed and unknown operations change nothing and report their error; a panic (unknown id to verify, failed revoke check) changes nothing |
| ProofVerifier.ProofRegistry.RunOperations | contracts/src/proof_verifier.rs:207-264 | the loop over the operations: its results and final storage are those of the operations applied in order, and the first panic is the loop's panic; one fitting result per operation, with the counter and revoked list grown by all of them |
| ProofVerifier.RunAllStopsAtPanic | contracts/src/proof_verifier.rs:207-264 | once a prefix of a batch panics, the whole batch ends in that panic |
| ProofVerifier.StepAccounting | contracts/src/proof_verifier.rs:208-260 | one operation's result fits it; it issues and revokes exactly what it names; only a verify or revoke with an id panics |
| ProofVerifier.RunAllAccounting | contracts/src/proof_verifier.rs:207-264 | a batch without a panic gives one fitting result per operation, moves the counter by its issues and appends its revocations in order |
| ProofVerifier.ProofRegistry.GetProofsBy | contracts/src/proof_verifier.rs:273-302 | the issuer and subject queries return exactly the matching stored proofs, by ascending id |
| ProofVerifier.ProofRegistry.GetRevokedProofs | contracts/src/proof_verifier.rs:305-318 | one proof per revoked id, in revocation order, each revoked |
| ProofVerifier.ProofRegistry.IsProofValid | contracts/src/proof_verifier.rs:321-339 | unknown ids fail; true exactly for an unrevoked proof whose digest still matches |
| ProofVerifier.ProofRegistry.UpdateAdmin | contracts/src/proof_verifier.rs:352-369 | only the stored admin can hand the role over; nothing else changes |
| ProofVerifier.DuplicateRevocationScenario | contracts/src/proof_verifier.rs:64-72 | with the reset, revoking proof 2 before and after `initialize` lists id 2 twice |
| ProofVerifier.SingleRevocationScenario | contracts/src/proof_verifier.rs:64-72 | with the counter kept, the same calls list id 2 once and keep the registry invariant |
| PolyHash.HashBinary | contracts/src/multiSignature.rs:359-365 | the loop computes the left fold h * 31 + byte, wrapping at 2^64 |
| PolyHash.FoldOfOneByte | contracts/src/multiSignature.rs:359-365 | a single byte hashes to its own value |
| PolyHash.ToBeBytes | contracts/src/zkProofs.rs:207-214 | a word is emitted as exactly eight bytes |
| PolyHash.BeBytesRoundTrip | contracts/src/zkProofs.rs:207-214 | decoding the eight big-endian bytes gives the word back |
| PolyHash.BeBytesInjective | contracts/src/zkProofs.rs:207-214 | two words are equal exactly when their encodings are |
| PolyHash.HashBytes | contracts/src/zkProofs.rs:207-214 | the emitted hash is eight bytes that decode to the fold |
| PolyHash.CombineHashes | contracts/src/multiSignature.rs:347-351 | the XOR loop computes the XOR of the signatures' hashes |
| PolyHash.XorAllAppend | contracts/src/multiSignature.rs:347-351 | XOR-ing the words of two lists together is the XOR of the two lists' results |
| PolyHash.XorOfHashesAppend | contracts/src/multiSignature.rs:347-351 | aggregating two lists is the XOR of aggregating each |
| PolyHash.XorOfHashesOrderAndCancel | contracts/src/multiSignature.rs:347-351 | the aggregate ignores order, and a repeated signature cancels itself |
| MultiSignature.RemoveFirstSpec | contracts/src/multiSignature.rs:68-76 | removing the first occurrence drops exactly that entry and one copy of the signer |
| MultiSignature.RemoveFirstNoDuplicates | contracts/src/multiSignature.rs:68-76 | from a duplicate-free list, removal leaves a duplicate-free list without the signer |
| MultiSignature.FindFirst | contracts/src/multiSignature.rs:68-76 | the search finds the first index holding the signer, or reports it absent |
| MultiSignature.SignaturesForAppend | contracts/src/multiSignature.rs:309-323 | a new signature extends only its own request's list |
| MultiSignature.SignaturesForExact | contracts/src/multiSignature.rs:309-323 | a request's signatures are exactly the collected signatures naming it |
| MultiSignature.GetSignaturesForRequest | contracts/src/multiSignature.rs:309-323 | the loop keeps the signatures of the request, in order |
| MultiSignature.FindSignature | contracts/src/multiSignature.rs:165-169 | true exactly when the signer has already signed the request |
| MultiSignature.SignatureBytes | contracts/src/multiSignature.rs:299-302 | one signature's bytes per collected signature, in order |
| MultiSignature.PendingOfExact | contracts/src/multiSignature.rs:249-263 | the pending list holds exactly the pending requests, by ascending id when ids are positions |
| MultiSignature.PendingOfMembers | contracts/src/multiSignature.rs:249-263 | a request is in the pending list exactly when it is stored and Pending |
| MultiSignature.PendingOfAscending | contracts/src/multiSignature.rs:249-263 | when ids are positions, the pending list's ids are in range and strictly ascending |
| MultiSignature.VerifyAggregatedSignature | contracts/src/multiSignature.rs:338-356 | an empty list fails; otherwise true exactly when the XOR of the signature hashes equals the proof data's hash |
| MultiSignature.AggregateCheckProperties | contracts/src/multiSignature.rs:338-356 | the proof data alone is accepted; the order of signatures does not matter; a repeated pair cancels |
| MultiSignature.MultiSignatureContract.constructor | contracts/src/multiSignature.rs:18-24 | empty storage |
| MultiSignature.MultiSignatureContract.Init | contracts/src/multiSignature.rs:18-24 | sets the owner and quorum and empties every list |
| MultiSignature.MultiSignatureContract.AddSigner | contracts/src/multiSignature.rs:27-50 | owner only; an existing signer is refused; otherwise the signer is appended, so signers stay unique |
| MultiSignature.MultiSignatureContract.RemoveSigner | contracts/src/multiSignature.rs:53-83 | owner only; an absent signer fails; otherwise exactly one entry goes and the signer is no longer listed |
| MultiSignature.MultiSignatureContract.CreateSignatureRequest | contracts/src/multiSignature.rs:86-124 | signers only; the new Pending request takes the next id and the stored quorum (2 by default) |
| MultiSignature.MultiSignatureContract.SignRequest | contracts/src/multiSignature.rs:127-192 | fails, changing nothing, on the first of: not a signer, unknown request, not pending, expired, already signed; otherwise appends exactly one signature, and the request becomes Completed once its signatures reach the quorum |
| MultiSignature.SignKeepsConsistent | contracts/src/multiSignature.rs:127-192 | recording a signature from a signer who has not signed that request keeps the contract invariant, with the request completed once it reaches its quorum |
| MultiSignature.MultiSignatureContract.VerifyMultiSignature | contracts/src/multiSignature.rs:281-306 | unknown requests fail; too few signatures give false; otherwise the aggregate check |
| MultiSignature.MultiSignatureContract.CompletedCheck | contracts/src/multiSignature.rs:281-306 | for a Completed request the quorum test passes and the verdict is the aggregate check alone |
| MultiSignature.MultiSignatureContract.ExecuteRequest | contracts/src/multiSignature.rs:195-224 | unknown and not-Completed requests fail; a Completed request becomes Executed and returns its proof data exactly when the multi-signature check says true; otherwise nothing changes |
| MultiSignature.MultiSignatureContract.GetRequestInfo | contracts/src/multiSignature.rs:227-246 | unknown requests fail; otherwise the request, the signers, the signatures naming it in the order they were given, and whether they reach its quorum |
| MultiSignature.MultiSignatureContract.GetPendingRequests | contracts/src/multiSignature.rs:249-263 | exactly the pending requests, in ascending id order |
| MultiSignature.MultiSignatureContract.UpdateRequiredSignatures | contracts/src/multiSignature.rs:266-278 | owner only; sets the quorum for later requests only |
| PrivacyVerification.IsAllowedViewer | contracts/src/privacyVerification.rs:77-99 | true exactly when the requester is among the viewers |
| PrivacyVerification.VisibilityAllows | contracts/src/privacyVerification.rs:58-73 | public lets everybody view, shared lets the listed viewers view, private and unknown levels let nobody view |
| PrivacyVerification.VerifyZkProof | contracts/src/privacyVerification.rs:141-161 | true exactly when the public inputs match and the proof and key are non-empty |
| PrivacyVerification.ZkProofInternal | contracts/src/privacyVerification.rs:164-177 | true exactly when the proof and key are both non-empty |
| PrivacyVerification.MinimizedKeys | contracts/src/privacyVerification.rs:312-348 | the essential fields always, and the hash exactly for a public proof or an allowed viewer |
| PrivacyVerification.ApplyDataMinimization | contracts/src/privacyVerification.rs:312-348 | with minimisation off the data is returned whole; otherwise exactly the present minimised keys, values unchanged |
| PrivacyVerification.PrivacyVerificationContract.constructor | contracts/src/privacyVerification.rs:44-46 | no settings and no consents |
| PrivacyVerification.PrivacyVerificationContract.GetPrivacySettings | contracts/src/privacyVerification.rs:253-266 | the stored settings, or the private defaults |
| PrivacyVerification.PrivacyVerificationContract.SetPrivacySettings | contracts/src/privacyVerification.rs:269-285 | replaces one proof's settings and nothing else |
| PrivacyVerification.PrivacyVerificationContract.VerifyPrivacy | contracts/src/privacyVerification.rs:49-74 | true exactly when the settings let the requester view; false for a proof with no settings |
| PrivacyVerification.PrivacyVerificationContract.VerifySelectiveDisclosure | contracts/src/privacyVerification.rs:102-138 | true exactly when the requester may view and the disclosed keys are exactly the policy's fields |
| PrivacyVerification.PrivacyVerificationContract.CheckConsent | contracts/src/privacyVerification.rs:180-211 | true exactly when a consent record exists and covers every requested action |
| PrivacyVerification.PrivacyVerificationContract.GrantConsent | contracts/src/privacyVerification.rs:214-231 | records the proof's consented actions and nothing else |
| PrivacyVerification.PrivacyVerificationContract.RevokeConsent | contracts/src/privacyVerification.rs:234-250 | drops the proof's consent record and nothing else |
| PrivacyVerification.ConsentAfterGrantAndRevoke | contracts/src/privacyVerification.rs:180-250 | after a grant, any request within the grant is consented; after a revocation there is no record |
| PrivacyVerification.MinimizedKeysBound | contracts/src/privacyVerification.rs:312-348 | a minimised view holds at most the four essential fields and the hash |
| ZkProofs.SnarkCheck | contracts/src/zkProofs.rs:185-204 | proofs under 32 bytes are malformed; otherwise true exactly when the proof's hash equals the commitment's |
| ZkProofs.HashBinaryBytes | contracts/src/zkProofs.rs:207-214 | the loop's hash, as eight big-endian bytes |
| ZkProofs.VerifyZkSnark | contracts/src/zkProofs.rs:185-204 | the snark check above |
| ZkProofs.BatchVerifyZkProofs | contracts/src/zkProofs.rs:105-130 | a length mismatch fails; a malformed proof anywhere fails; otherwise one verdict per proof against the one-byte commitment of its position |
| ZkProofs.ZkProofContract.constructor | contracts/src/zkProofs.rs:17-22 | empty storage |
| ZkProofs.ZkProofContract.Init | contracts/src/zkProofs.rs:17-22 | sets the owner and empties the three per-proof lists |
| ZkProofs.ZkProofContract.CreateZkProof | contracts/src/zkProofs.rs:25-66 | owner only; appends one entry to each list |
| ZkProofs.ZkProofContract.VerifyZkProof | contracts/src/zkProofs.rs:69-102 | unknown ids fail; otherwise the snark check against the stored commitment; a match is logged under "verified_proof" |
| ZkProofs.ZkProofContract.GetProofInfo | contracts/src/zkProofs.rs:133-153 | unknown ids fail; the flag reads the "verified_proofs" list; the type is the stored one |
| ZkProofs.ZkProofContract.UpdateProofType | contracts/src/zkProofs.rs:156-182 | owner only and in range only; changes that one entry |
| ZkProofs.VerificationLeavesFlag | contracts/src/zkProofs.rs:90-99 | a successful verification does not change the flag `get_proof_info` reports |
| Verinode.VerinodeContract.constructor | contracts/src/lib.rs:49-56 | empty storage, counter 0 |
| Verinode.VerinodeContract.InitializeAsWritten | contracts/src/lib.rs:49-56 | as written: sets the admin once and resets the counter to 0 |
| Verinode.VerinodeContract.Initialize | contracts/src/lib.rs:49-56 | corrected: sets the admin once and keeps the counter, preserving the invariant |
| Verinode.VerinodeContract.IssueProof | contracts/src/lib.rs:59-83 | the next id, not used before; an unverified proof stored under it |
| Verinode.VerinodeContract.VerifyProof | contracts/src/lib.rs:86-105 | needs an admin, the caller to be it, and a stored proof; then marks it verified |
| Verinode.VerinodeContract.GetProof | contracts/src/lib.rs:108-112 | the stored proof, or not found |
| Verinode.VerinodeContract.GetProofsByIssuer | contracts/src/lib.rs:115-128 | exactly the issuer's stored proofs, by ascending id |
| Verinode.LostProofScenario | contracts/src/lib.rs:49-56 | with the reset, the first issuer's proof is overwritten and their query comes back empty |
| Verinode.KeptProofScenario | contracts/src/lib.rs:49-56 | with the counter kept, both proofs survive and the first issuer's query returns their proof |
| VersionHistory.VersionIn | lib.rs:58-65 | nothing for version 0 or past the end; otherwise an entry of the history carrying that number |
| VersionHistory.VersionNumbersUnique | lib.rs:22-65 | in a numbered history a version number names one entry, which the lookup returns |
| VersionHistory.VersionStore.constructor | lib.rs:22-50 | no histories |
| VersionHistory.VersionStore.GetHistory | lib.rs:53-55 | the stored history, or empty; it is numbered 1, 2, 3, ... |
| VersionHistory.VersionStore.AddVersion | lib.rs:22-50 | appends one entry numbered one past the length and returns the number; the new version can be read back; earlier versions and other proofs are untouched |
| VersionHistory.VersionStore.GetVersion | lib.rs:58-65 | nothing for version 0 or past the end; otherwise the entry with that version number |

## Left out

- Integer widths are not modelled: i128 balances, u64 and u32 counters, and casts such as
  `requests.len() as u32` are unbounded integers. Overflow panics and wrap-arounds of those
  counters are therefore absent. The polynomial hash is the exception: it wraps at 2^64
  exactly, as `bv64`.
- SHA-256 is a function given to the proof registry when it is built. It is not computed.
- Events, logs, `require_auth` and the `reason` and `rejection_reason` texts are left out.
  Caller identity is a parameter.
- Plain getters are direct field reads and have no member. These are `get_admin`,
  `get_proof_count`, the treasury's balance, position, allocation, history and config
  getters, and `total_balance`.
- The Python machine-learning code under `ml/` is not part of this model.
- PrivacyVerification.PrivacyVerificationContract.GrantConsent: consent and settings are keyed
  by the proof id alone.
  - The key builders at contracts/src/privacyVerification.rs:288-310 copy 32 bytes into a
    30-byte window, so as written they would panic.
  - The model keeps their evident purpose of one record per proof. The granter and grantee
    do not enter the key.
- The multi-signature and zero-knowledge contracts do not compile as written. Where the model
  follows their evident intent:
  - the updated request status is stored (multiSignature.rs:149, 186);
  - `verify_zk_proof` propagates an error of `verify_zk_snark`;
  - the verified id is pushed and stored (zkProofs.rs:93-97).
- Their `__init` is unguarded: a second call resets the contract.
- An absent owner is a fresh address, so the caller check fails (Unauthorized).
- CustomTemplates.TemplateRegistry.ListTemplates: the host map's iteration order is a
  parameter (`keys`, visiting each stored template once), not a model of Soroban's ordering
  of the `tpl_n` strings.
- String lengths are counted in characters.
- The template's `layout` (sections and theme) is not modelled. No operation reads it, and
  `update_template` only overwrites it.
- A template field drops its `description`, `default_value`,
  `placeholder`, `options`, `min_value`, `max_value` and `help_text`
  (contracts/src/customTemplate.rs:14-25): no operation reads them.
- A validation rule likewise drops its `description` and `parameters`
  (contracts/src/customTemplate.rs:36-41), which no operation reads.
- CustomTemplates.TemplateRegistry.ModerateTemplate: any caller may moderate. The source
  has no identity check.
- ProofVerifier.BuildHashInput: metadata is a sequence in the host map's iteration order.
  Each key contributes the bytes of its symbol text.
- GrantTreasury.Treasury.Deposit: the auto-invest's panic undoes the deposit, as a reverted
  transaction does. The model writes the rollback out.
- GrantTreasury.Treasury.DivestFunds: the ledger clock never runs backwards. Positions whose
  last claim lies after `now` are excluded by a precondition, because `current_time -
  last_yield_claim` would underflow.

## Findings

| source | as written | input that shows it | evidently intended | confidence | as-written member | corrected member |
|---|---|---|---|---|---|---|
| contracts/src/proof_verifier.rs:70 | `initialize` sets the proof counter to 0 even after proofs were issued | issue two proofs, initialize, revoke proof 2, issue two more (overwriting ids 1 and 2), revoke proof 2 again: the revoked list holds 2 twice | initialize sets the admin and leaves the counter, so ids are never reused | high (not executed) | ProofVerifier.DuplicateRevocationScenario | ProofVerifier.SingleRevocationScenario |
| contracts/src/lib.rs:55 | `initialize` sets the proof counter to 0 even after proofs were issued | issue a proof, initialize, issue another: the second overwrites id 1 and the first issuer's query is empty | initialize sets the admin and leaves the counter | high (not executed) | Verinode.LostProofScenario | Verinode.KeptProofScenario |
