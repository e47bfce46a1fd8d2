# Attested unseal: a verified model

This project models the parts of the attested-unseal broker and its tools whose
correctness spans several operations, and proves what they promise over every
input, every run and every interleaving.

- **Recovery packages.** A wrapping key is split over GF(2^8) (the field of
  section 4.2 of FIPS 197) into up to 255 shares. `Gf256`, `Interpolation` and
  `Recovery` prove the hand-written arithmetic against polynomial products,
  that any threshold of distinct shares gives the key back, and that one share
  less is consistent with every key, through exactly one draw each.
- **Key rotation.** `KeyTables`, `KeyTransactions` and `KeyStore` model the
  tables, their constraints and the transactions statement by statement.
  `CommandRuns` interleaves the rotation commands call by call. `Keyring`,
  `KeyProtection` and `WrapRuns` show that a blob encrypted at any moment
  decrypts at every later one.
- **Node evidence.** `EvidenceStore` holds node trust and evidence,
  `EvidenceRuns` the publication protocol with its two separate enrollment
  reads, `Publications` exactly what it stores and why, and `Pcrs` and
  `TpmPolicy` the quote and policy checks.
- **Policy decisions.** `Challenges` and `GrantRuns` cover single use,
  `Workloads` the two evidence verifiers, `PolicyRuns` whole runs of wrap and
  unwrap requests against all of the above at once, `Justifications` the steps
  of the run behind every allowed one, and `InFlight` two runs in which a
  revocation comes too late for a request under way.

A run is a sequence of events of any length. One event is one database
transaction or one statement outside a transaction, so anything may happen
between two calls of the same client. Histories that the program does not store
(what was enrolled under a revision, which key a client protected for which
reference, at which step something was read) are ordinary fields of the model's
state; no guard reads them.

Specification functions (`Apply`, `Enrolled`, `Judge`, ...) say what a call does;
beside the main ones a lemma says the same without them, table by table or field by
field (`RevokeSubjectWrites`, `EnrolledWrites`, `DigestLayout`, ...).

Times and durations are nanoseconds. The AEAD (interface as in section 2 of
RFC 5116), SHA hashes, signature checks and the decoding of quotes and evidence
are arbitrary functions; where a result needs an equation of them it is a named
premise (`SoundAead`, `SizedHashes`). Randomness and clocks are parameters.

`dafny verify dfyconfig.toml` checks the whole project.

## Model

| member | source | states |
|---|---|---|
| Gf256.GfMul | internal/recovery/package.go:326-340 | the shift-and-add loop computes the field product `Mul` |
| Gf256.MulIsReducedProduct | internal/recovery/package.go:326-340 | a byte is the product if and only if it is the remainder of the carry-less polynomial product modulo x^8+x^4+x^3+x+1 |
| Gf256.MulAssociates | internal/recovery/package.go:326-340 | the product is associative |
| Gf256.MulCommutes | internal/recovery/package.go:326-340 | the product is commutative |
| Gf256.MulAddRight | internal/recovery/package.go:326-340 | the product distributes over xor |
| Gf256.InverseLaw | internal/recovery/package.go:342-359 | every non-zero byte times its 254th power is 1 |
| Gf256.NoZeroDivisors | internal/recovery/package.go:326-340 | a product is zero only if a factor is |
| Gf256.GfPow | internal/recovery/package.go:342-352 | square-and-multiply equals the iterated product for every positive power and yields 1 otherwise |
| Gf256.GfDiv | internal/recovery/package.go:354-359 | refuses exactly a zero divisor; otherwise the quotient times the divisor is the dividend |
| Interpolation.EvalPolynomial | internal/recovery/package.go:318-324 | Horner's loop evaluates the polynomial |
| Interpolation.EvalAppend | internal/recovery/package.go:318-324 | one more coefficient adds that coefficient times the power of the argument: Horner's value is the sum of powers |
| Interpolation.CombineRecovers | internal/recovery/package.go:278-316 | the Lagrange sum at zero over any distinct non-zero points, at least as many as coefficients, gives the value of the polynomial at zero |
| Interpolation.BasisUnity | internal/recovery/package.go:278-316 | the Lagrange weights at zero add up to one |
| Interpolation.TooManyRoots | internal/recovery/package.go:318-324 | a polynomial with as many distinct roots as coefficients is zero |
| Interpolation.InterpolationUnique | internal/recovery/package.go:318-324 | two polynomials of one length that agree on that many points are equal |
| Interpolation.InterpolateHits | internal/recovery/package.go:318-324 | through any distinct points there is a polynomial with one coefficient per point |
| Recovery.SplitSecret | internal/recovery/package.go:258-276 | the nested loops issue exactly n points, indexes 1 to n in order, each holding for every secret byte the value of that byte's polynomial there; fails exactly when the stream runs out |
| Recovery.DrawRows | internal/recovery/package.go:258-268 | the polynomial of secret byte o is that byte followed by the o-th block of threshold - 1 bytes of the random stream |
| Recovery.CombineShares | internal/recovery/package.go:278-316 | refuses an empty, ragged, zero or repeated index list and otherwise returns the Lagrange combination of every column |
| Recovery.CombineRefuses | internal/recovery/package.go:278-296 | combining fails exactly on an empty list, a zero or repeated index or values of different lengths |
| Recovery.CheckPoints | internal/recovery/package.go:282-296 | accepts exactly the lists that can be combined |
| Recovery.CombineColumn | internal/recovery/package.go:297-314 | one byte of the secret is the Lagrange sum of its column |
| Recovery.BasisValue | internal/recovery/package.go:299-310 | the inner loop computes the Lagrange weight of one point |
| Recovery.Create | internal/recovery/package.go:62-105 | the loops build the package that `CreateSucceedsIff` and `CreateIssues` describe |
| Recovery.CreateSucceedsIff | internal/recovery/package.go:62-105 | a package is created if and only if the names are identifiers, the secret is not empty, 1 <= threshold <= shares <= 255 and the stream holds length times (threshold - 1) bytes |
| Recovery.CreateIssues | internal/recovery/package.go:62-105 | the package holds as many shares as asked for, the k-th with index k and the value at k of each byte's own polynomial; the metadata repeats names, threshold and count and carries the checksum of the secret |
| Recovery.Recover | internal/recovery/package.go:108-152 | validates metadata and shares, uses the first threshold of them, and checks the checksum |
| Recovery.RecoverRefuses | internal/recovery/package.go:108-152 | unreadable metadata, too few shares, and a share that is foreign, out of range, undecodable or repeated are each refused with their own error; what is returned has the recorded checksum |
| Recovery.OpenShares | internal/recovery/package.go:115-142 | the scan over presented shares accepts them exactly when each is acceptable and no index repeats |
| Recovery.AnyEnoughPointsCombine | internal/recovery/package.go:258-316 | for every secret, threshold, draw and list of at least threshold distinct issued points in any order, combining gives the secret; supersets give the same bytes |
| Recovery.RecoverInvertsCreate | internal/recovery/package.go:62-152 | from any list of at least threshold distinct issued shares in any order, a created package recovers exactly the secret if its creation time reads back from its text (years 0 to 9999), and is refused as invalid otherwise |
| Recovery.DrawNeeds | internal/recovery/package.go:258-268 | splitting needs exactly length times (threshold - 1) random bytes and uses no more |
| Recovery.EverySecretExplains | internal/recovery/package.go:258-276 | given threshold - 1 share values at distinct non-zero indexes, every candidate secret has a draw that yields them |
| Recovery.OneExplanation | internal/recovery/package.go:258-276 | and only one such draw |
| Recovery.TooFewSharesRevealNothing | internal/recovery/package.go:258-276 | both together: each candidate secret is explained by exactly one draw |
| KeyRefs.ParseAccepts | internal/keyring/key.go:90-111 | a label parses to a reference if and only if it is that reference's label with leading zeros added to the version |
| KeyRefs.ParseInvertsLabel | internal/keyring/key.go:71-111 | parsing undoes printing on every valid reference |
| KeyRefs.LabelInjective | internal/keyring/key.go:85-88 | different valid references have different labels |
| KeyRefs.Canonicalises | internal/keyring/key.go:85-111 | printing what was parsed drops the leading zeros, and doing so again changes nothing |
| KeyRefs.DecimalDigits | internal/keyring/key.go:85-88 | decimal text digit by digit, without leading zeros |
| Identifiers.IdentifierGrammar | internal/keyring/key.go:29 | identifiers are 1 to 128 letters, digits, dots, underscores and dashes that start with a letter or digit |
| Keyring.NewRing | internal/keyring/ring.go:14-38 | accepts exactly the lists of valid versions without a repeated reference and with one active version, and keeps their order |
| Keyring.FirstActiveFinds | internal/keyring/ring.go:41-51 | the search finds the one active version |
| Keyring.KeyForDecryptFinds | internal/keyring/ring.go:53-66 | the search finds a decrypting version by its reference |
| Keyring.DecryptInvertsEncrypt | internal/keyring/wrap.go:15-73 | a blob of one ring opens, with the same caller data, under any ring that holds the encrypting key in a decrypting status, and its label names that key; status is not authenticated |
| Keyring.EncryptSeals | internal/keyring/wrap.go:15-45 | the ciphertext is the seal under the active key's material, the nonce and the plaintext, with schema, purpose, reference, algorithm and policy of the key and the caller's data authenticated |
| Keyring.DecryptOpens | internal/keyring/wrap.go:48-73 | a well-formed blob of a decrypting version opens to what the AEAD opens it to with exactly that data, and fails where the AEAD fails |
| Keyring.DecryptRefuses | internal/keyring/wrap.go:48-97 | a malformed blob, an unknown key and one that does not decrypt are refused, each with its error |
| Keyring.WireTrip | internal/broker/service.go:554-588 | blob to wire and back is the identity exactly on canonical labels and never changes what a blob decrypts to |
| KeyProtection.ProtectionInverse | internal/keyprotection/development.go:21-71 | protecting and opening are inverse to each other; a record opens exactly when it is valid, of this profile and format, with a key of full size |
| KeyProtection.ProtectWrites | internal/keyprotection/development.go:21-44 | the record carries the version's reference, status, algorithm and policy, and its material under the development profile and format |
| KeyProtection.LoadKeyring | internal/keyprotection/protection.go:111-136 | loads exactly when every record opens and the versions form a valid ring, and returns the versions in record order |
| KeyTransactions.WithSubjects | internal/broker/sqlite.go:424-434 | the named subjects are all there afterwards and none that was there has changed |
| KeyTransactions.BootstrapWrites | internal/broker/sqlite.go:277-360 | the condition, and every table after a bootstrap: one cluster, keyring, active key, policy and package added, nothing else touched |
| KeyTransactions.ConfigureWrites | internal/broker/sqlite.go:363-451 | the condition, and every table after development seeding: what is missing added, every row that was there unchanged |
| KeyTransactions.StartWrites | internal/broker/sqlite.go:728-809 | the condition, and every table after a start: one pending key and one started operation added |
| KeyTransactions.ActivateWrites | internal/broker/sqlite.go:812-882 | every table after an activation: source decrypt-only, target active, operation activated at this time, all other rows unchanged |
| KeyTransactions.RecordWrites | internal/broker/sqlite.go:890-936 | one verification set with its detail and time, and nothing else |
| KeyTransactions.AddSubjectWrites | internal/broker/sqlite.go:564-576 | one missing subject of a known cluster added unrevoked, and nothing else |
| KeyTransactions.RevokeSubjectWrites | internal/broker/sqlite.go:579-598 | exactly the named subject of the named cluster becomes revoked; every other subject keeps its value, none is added, and all other tables stay |
| KeyTransactions.ApplyKeepsInv | internal/broker/sqlite.go:277-936 | every transaction keeps the invariant of the tables: references, valid rows, distinct rotation targets and the shape of every keyring |
| KeyTransactions.ReachableKeyring | internal/broker/sqlite.go:277-882 | in every reachable store a keyring's versions are exactly 1 to top, one active, all below decrypt-only, and one pending above it exactly while one operation is started, which is the only one and moves from the active version to the top |
| KeyTransactions.ActivationFits | internal/broker/sqlite.go:812-868 | a started operation finds its source active and its target, the next version, pending |
| KeyTransactions.ReactivationIsIdle | internal/broker/sqlite.go:828-836 | after an activation and any further run, activating again changes nothing |
| KeyTransactions.RunLater | internal/broker/sqlite.go:277-936 | no run deletes a key, changes more than its status or makes it undecryptable, changes an activated operation, drops a verification or restores a revoked subject |
| KeyTransactions.StaleProposal | internal/broker/sqlite.go:728-809 | once a key for a version has started, every other key protected for that version is refused after any run, with the state unchanged |
| KeyStore.SqliteStore.BootstrapKeyring | internal/broker/sqlite.go:277-360 | the five inserts succeed exactly for an active first version of a new cluster with a new package, else nothing changes; which error |
| KeyStore.SqliteStore.ConfigureDevelopment | internal/broker/sqlite.go:363-451 | seeds what is missing and leaves an existing keyring and existing subjects as they are |
| KeyStore.SeedKeyring | internal/broker/sqlite.go:378-423 | each ignored insert is skipped exactly where its row or an active key is there already |
| KeyStore.SeedSubjects | internal/broker/sqlite.go:424-434 | the loop adds missing subjects unrevoked and touches no other |
| KeyStore.SqliteStore.NextRotationVersions | internal/broker/sqlite.go:1789-1829 | returns the active version and the one after the highest; unusable exactly without a keyring, invalid exactly when the keyring is full |
| KeyStore.SqliteStore.NextRotationKeyRef | internal/broker/sqlite.go:706-725 | proposes the next reference, which is free; it can be started exactly while no rotation is under way |
| KeyStore.SqliteStore.StartRotation | internal/broker/sqlite.go:728-809 | starts exactly when no rotation is under way, the key is for the next version and the operation is new; otherwise nothing changes, and which error; a missing time is the clock's |
| KeyStore.SqliteStore.ActivateRotation | internal/broker/sqlite.go:812-882 | fails only for a missing operation: no status move and no index check ever fails between the statements; afterwards the operation is activated; a missing time is the clock's |
| KeyStore.SqliteStore.RecordRotationVerification | internal/broker/sqlite.go:890-936 | records or refreshes a supported verification with a detail of an existing operation, and which refusal; a missing time is the clock's |
| KeyStore.SqliteStore.InsertSubject | internal/broker/sqlite.go:564-576 | adds exactly this subject, unrevoked, and only where it is missing |
| KeyStore.SqliteStore.RevokeSubject | internal/broker/sqlite.go:579-598 | revokes exactly the named subject, leaves every other subject and all other tables as they were, and reports a missing one |
| CommandRuns.AfterKeepsGood | internal/baounsealctl/command.go:693-1132 | every step of every client keeps the invariant, including that what a waiting client has read still holds |
| CommandRuns.EachVersionHasOneOperation | internal/baounsealctl/command.go:693-735 | in every interleaving each version after the first belongs to exactly one operation and holds the payload that operation's client protected for exactly that version |
| CommandRuns.RestartNeedsRoot | internal/baounsealctl/command.go:880-1132 | in every interleaving a restart verification comes with a root verification, and that with an activated operation |
| CommandRuns.UndisturbedStart | internal/baounsealctl/command.go:693-735 | a start that nothing disturbs adds the next version and its operation when no rotation is under way, else nothing |
| CommandRuns.UndisturbedActivation | internal/baounsealctl/command.go:737-782 | an activation that nothing disturbs moves exactly the two keys of a started operation and marks it, and changes nothing otherwise |
| CommandRuns.UndisturbedRoot | internal/baounsealctl/command.go:880-963 | a root verification that nothing disturbs is recorded exactly for an activated operation |
| CommandRuns.UndisturbedRestart | internal/baounsealctl/command.go:1053-1132 | a restart verification that nothing disturbs is recorded exactly for an activated operation with a root verification |
| CommandRuns.RunLater | internal/baounsealctl/command.go:693-1132 | no interleaving of commands undoes anything that `KeyTransactions.RunLater` protects |
| WrapRuns.LoadsIff | internal/keyprotection/protection.go:111-136 | a cluster's keyring loads if and only if the cluster has a single key identifier and every row opens |
| WrapRuns.StartLoadsIff | internal/broker/sqlite.go:728-809 | starting a rotation keeps the keyring loadable if and only if the new key opens |
| WrapRuns.BlobSurvives | internal/broker/service.go:186-255 | what the keyring loaded at one moment encrypts, the keyring loaded at any later moment decrypts, and the label names the version active at the load, whatever was read before it |
| WrapRuns.ActiveNeverDrops | internal/broker/service.go:186-231 | the active version only moves up, so a version checked before the load is at most the one that encrypts |
| WrapRuns.CommandsKeepBlobs | internal/broker/service.go:186-255 | under the commands, with one key identifier, the keyring loads at every moment and every blob decrypts ever after, through any number of rotations |
| Challenges.OperationNameInjective | internal/broker/sqlite.go:994-1045 | comparing stored operation names compares operations, unknown numbers included |
| Challenges.MemoryChallengeStore.CreateChallenge | internal/broker/memory_challenge.go:30-46 | stores a new challenge unused, and refuses a blank id, an empty nonce or a known id |
| Challenges.MemoryChallengeStore.ChallengeNonce | internal/broker/memory_challenge.go:49-68 | returns the nonce exactly on a challenge that exists, matches, is unused and unexpired, with the errors in this order |
| Challenges.MemoryChallengeStore.ConsumeChallenge | internal/broker/memory_challenge.go:71-91 | the same verdict; on success no claim on this challenge is ever good again, and no other claim's verdict changes |
| Challenges.SqliteChallenges.CreateChallenge | internal/broker/sqlite.go:983-1001 | inserts exactly under a new id, a new nonce and a known cluster, and then stands for the memory store with the challenge added |
| Challenges.SqliteChallenges.ChallengeNonce | internal/broker/sqlite.go:1003-1045 | the table gives the verdict of the memory store it stands for, errors included |
| Challenges.SqliteChallenges.ConsumeChallenge | internal/broker/sqlite.go:1047-1113 | the table gives the verdict of the memory store it stands for and afterwards stands for what that store becomes; on success no claim on this challenge is ever good again |
| Challenges.SameVerdict | internal/broker/memory_challenge.go:49-117 | on stores that agree, both give the same verdict and still agree after consuming |
| Challenges.StoresAnswerAlike | internal/broker/sqlite.go:983-1113 | both stores give the same answers, errors included, to every sequence of reads and consumes over the same successfully created challenges |
| GrantRuns.GrantsAreSingleUse | internal/broker/sqlite.go:662-703 | in every interleaving of reads and guarded updates a grant is consumed at most once, before it expires, and exactly when its row says so |
| GrantRuns.UndisturbedGrant | internal/broker/sqlite.go:662-703 | issued, read and marked undisturbed, a grant is consumed exactly when the clock is before its expiry, and no other grant changes |
| GrantRuns.SpentGrantStays | internal/broker/sqlite.go:662-703 | a consumed, expired or unknown grant is refused at the read, and marking after that changes no grant |
| Hex.DecodeInvertsEncode | internal/tpm/pcr.go:170-188 | decoding undoes hexadecimal encoding |
| Hex.EncodeDigits | internal/tpm/pcr.go:170-172 | each byte is written as its two lower-case digits, high one first |
| Pcrs.Normalize | internal/tpm/pcr.go:39-61 | refuses exactly an unknown bank, an empty list, an index out of range or a repeated index; otherwise strictly increasing with the same bank and set |
| Pcrs.NormalFormIsUnique | internal/tpm/pcr.go:39-61 | the normal form depends on bank and set only and normalizing again changes nothing |
| Pcrs.ComputeDigest | internal/tpm/pcr.go:110-136 | hashes the input that `DigestLayout` describes; fails exactly when the selection is unusable or a value is missing or of the wrong size |
| Pcrs.DigestLayout | internal/tpm/pcr.go:110-136 | the hashed input is as long as all selected values together, and each index's value stands behind those of exactly the smaller selected indexes |
| Pcrs.DigestOfSet | internal/tpm/pcr.go:110-136 | the digest depends on bank, set and selected values only, not on the listed order |
| TpmPolicy.ParseInvertsText | internal/tpm/pcr.go:170-188 | parsing undoes the text form of a digest |
| TpmPolicy.DigestTexts | internal/tpm/pcr.go:170-188 | a text parses to a digest if and only if in lower case it is the bank, a colon and the digits of the digest |
| TpmPolicy.PolicyIs | internal/tpm/policy.go:76-130 | the policies that validate, field by field: mode, key hash, and under secure boot the profile, PCR 7 and a digest of the selection's bank and size |
| TpmPolicy.VerifiesIffGenuine | internal/tpm/quote.go:152-288 | quote verification accepts exactly the genuine evidence, and reports its key, its set in normal form and the digest over its values |
| TpmPolicy.AcceptedIff | internal/tpm/policy.go:38-141 | a quote is accepted if and only if the policy is valid, the quote genuine for this nonce, the enrolled key and, under secure boot, the enrolled bank, set and digest are the quote's, and the policy can be met |
| TpmPolicy.AcceptedClaims | internal/tpm/policy.go:38-74 | what acceptance reports: fingerprints of the quote's key and nonce, its set in order, its digest, and secure boot exactly under that mode |
| TpmPolicy.GenuineAcceptedIff | internal/tpm/policy.go:38-141 | of the genuine quotes it describes once its texts are decoded, a valid policy accepts all if it can be met (mode unpadded, digests in lower case, selection in order) and none otherwise |
| TpmPolicy.UnmeetableIsNeverMet | internal/tpm/policy.go:38-141 | a policy with a padded mode, a digest text that is not canonical or a selection out of order refuses every quote |
| TpmPolicy.ValidButUnmeetable | internal/tpm/policy.go:76-141 | four witnesses with any enrolled key pass validation and cannot be met: selection out of order, upper-case PCR digest, upper-case key hash, padded mode |
| TpmPolicy.NewPolicyAccepts | internal/tpm/pcr.go:92-107 | a policy made from observed values accepts every genuine quote over the same set and values in any listed order |
| EvidenceTtl.CeilingSeconds | internal/brokeradmin/node_evidence.go:127-133 | the least whole number of seconds that covers the duration |
| EvidenceTtl.AcceptedLifetime | internal/broker/admin.go:722-777 | a duration is rejected exactly above a year; otherwise the lifetime is the smaller of the duration in whole seconds and the limit, five minutes unless configured, and in Unix seconds expiry comes after collection at every clock value exactly when the limit is at least a second |
| EvidenceTtl.WholeSecondLimit | internal/broker/admin.go:355-356 | under a limit of whole seconds the record in Unix seconds lives exactly as long as was accepted, at least a second, at every clock value |
| EvidenceTtl.TruncationKeepsOrderIff | internal/broker/admin.go:799-815 | truncated to Unix seconds, expiry stays after collection at every clock value if and only if the lifetime is at least a second |
| EvidenceStore.CanonicalIff | internal/nodeevidence/enrollment.go:196-210 | the canonical digests are exactly the lower-case texts of 32 bytes |
| EvidenceStore.NormalizeRequest | internal/nodeevidence/enrollment.go:73-133 | accepts exactly the valid trust requests and returns trimmed names and the set of certificates |
| EvidenceStore.EnrolledWrites | internal/broker/sqlite.go:1116-1219 | exactly one node's row and certificates are set, under the next revision, and its evidence dropped; other nodes keep rows, certificates and evidence |
| EvidenceStore.RevokedWrites | internal/broker/sqlite.go:1222-1292 | exactly one active row is revoked under the next revision and its evidence dropped; certificates and all other nodes stay |
| EvidenceStore.PutEnrolledWrites | internal/broker/sqlite.go:1387-1434 | TPM evidence goes in if and only if it is well formed and the enrollment is active at this revision, UID and provider; one row changes |
| EvidenceStore.PutWrites | internal/broker/sqlite.go:1437-1449 | other evidence goes in if and only if it is well formed, of a known cluster and not TPM evidence; one row changes |
| EvidenceStore.FreshReads | internal/nodeevidence/evidence.go:138-161 | a read finds the row of exactly this node unless it has expired by the clock, and tells missing from stale |
| EvidenceStore.MemoryRepository.PutNodeEvidence | internal/nodeevidence/evidence.go:123-135 | stores a normalized record under its own node, or nothing |
| EvidenceStore.MemoryRepository.PruneNodeEvidence | internal/nodeevidence/evidence.go:209-231 | one pass equals the filter that drops the cluster's records expired before the cutoff, a missing cutoff being the clock; the count is the exact drop in size |
| EvidenceStore.SqliteEvidence.EnrollNodeEvidence | internal/broker/sqlite.go:1116-1219 | installs new trust under the next revision, replaces the certificates and drops the node's evidence, or changes nothing |
| EvidenceStore.SqliteEvidence.RevokeNodeEvidence | internal/broker/sqlite.go:1222-1292 | revokes an active enrollment under the next revision and drops the node's evidence, whatever is reported; reports success exactly when it did and the clock is not behind the enrollment; other errors change nothing |
| EvidenceStore.RevocationReportsIff | internal/broker/sqlite.go:1256-1291 | a revocation takes effect whatever it reports and reports an error exactly when its time is before the enrollment's |
| EvidenceStore.RevokedByAnEarlierClock | internal/nodeevidence/enrollment.go:155-160 | every fresh enrollment revoked by a clock set back is revoked with an error reported |
| EvidenceStore.SqliteEvidence.PutEnrolledNodeEvidence | internal/broker/sqlite.go:1387-1434 | stores only under the still active revision with the same UID and provider |
| EvidenceStore.SqliteEvidence.PutNodeEvidence | internal/broker/sqlite.go:1437-1449 | stores other evidence without a revision and refuses TPM evidence |
| EvidenceStore.SqliteEvidence.PruneNodeEvidence | internal/broker/sqlite.go:1612-1683 | the two phases equal the same filter as the memory form, a missing cutoff being the clock; the count is the exact drop in size |
| EvidenceStore.ExpiredNames | internal/broker/sqlite.go:1629-1655 | the first phase collects exactly the expired names of the cluster |
| EvidenceStore.DeleteNames | internal/broker/sqlite.go:1657-1676 | the second phase removes exactly the named rows of the cluster and counts them |
| EvidenceRuns.ReadCertificatesKeepsGood | internal/broker/sqlite.go:1295-1322 | the torn read: certificates read while the captured revision stands are those of that revision |
| EvidenceRuns.AfterKeepsGood | internal/broker/admin.go:219-405 | every step of publishers, administrators and other challenge users keeps the invariant |
| EvidenceRuns.StoredEvidenceIsProven | internal/broker/admin.go:273-405 | in every interleaving stored TPM evidence carries the revision of the active enrollment, and its publication was authorized and verified under exactly that revision's policy, UID and certificates, for its own consumed and unexpired challenge |
| EvidenceRuns.PublicationsArePaid | internal/broker/admin.go:298-354 | in every interleaving publications map injectively to issued challenges of their own submission, unexpired at use and used up |
| EvidenceRuns.EvidenceMeansMeetable | internal/broker/admin.go:273-405 | a node has TPM evidence only under a policy that can be met, so an enrolled policy that cannot be met keeps its node without any |
| Publications.PublishesIff | internal/broker/admin.go:219-405 | left undisturbed, a publication is paid for if and only if its fields, cluster, provider, enrollment, certificate, challenge and quote (or synthetic payload) all stand, each spelled out, and is then stored if and only if its record can be; it uses up exactly its challenge, prunes its cluster and writes exactly its row; one that is not paid for changes nothing |
| Publications.StoredRowSays | internal/broker/admin.go:273-405 | in every interleaving a stored row reads back as the publication behind it: node, UID, hash, times and lifetime, a challenge bound to node, UID, provider and certificate, and for TPM evidence the active enrollment with its policy met; otherwise it is synthetic and that is enabled |
| EvidenceRuns.EvidenceMeansEnrolled | internal/broker/sqlite.go:1222-1292 | with synthetic evidence off, only nodes with an active enrollment have evidence |
| Workloads.VerifiedIff | internal/attestation/providers/kubernetes/verifier.go:97-170 | the Kubernetes verifier accepts a token if and only if it is authenticated, for the configured audience and service account, and bound to a pod that the lookup confirms where demanded; claims are the token's, the node the lookup's |
| Workloads.DevelopmentClaims | internal/broker/attestation.go:35-40 | the development verifier claims the trimmed payload as subject and nothing else |
| PolicyRuns.AfterKeepsGood | internal/broker/policy.go:90-159 | every step of requests, key transactions and the evidence protocol keeps the invariant |
| PolicyRuns.AllowsArePaid | internal/broker/policy.go:90-122 | over any run allowed decisions map injectively to issued challenges of the same cluster, subject and operation, unexpired at use and used up, and their keys still decrypt |
| Justifications.AllowsAreJustified | internal/broker/policy.go:90-159 | in every run from an empty store every allow was begun by a verified requester whose subject was enrolled and unrevoked in the store of that step, read its node's fresh evidence with agreeing UIDs, spent an unused, unexpired challenge of its own cluster, subject and operation, and found its key active (or decrypt-only for an unwrap), in this order, at the steps it names; its subject is still on record |
| Justifications.AllowedIff | internal/broker/policy.go:90-159 | conversely, a whole request that nothing disturbs is allowed if and only if all of this stands in the store as it is, and adds one decision or none |
| Justifications.BeginsIff | internal/broker/policy.go:124-141 | a request with a subject that is missing, revoked or empty, or without a verified payload, changes nothing |
| PolicyRuns.PodBoundAllows | internal/broker/policy.go:143-159 | with pod binding and evidence checks every allow names a node and read fresh evidence of it with agreeing UIDs, verified under trust enrolled for that node unless synthetic evidence is on |
| PolicyRuns.UndisturbedRequest | internal/broker/policy.go:90-159 | a request under way at any of its steps, left undisturbed, is allowed if and only if what it has not yet read is in order; nothing else of the store's tables changes |
| PolicyRuns.RevokedSubjectExactly | internal/broker/policy.go:90-141 | the exact condition for a revoked subject: its request had read the subject at an earlier step and the rest of it is in order; nothing of it begins afterwards |
| PolicyRuns.RevokedSubjectIsDenied | internal/broker/policy.go:124-141 | once a subject is revoked, whatever transactions follow, every allowed request of it had read the subject before the revocation |
| PolicyRuns.RevokedNodeIsDenied | internal/broker/policy.go:143-159 | with synthetic evidence off, while a revoked node is not enrolled again, every allowed request on it had read its evidence before the revocation |
| PolicyRuns.RevokedNodeExactly | internal/broker/policy.go:90-159 | the exact condition on a node without active trust: the request had read its evidence at an earlier step and the rest of it is in order; one still to read it is denied |
| InFlight.SubjectRevokedInFlight | internal/broker/policy.go:90-141 | a run from an empty store, development verifier: the subject is revoked between its read and the key check, and the wrap is allowed |
| InFlight.NodeRevokedInFlight | internal/broker/policy.go:90-159 | a run from an empty store, enrollment and TPM publication included: the node is revoked between the evidence read and the key check, and the wrap is allowed |

## Left out

- JSON, base64, protobuf, SQL text and the formatting of times: shares, rows and messages are datatypes, times are integers, and those in rows are taken to read back. The decimal and hexadecimal text of PCR values is taken as decoded, so two spellings of one index are not modelled.
- AES-GCM, SHA hashes, RSA and ECDSA signatures, TPM commands and the encoding of authenticated data: arbitrary functions with the equations named above.
- gRPC, TLS, HTTP and Kubernetes clients, telemetry, audit records, flag parsing and output. The audited key version is not tied to the blob's version: policy check and key load are separate reads.
- Broker and plugin configuration, the wrapper lifecycle and the local TPM state files.
- Cancelled operations and retired keys: nothing sets them.
- EvidenceRuns.StoredEvidenceIsProven: the issuing of a node challenge is one event with arbitrary content; the authorization in front of it is not modelled, because publication authorizes again.
- EvidenceTtl.WholeSecondLimit: overflow of a configured limit beyond 292 years is not modelled.
- Pcrs.Normalize: lower-casing covers the ASCII letters, which decides the same names, because no other character lower-cases into a bank name.
- Challenges.StoresAnswerAlike: refused creations may differ between the stores (nonce uniqueness and known clusters are checked by the table, blank ids and empty nonces by the memory store).
- The memory form of node enrollment: it does not check UID or provider again when storing, so it equals the SQL store on fewer inputs.
- Recovery packages inserted outside a bootstrap, enrollment request rows, listing queries, column defaults and row timestamps other than those of operations and verifications.
- Splitting a service-account user name into namespace and name, and the bytes of a development payload: the parts and the text are given.
