/** The durable form of wrapping keys and the loader that turns the records of
    one cluster back into a keyring. */
module KeyProtection {
  import opened Identifiers
  import opened KeyRefs
  import opened Results
  import Text
  import K = Keyring

  const PROFILE_DEVELOPMENT := "development"
  const FORMAT_DEVELOPMENT := "openbao-attested-unseal.development-plaintext.v1"

  datatype Error = InvalidProtectedKey | ProtectorMismatch | InvalidVersion | InvalidRing

  datatype ProtectedKey = ProtectedKey(
    ref: KeyRef, status: K.Status, algorithm: string, policyId: string,
    profile: string, format: string, payload: K.Bytes)

  predicate ValidRecord(k: ProtectedKey) {
    && ValidRef(k.ref)
    && !k.status.UnknownStatus?
    && k.algorithm == K.ALGORITHM
    && ValidIdentifier(k.policyId)
    && ValidIdentifier(k.profile)
    && Text.TrimSpace(k.format) != ""
    && k.payload != []
  }

  function Protect(v: K.KeyVersion): Result<ProtectedKey, Error> {
    if !K.ValidVersion(v) then Err(InvalidVersion)
    else
      var record := ProtectedKey(v.ref, v.status, v.algorithm, v.policyId,
                                 PROFILE_DEVELOPMENT, FORMAT_DEVELOPMENT, v.material);
      if ValidRecord(record) then Ok(record) else Err(InvalidProtectedKey)
  }

  function Unprotect(k: ProtectedKey): Result<K.KeyVersion, Error> {
    if !ValidRecord(k) then Err(InvalidProtectedKey)
    else if k.profile != PROFILE_DEVELOPMENT || k.format != FORMAT_DEVELOPMENT then Err(ProtectorMismatch)
    else
      var v := Material(k);
      if K.ValidVersion(v) then Ok(v) else Err(InvalidVersion)
  }

  /** What it takes for a valid record to open. */
  predicate Opens(k: ProtectedKey) {
    ValidRecord(k) && k.profile == PROFILE_DEVELOPMENT && k.format == FORMAT_DEVELOPMENT && |k.payload| == K.KEY_SIZE
  }

  lemma DevelopmentNames()
    ensures ValidIdentifier(PROFILE_DEVELOPMENT)
    ensures Text.TrimSpace(FORMAT_DEVELOPMENT) != ""
  {
    hide Text.TrimSpace;
    assert ValidIdentifier(PROFILE_DEVELOPMENT);
    assert FORMAT_DEVELOPMENT[|FORMAT_DEVELOPMENT| - 1] == '1';
    Text.TrimKeepsInk(FORMAT_DEVELOPMENT, |FORMAT_DEVELOPMENT| - 1);
  }

  /** Protecting and opening are inverse to each other: each version has one
      record that opens to it, and each record that opens is the one. */
  lemma ProtectionInverse(v: K.KeyVersion, k: ProtectedKey)
    ensures Protect(v) == Ok(k) <==> Unprotect(k) == Ok(v)
    ensures K.ValidVersion(v) <==> Protect(v).Ok?
    ensures Opens(k) <==> Unprotect(k).Ok?
  {
    DevelopmentNames();
  }

  function Material(k: ProtectedKey): K.KeyVersion {
    K.KeyVersion(k.ref, k.status, k.algorithm, k.policyId, k.payload)
  }

  lemma UnprotectOpens(k: ProtectedKey)
    ensures Unprotect(k).Ok? <==> Opens(k)
    ensures Unprotect(k).Ok? ==> Unprotect(k).value == Material(k) && K.ValidVersion(Material(k))
    ensures k.profile != PROFILE_DEVELOPMENT ==> !Opens(k)
  {
    hide Text.TrimSpace;
  }

  function UnprotectAll(records: seq<ProtectedKey>): seq<K.KeyVersion> {
    seq(|records|, i requires 0 <= i < |records| => Material(records[i]))
  }

  predicate Loadable(records: seq<ProtectedKey>) {
    (forall i | 0 <= i < |records| :: Opens(records[i])) && K.ValidRing(UnprotectAll(records))
  }

  /** One record that does not open refuses the whole cluster. */
  method LoadKeyring(records: seq<ProtectedKey>) returns (r: Result<K.Ring, Error>)
    ensures r.Ok? <==> Loadable(records)
    ensures r.Ok? ==> r.value == K.Ring(UnprotectAll(records))
  {
    hide Opens, Unprotect, Material, K.ValidRing;
    var versions: seq<K.KeyVersion> := [];
    for i := 0 to |records|
      invariant forall k | 0 <= k < i :: Opens(records[k])
      invariant versions == UnprotectAll(records[..i])
    {
      UnprotectOpens(records[i]);
      if records[i].profile != PROFILE_DEVELOPMENT {
        return Err(ProtectorMismatch);
      }
      var version := Unprotect(records[i]);
      if version.Err? {
        return Err(version.error);
      }
      versions := versions + [version.value];
    }
    assert records[..|records|] == records;
    var ring := K.NewRing(versions);
    if ring.Err? {
      return Err(InvalidRing);
    }
    return Ok(ring.value);
  }

  /** Records that validate, field by field. */
  lemma RecordIs(k: ProtectedKey)
    ensures ValidRecord(k) <==>
              && ValidIdentifier(k.ref.clusterId) && ValidIdentifier(k.ref.keyId) && k.ref.version >= 1
              && k.status in {K.Pending, K.Active, K.DecryptOnly, K.Retired}
              && k.algorithm == "AES-256-GCM" && ValidIdentifier(k.policyId) && ValidIdentifier(k.profile)
              && Text.TrimSpace(k.format) != "" && |k.payload| > 0
  {
    hide Text.TrimSpace;
  }

  /** The record of a key: its own fields under the development labels, with the
      material as payload. Only such records open. */
  lemma ProtectWrites(v: K.KeyVersion, k: ProtectedKey)
    ensures K.ValidVersion(v) ==>
              Protect(v) == Ok(ProtectedKey(v.ref, v.status, v.algorithm, v.policyId, "development",
                                            "openbao-attested-unseal.development-plaintext.v1", v.material))
    ensures Unprotect(k).Ok? ==>
              && k.profile == "development" && k.format == "openbao-attested-unseal.development-plaintext.v1"
              && |k.payload| == 32
  {
    hide Text.TrimSpace;
    DevelopmentNames();
  }
}
