/** The unlocked keyring: which version encrypts, which versions decrypt, and
    the blobs they produce.

    The AEAD (interface as in section 2 of RFC 5116) is a pair of arbitrary
    functions that satisfy `SoundAead`; the authenticated data is the pair of
    key metadata and caller data that the canonical encoding renders. */
module Keyring {
  import opened KeyRefs
  import opened Identifiers
  import opened Results
  import Hex

  type Bytes = Hex.Bytes

  const KEY_SIZE := 32
  const NONCE_SIZE := 12
  const TAG_SIZE := 16
  const PURPOSE := "openbao-auto-unseal"
  const BLOB_FORMAT := "openbao-attested-unseal.v1.aes256gcm"
  const ALGORITHM := "AES-256-GCM"
  const MECHANISM: nat := 1
  const METADATA_SCHEMA: nat := 1

  datatype Error = InvalidMetadata | KeyNotFound | KeyNotUsable | DecryptFailed

  datatype Status = Pending | Active | DecryptOnly | Retired | UnknownStatus(name: string)

  datatype KeyVersion = KeyVersion(ref: KeyRef, status: Status, algorithm: string, policyId: string, material: Bytes)

  datatype Metadata = Metadata(
    schemaVersion: nat, purpose: string, clusterId: string, keyId: string, keyVersion: Uint32,
    algorithm: string, policyId: string, blobFormat: string)

  datatype Aad = Aad(metadata: Metadata, caller: Bytes)

  datatype Aead = Aead(seal: (Bytes, Bytes, Bytes, Aad) -> Bytes, open: (Bytes, Bytes, Bytes, Aad) -> Option<Bytes>)

  /** Opening undoes sealing under the same key, nonce and authenticated data,
      and a sealed text carries its tag. */
  ghost predicate SoundAead(a: Aead) {
    forall key, nonce, plaintext, aad ::
      && |a.seal(key, nonce, plaintext, aad)| == |plaintext| + TAG_SIZE
      && a.open(key, nonce, a.seal(key, nonce, plaintext, aad), aad) == Some(plaintext)
  }

  datatype Blob = Blob(ciphertext: Bytes, nonce: Bytes, mechanism: nat, keyLabel: string)

  datatype Ring = Ring(versions: seq<KeyVersion>)

  predicate ValidVersion(v: KeyVersion) {
    && ValidRef(v.ref)
    && !v.status.UnknownStatus?
    && v.algorithm == ALGORITHM
    && ValidIdentifier(v.policyId)
    && |v.material| == KEY_SIZE
  }

  predicate Decrypts(s: Status) {
    s.Active? || s.DecryptOnly?
  }

  predicate CanDecrypt(v: KeyVersion) {
    Decrypts(v.status)
  }

  // ---------------------------------------------------------------------
  // Building a ring
  // ---------------------------------------------------------------------

  predicate DistinctRefs(versions: seq<KeyVersion>) {
    forall i, j | 0 <= i < j < |versions| :: versions[i].ref != versions[j].ref
  }

  /** Position a is the only active one. */
  predicate ActiveAt(versions: seq<KeyVersion>, a: nat) {
    a < |versions| && forall i | 0 <= i < |versions| :: versions[i].status.Active? <==> i == a
  }

  predicate ValidRing(versions: seq<KeyVersion>) {
    && (forall i | 0 <= i < |versions| :: ValidVersion(versions[i]))
    && DistinctRefs(versions)
    && exists a | 0 <= a < |versions| :: ActiveAt(versions, a)
  }

  function CountActive(versions: seq<KeyVersion>): nat {
    if versions == [] then 0
    else
      var n := |versions| - 1;
      CountActive(versions[..n]) + if versions[n].status.Active? then 1 else 0
  }

  lemma {:induction false} CountZero(versions: seq<KeyVersion>)
    ensures CountActive(versions) == 0 <==> forall i | 0 <= i < |versions| :: !versions[i].status.Active?
  {
    if versions != [] {
      var n := |versions| - 1;
      CountZero(versions[..n]);
      assert forall i | 0 <= i < n :: versions[..n][i] == versions[i];
    }
  }

  lemma {:induction false} CountOne(versions: seq<KeyVersion>)
    ensures CountActive(versions) == 1 <==> exists a | 0 <= a < |versions| :: ActiveAt(versions, a)
  {
    if versions != [] {
      var n := |versions| - 1;
      var front := versions[..n];
      assert forall i | 0 <= i < n :: front[i] == versions[i];
      CountZero(front);
      CountOne(front);
      if CountActive(versions) == 1 {
        if versions[n].status.Active? {
          assert ActiveAt(versions, n);
        } else {
          var a :| 0 <= a < |front| && ActiveAt(front, a);
          assert ActiveAt(versions, a);
        }
      }
      if a :| 0 <= a < |versions| && ActiveAt(versions, a) {
        if a < n {
          assert ActiveAt(front, a);
        }
      }
    }
  }

  /** The ring is the list itself, and it is refused unless every version is
      valid, no reference repeats and exactly one version is active. */
  method NewRing(versions: seq<KeyVersion>) returns (r: Result<Ring, Error>)
    ensures r == if ValidRing(versions) then Ok(Ring(versions)) else Err(InvalidMetadata)
  {
    if versions == [] {
      return Err(InvalidMetadata);
    }
    var copied: seq<KeyVersion> := [];
    var activeCount := 0;
    for i := 0 to |versions|
      invariant copied == versions[..i]
      invariant activeCount == CountActive(versions[..i])
      invariant forall k | 0 <= k < i :: ValidVersion(versions[k])
      invariant DistinctRefs(versions[..i])
    {
      var version := versions[i];
      if !ValidVersion(version) {
        return Err(InvalidMetadata);
      }
      if exists k | 0 <= k < |copied| :: copied[k].ref == version.ref {
        return Err(InvalidMetadata);
      }
      assert versions[..i + 1][..i] == versions[..i];
      if version.status.Active? {
        activeCount := activeCount + 1;
      }
      copied := copied + [version];
    }
    assert versions[..|versions|] == versions;
    CountOne(versions);
    if activeCount != 1 {
      return Err(InvalidMetadata);
    }
    return Ok(Ring(copied));
  }

  // ---------------------------------------------------------------------
  // Selecting a version
  // ---------------------------------------------------------------------

  function FirstActive(versions: seq<KeyVersion>): Result<KeyVersion, Error> {
    if versions == [] then Err(KeyNotUsable)
    else if versions[0].status.Active? then Ok(versions[0])
    else FirstActive(versions[1..])
  }

  function KeyForDecrypt(versions: seq<KeyVersion>, ref: KeyRef): Result<KeyVersion, Error> {
    if versions == [] then Err(KeyNotFound)
    else if versions[0].ref == ref then
      if CanDecrypt(versions[0]) then Ok(versions[0]) else Err(KeyNotUsable)
    else KeyForDecrypt(versions[1..], ref)
  }

  lemma {:induction false} FirstActiveFinds(versions: seq<KeyVersion>, a: nat)
    requires ActiveAt(versions, a)
    ensures FirstActive(versions) == Ok(versions[a])
  {
    if a > 0 {
      assert !versions[0].status.Active?;
      FirstActiveFinds(versions[1..], a - 1);
    }
  }

  lemma {:induction false} KeyForDecryptFinds(versions: seq<KeyVersion>, i: nat)
    requires i < |versions| && DistinctRefs(versions) && CanDecrypt(versions[i])
    ensures KeyForDecrypt(versions, versions[i].ref) == Ok(versions[i])
  {
    if i > 0 {
      KeyForDecryptFinds(versions[1..], i - 1);
    }
  }

  // ---------------------------------------------------------------------
  // Blobs
  // ---------------------------------------------------------------------

  /** The metadata bound into a ciphertext; the status is not part of it. */
  function NewMetadata(v: KeyVersion): Metadata {
    Metadata(METADATA_SCHEMA, PURPOSE, v.ref.clusterId, v.ref.keyId, v.ref.version, v.algorithm, v.policyId,
        BLOB_FORMAT)
  }

  predicate ValidMetadata(m: Metadata) {
    && m.schemaVersion == METADATA_SCHEMA
    && ValidRef(KeyRef(m.clusterId, m.keyId, m.keyVersion))
    && m.algorithm == ALGORITHM
    && ValidIdentifier(m.policyId)
    && m.purpose == PURPOSE
    && m.blobFormat == BLOB_FORMAT
  }

  function CanonicalAad(m: Metadata, caller: Bytes): Result<Aad, Error> {
    if ValidMetadata(m) then Ok(Aad(m, caller)) else Err(InvalidMetadata)
  }

  function Encrypt(a: Aead, ring: Ring, plaintext: Bytes, caller: Bytes, nonce: Bytes): Result<Blob, Error> {
    match FirstActive(ring.versions)
    case Err(e) => Err(e)
    case Ok(v) =>
      match CanonicalAad(NewMetadata(v), caller)
      case Err(e) => Err(e)
      case Ok(aad) => Ok(Blob(a.seal(v.material, nonce, plaintext, aad), nonce, MECHANISM, Label(v.ref)))
  }

  function ValidateBlob(blob: Blob): Result<KeyRef, Error> {
    if |blob.ciphertext| == 0 || |blob.nonce| != NONCE_SIZE || blob.mechanism != MECHANISM then Err(InvalidMetadata)
    else
      match ParseKeyRef(blob.keyLabel)
      case Malformed => Err(InvalidMetadata)
      case Parsed(ref) => Ok(ref)
  }

  function Decrypt(a: Aead, ring: Ring, blob: Blob, caller: Bytes): Result<Bytes, Error> {
    match ValidateBlob(blob)
    case Err(e) => Err(e)
    case Ok(ref) =>
      match KeyForDecrypt(ring.versions, ref)
      case Err(e) => Err(e)
      case Ok(v) =>
        match CanonicalAad(NewMetadata(v), caller)
        case Err(e) => Err(e)
        case Ok(aad) =>
          match a.open(v.material, blob.nonce, blob.ciphertext, aad)
          case None => Err(DecryptFailed)
          case Some(plaintext) => Ok(plaintext)
  }

  /** Everything about a version that decryption depends on. */
  predicate SameKey(v: KeyVersion, w: KeyVersion) {
    v.ref == w.ref && v.algorithm == w.algorithm && v.policyId == w.policyId && v.material == w.material
  }

  /** A blob of one ring opens under any ring that still holds the encrypting
      key in a decrypting status, whatever else the two rings contain. */
  lemma DecryptInvertsEncrypt(a: Aead, ring: Ring, ring': Ring, plaintext: Bytes, caller: Bytes, nonce: Bytes, i: nat,
                              j: nat)
    requires SoundAead(a) && |nonce| == NONCE_SIZE
    requires ValidRing(ring.versions) && ValidRing(ring'.versions)
    requires ActiveAt(ring.versions, i)
    requires j < |ring'.versions| && SameKey(ring.versions[i], ring'.versions[j]) && CanDecrypt(ring'.versions[j])
    ensures Encrypt(a, ring, plaintext, caller, nonce).Ok?
    ensures Decrypt(a, ring', Encrypt(a, ring, plaintext, caller, nonce).value, caller) == Ok(plaintext)
    ensures Encrypt(a, ring, plaintext, caller, nonce).value.keyLabel == Label(ring.versions[i].ref)
  {
    FirstActiveFinds(ring.versions, i);
    KeyForDecryptFinds(ring'.versions, j);
    ParseInvertsLabel(ring.versions[i].ref);
  }

  // ---------------------------------------------------------------------
  // Wire form of a blob
  // ---------------------------------------------------------------------

  datatype WireBlob = WireBlob(ciphertext: Bytes, nonce: Bytes, key: KeyRef, mechanism: nat)

  /** None when the label does not parse. */
  function ToWire(blob: Blob): Option<WireBlob> {
    match ParseKeyRef(blob.keyLabel)
    case Malformed => None
    case Parsed(ref) => Some(WireBlob(blob.ciphertext, blob.nonce, ref, blob.mechanism))
  }

  function FromWire(wire: WireBlob): Blob {
    Blob(wire.ciphertext, wire.nonce, wire.mechanism, Label(wire.key))
  }

  /** The wire trip is the identity exactly on blobs whose label is canonical,
      and it never changes what a blob decrypts to. */
  lemma WireTrip(a: Aead, ring: Ring, blob: Blob, caller: Bytes)
    requires ToWire(blob).Some?
    ensures FromWire(ToWire(blob).value) == blob <==> Label(ParseKeyRef(blob.keyLabel).ref) == blob.keyLabel
    ensures Decrypt(a, ring, FromWire(ToWire(blob).value), caller) == Decrypt(a, ring, blob, caller)
  {
    var k := Canonicalises(blob.keyLabel);
  }

  // ---------------------------------------------------------------------
  // What is sealed, and what does not open
  // ---------------------------------------------------------------------

  /** What a ciphertext authenticates: the key's names, version and policy, and
      the caller's own data. */
  function Binding(v: KeyVersion, caller: Bytes): Aad {
    Aad(Metadata(1, "openbao-auto-unseal", v.ref.clusterId, v.ref.keyId, v.ref.version, "AES-256-GCM", v.policyId,
                 "openbao-attested-unseal.v1.aes256gcm"),
        caller)
  }

  lemma BindingIs(v: KeyVersion, caller: Bytes)
    requires ValidVersion(v)
    ensures CanonicalAad(NewMetadata(v), caller) == Ok(Binding(v, caller))
  {
  }

  /** A blob is the plaintext sealed under the one active key and its binding,
      with the nonce, the mechanism and the label of that key. */
  lemma EncryptSeals(a: Aead, ring: Ring, plaintext: Bytes, caller: Bytes, nonce: Bytes, i: nat)
    requires ValidRing(ring.versions) && ActiveAt(ring.versions, i)
    ensures Encrypt(a, ring, plaintext, caller, nonce)
            == Ok(Blob(a.seal(ring.versions[i].material, nonce, plaintext, Binding(ring.versions[i], caller)),
                       nonce, 1, Label(ring.versions[i].ref)))
  {
    hide NewMetadata, CanonicalAad, Binding;
    FirstActiveFinds(ring.versions, i);
    BindingIs(ring.versions[i], caller);
  }

  /** Decryption is the opening under the named key and the same binding, so
      other caller data fails wherever the AEAD tells bindings apart. */
  lemma DecryptOpens(a: Aead, ring: Ring, blob: Blob, caller: Bytes, i: nat)
    requires ValidRing(ring.versions) && i < |ring.versions|
    requires |blob.ciphertext| > 0 && |blob.nonce| == 12 && blob.mechanism == 1
    requires ParseKeyRef(blob.keyLabel) == Parsed(ring.versions[i].ref)
    ensures ring.versions[i].status == Active || ring.versions[i].status == DecryptOnly ==>
              Decrypt(a, ring, blob, caller)
              == match a.open(ring.versions[i].material, blob.nonce, blob.ciphertext, Binding(ring.versions[i], caller))
                 case None => Err(DecryptFailed)
                 case Some(plaintext) => Ok(plaintext)
    ensures ring.versions[i].status != Active && ring.versions[i].status != DecryptOnly ==>
              Decrypt(a, ring, blob, caller) == Err(KeyNotUsable)
  {
    hide NewMetadata, CanonicalAad, Binding;
    KeyForDecryptAt(ring.versions, i);
    BindingIs(ring.versions[i], caller);
  }

  lemma {:induction false} KeyForDecryptAt(versions: seq<KeyVersion>, i: nat)
    requires i < |versions| && DistinctRefs(versions)
    ensures KeyForDecrypt(versions, versions[i].ref)
            == if CanDecrypt(versions[i]) then Ok(versions[i]) else Err(KeyNotUsable)
  {
    if i > 0 {
      KeyForDecryptAt(versions[1..], i - 1);
    }
  }

  /** Blobs of another shape and blobs of unknown keys are refused unopened. */
  lemma DecryptRefuses(a: Aead, ring: Ring, blob: Blob, caller: Bytes)
    ensures |blob.ciphertext| == 0 || |blob.nonce| != 12 || blob.mechanism != 1
            || ParseKeyRef(blob.keyLabel).Malformed? ==>
              Decrypt(a, ring, blob, caller) == Err(InvalidMetadata)
    ensures |blob.ciphertext| > 0 && |blob.nonce| == 12 && blob.mechanism == 1 && ParseKeyRef(blob.keyLabel).Parsed?
            && (forall i | 0 <= i < |ring.versions| :: ring.versions[i].ref != ParseKeyRef(blob.keyLabel).ref) ==>
              Decrypt(a, ring, blob, caller) == Err(KeyNotFound)
  {
    hide ParseKeyRef;
    if ParseKeyRef(blob.keyLabel).Parsed?
       && forall i | 0 <= i < |ring.versions| :: ring.versions[i].ref != ParseKeyRef(blob.keyLabel).ref
    {
      KeyForDecryptNone(ring.versions, ParseKeyRef(blob.keyLabel).ref);
    }
  }

  lemma {:induction false} KeyForDecryptNone(versions: seq<KeyVersion>, ref: KeyRef)
    requires forall i | 0 <= i < |versions| :: versions[i].ref != ref
    ensures KeyForDecrypt(versions, ref) == Err(KeyNotFound)
  {
    if versions != [] {
      KeyForDecryptNone(versions[1..], ref);
    }
  }

  /** Versions that a ring takes, field by field. */
  lemma VersionIs(v: KeyVersion)
    ensures ValidVersion(v) <==>
              && ValidIdentifier(v.ref.clusterId) && ValidIdentifier(v.ref.keyId) && v.ref.version >= 1
              && v.status in {Pending, Active, DecryptOnly, Retired}
              && v.algorithm == "AES-256-GCM" && ValidIdentifier(v.policyId) && |v.material| == 32
  {
  }

  /** Metadata that is bound, field by field; what is bound is the metadata and
      the caller's data. */
  lemma MetadataIs(m: Metadata, caller: Bytes)
    ensures CanonicalAad(m, caller)
            == if && m.schemaVersion == 1 && m.purpose == "openbao-auto-unseal"
                  && ValidIdentifier(m.clusterId) && ValidIdentifier(m.keyId) && m.keyVersion >= 1
                  && m.algorithm == "AES-256-GCM" && ValidIdentifier(m.policyId)
                  && m.blobFormat == "openbao-attested-unseal.v1.aes256gcm"
               then Ok(Aad(m, caller)) else Err(InvalidMetadata)
  {
  }

  /** The wire form of a blob, field by field. */
  lemma WireIs(blob: Blob, wire: WireBlob)
    ensures ToWire(blob) == Some(wire) <==>
              && ParseKeyRef(blob.keyLabel) == Parsed(wire.key) && wire.ciphertext == blob.ciphertext
              && wire.nonce == blob.nonce && wire.mechanism == blob.mechanism
  {
    hide ParseKeyRef;
  }
}
