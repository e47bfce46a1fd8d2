/** Verifying a TPM quote and evaluating an enrolled policy on it.

    Hash functions, signature checking and the decoding of a quote are foreign
    and arbitrary; PCR values are taken as decoded from their text. */
module TpmPolicy {
  import opened Hex
  import opened Pcrs
  import opened Results
  import Text

  datatype Error = AttestationPolicy | UnsupportedProfile | InvalidEvidence | QuoteVerification

  const TPM_ONLY := "tpm-only"
  const SECUREBOOT := "secureboot"
  const MEASURED := "measured"
  const GENERIC_PC := "generic-pc-secureboot"
  const SCHEMA: nat := 1

  datatype PcrPolicy = PcrPolicy(selection: Selection, expectedDigest: string, profile: string)

  datatype Policy = Policy(mode: string, akHash: string, pcrPolicy: Option<PcrPolicy>, profile: string)

  /** `values` is None when the text of the PCR values does not decode. */
  datatype Evidence = Evidence(
    schemaVersion: nat, challengeId: string, nonceHash: string, akPublic: Bytes, quote: Bytes, signature: Bytes,
    selection: Selection, values: Option<map<int, Bytes>>)

  datatype Attestation = Attestation(isQuote: bool, extraData: Bytes, selection: Selection, pcrDigest: Bytes)

  datatype Tpm = Tpm(hashes: Hashes, signed: (Bytes, Bytes, Bytes) -> bool, decode: Bytes -> Option<Attestation>)

  datatype QuoteClaims = QuoteClaims(akHash: string, selection: Selection, pcrDigest: string, nonceHash: string)

  datatype Claims = Claims(quote: QuoteClaims, secureBoot: bool, policyMode: string, profile: string)

  // ---------------------------------------------------------------------
  // Digest text
  // ---------------------------------------------------------------------

  function DigestText(hash: string, digest: Bytes): string {
    Lower(hash) + ":" + Encode(digest)
  }

  function SplitColon(s: string): Option<(string, string)> {
    if s == "" then None
    else if s[0] == ':' then Some(("", s[1..]))
    else
      match SplitColon(s[1..])
      case None => None
      case Some((before, after)) => Some(([s[0]] + before, after))
  }

  function ParseDigest(s: string): Option<(string, Bytes)> {
    match SplitColon(s)
    case None => None
    case Some((before, after)) =>
      if !HashName(Lower(before)) then None
      else
        match Decode(after)
        case None => None
        case Some(digest) => Some((Lower(before), digest))
  }

  lemma {:induction false} SplitsAtFirst(a: string, b: string)
    requires ':' !in a
    ensures SplitColon(a + ":" + b) == Some((a, b))
  {
    var s := a + ":" + b;
    if a == "" {
      assert s[1..] == b;
    } else {
      assert s[1..] == a[1..] + ":" + b;
      SplitsAtFirst(a[1..], b);
      assert a == [a[0]] + a[1..];
    }
  }

  lemma ParseInvertsText(hash: string, digest: Bytes)
    requires HashName(hash)
    ensures ParseDigest(DigestText(hash, digest)) == Some((hash, digest))
  {
    hide SplitColon, Decode, Encode;
    assert Lower(hash) == hash;
    assert ':' !in hash;
    SplitsAtFirst(hash, Encode(digest));
    DecodeInvertsEncode(digest);
  }

  // ---------------------------------------------------------------------
  // Policies
  // ---------------------------------------------------------------------

  predicate ValidPcrPolicy(p: PcrPolicy) {
    && Usable(p.selection)
    && ParseDigest(p.expectedDigest).Some?
    && var (hash, digest) := ParseDigest(p.expectedDigest).value;
    && hash == EffectiveHash(p.selection.hash)
    && |digest| == DigestSize(EffectiveHash(p.selection.hash))
  }

  function CheckPolicy(p: Policy): Result<(), Error> {
    var mode := Text.TrimSpace(p.mode);
    if mode != TPM_ONLY && mode != SECUREBOOT && mode != MEASURED then Err(AttestationPolicy)
    else if p.akHash != "" && !IsSha256(p.akHash) then Err(AttestationPolicy)
    else if mode == SECUREBOOT then
      if p.profile == "" then Err(AttestationPolicy)
      else if p.profile != GENERIC_PC then Err(UnsupportedProfile)
      else if p.pcrPolicy.None? || !ValidPcrPolicy(p.pcrPolicy.value) then Err(AttestationPolicy)
      else if 7 !in p.pcrPolicy.value.selection.pcrs then Err(AttestationPolicy)
      else Ok(())
    else Ok(())
  }

  predicate IsSha256(text: string) {
    ParseDigest(text).Some? && ParseDigest(text).value.0 == SHA256 && |ParseDigest(text).value.1| == 32
  }

  function NewPcrPolicy(hashes: Hashes, s: Selection, values: map<int, Bytes>,
                        profile: string): Result<PcrPolicy, Error>
  {
    if !Digestible(s, values) then Err(AttestationPolicy)
    else Ok(PcrPolicy(Ordered(s), DigestText(Ordered(s).hash, Digest(hashes, s, values)), profile))
  }

  // ---------------------------------------------------------------------
  // Quotes
  // ---------------------------------------------------------------------

  function Fingerprint(hashes: Hashes, bytes: Bytes): string {
    DigestText(SHA256, hashes(SHA256, bytes))
  }

  predicate ValidEvidence(e: Evidence) {
    && e.schemaVersion == SCHEMA
    && Text.TrimSpace(e.challengeId) != ""
    && ParseDigest(e.nonceHash).Some? && |ParseDigest(e.nonceHash).value.1| == 32
    && e.akPublic != [] && e.quote != [] && e.signature != []
    && Usable(e.selection)
    && e.values.Some? && e.values.value != map[]
    && (forall x | x in e.values.value :: 0 <= x <= 23)
    && (forall x | x in e.selection.pcrs :: x in e.values.value)
  }

  predicate SameSelection(a: Selection, b: Selection) {
    a.hash == b.hash && a.pcrs == b.pcrs
  }

  function VerifyAttestation(tpm: Tpm, e: Evidence, nonce: Bytes): Result<Attestation, Error> {
    match tpm.decode(e.quote)
    case None => Err(QuoteVerification)
    case Some(a) => if !a.isQuote || a.extraData != nonce then Err(QuoteVerification) else Ok(a)
  }

  /** The normal selection and the digest that both the quote and the presented
      values give. */
  function VerifyAttestedPcrs(tpm: Tpm, e: Evidence, a: Attestation): Result<(Selection, Bytes), Error>
    requires e.values.Some?
  {
    if !Usable(a.selection) then Err(QuoteVerification)
    else if !Usable(e.selection) then Err(InvalidEvidence)
    else if !SameSelection(Ordered(a.selection), Ordered(e.selection)) then Err(QuoteVerification)
    else if !Digestible(Ordered(e.selection), e.values.value) then Err(QuoteVerification)
    else
      var digest := Digest(tpm.hashes, Ordered(e.selection), e.values.value);
      if a.pcrDigest != digest then Err(QuoteVerification) else Ok((Ordered(e.selection), digest))
  }

  function VerifyQuote(tpm: Tpm, e: Evidence, nonce: Bytes): Result<QuoteClaims, Error> {
    if !ValidEvidence(e) then Err(InvalidEvidence)
    else if nonce == [] || e.nonceHash != Fingerprint(tpm.hashes, nonce) then Err(QuoteVerification)
    else if !tpm.signed(e.akPublic, e.signature, e.quote) then Err(QuoteVerification)
    else
      match VerifyAttestation(tpm, e, nonce)
      case Err(error) => Err(error)
      case Ok(a) =>
        match VerifyAttestedPcrs(tpm, e, a)
        case Err(error) => Err(error)
        case Ok((selection, digest)) =>
          Ok(QuoteClaims(Fingerprint(tpm.hashes, e.akPublic), selection, DigestText(selection.hash, digest),
              e.nonceHash))
  }

  /** The policy's selection is compared as it was enrolled. */
  predicate MeetsSecureBoot(claims: QuoteClaims, p: PcrPolicy) {
    p.expectedDigest == claims.pcrDigest && SameSelection(p.selection, claims.selection)
  }

  function EvaluatePolicy(tpm: Tpm, e: Evidence, nonce: Bytes, p: Policy): Result<Claims, Error> {
    match CheckPolicy(p)
    case Err(error) => Err(error)
    case Ok(_) =>
      match VerifyQuote(tpm, e, nonce)
      case Err(error) => Err(error)
      case Ok(claims) =>
        if p.akHash != "" && p.akHash != claims.akHash then Err(AttestationPolicy)
        else if p.mode == TPM_ONLY then Ok(Claims(claims, false, p.mode, p.profile))
        else if p.mode == SECUREBOOT && p.pcrPolicy.Some? && MeetsSecureBoot(claims, p.pcrPolicy.value) then
          Ok(Claims(claims, true, p.mode, p.profile))
        else Err(AttestationPolicy)
  }

  // ---------------------------------------------------------------------
  // What acceptance means, and who is accepted
  // ---------------------------------------------------------------------

  /** Signed by the presented key over this nonce, these PCRs and their values. */
  predicate Genuine(tpm: Tpm, e: Evidence, nonce: Bytes) {
    && nonce != []
    && e.schemaVersion == SCHEMA && Text.TrimSpace(e.challengeId) != ""
    && e.akPublic != [] && e.quote != [] && e.signature != []
    && e.nonceHash == Fingerprint(tpm.hashes, nonce)
    && tpm.signed(e.akPublic, e.signature, e.quote)
    && e.values.Some? && (forall x | x in e.values.value :: 0 <= x <= 23)
    && Digestible(e.selection, e.values.value)
    && tpm.decode(e.quote).Some?
    && var a := tpm.decode(e.quote).value;
    && a.isQuote && a.extraData == nonce
    && Usable(a.selection) && EffectiveHash(a.selection.hash) == EffectiveHash(e.selection.hash)
    && (forall x | x in a.selection.pcrs :: x in e.selection.pcrs)
    && (forall x | x in e.selection.pcrs :: x in a.selection.pcrs)
    && a.pcrDigest == Digest(tpm.hashes, e.selection, e.values.value)
  }

  ghost predicate SizedHashes(hashes: Hashes) {
    forall name, bytes | HashName(name) :: |hashes(name, bytes)| == DigestSize(name)
  }

  lemma OrderedDigest(hashes: Hashes, s: Selection, values: map<int, Bytes>)
    requires Usable(s)
    ensures Usable(Ordered(s)) && EffectiveHash(Ordered(s).hash) == EffectiveHash(s.hash)
    ensures forall x :: x in Ordered(s).pcrs <==> x in s.pcrs
    ensures Digestible(s, values) <==> Digestible(Ordered(s), values)
    ensures Digestible(s, values) ==> Digest(hashes, Ordered(s), values) == Digest(hashes, s, values)
  {
    hide Text.TrimSpace, Lower, Sort, EffectiveHash;
    UsableOrdered(s);
    SortKeepsAll(s.pcrs);
    HashNamesSettled(EffectiveHash(s.hash));
    if Digestible(s, values) {
      DigestOfSet(hashes, s, Ordered(s), values, values);
    }
  }

  /** Quote verification accepts exactly the genuine evidence, and reports its
      own key, its set in normal form and the digest over its values. */
  lemma VerifiesIffGenuine(tpm: Tpm, e: Evidence, nonce: Bytes)
    requires SizedHashes(tpm.hashes)
    ensures VerifyQuote(tpm, e, nonce).Ok? <==> Genuine(tpm, e, nonce)
    ensures Genuine(tpm, e, nonce) ==>
              VerifyQuote(tpm, e, nonce).value == QuoteClaims(
                Fingerprint(tpm.hashes, e.akPublic), Ordered(e.selection),
                DigestText(EffectiveHash(e.selection.hash), Digest(tpm.hashes, e.selection, e.values.value)),
                Fingerprint(tpm.hashes, nonce))
  {
    hide Text.TrimSpace, Lower, Sort, EffectiveHash, SplitColon, Encode, Decode, DigestText, ParseDigest, Ordered,
         Usable, Digest;
    ParseInvertsText(SHA256, tpm.hashes(SHA256, nonce));
    if Usable(e.selection) && e.values.Some? {
      OrderedDigest(tpm.hashes, e.selection, e.values.value);
      OrderedHash(e.selection);
      if tpm.decode(e.quote).Some? && Usable(tpm.decode(e.quote).value.selection) {
        SameOrder(tpm.decode(e.quote).value.selection, e.selection);
      }
      SomeSelected(e.selection);
    }
  }

  lemma OrderedHash(s: Selection)
    ensures Ordered(s).hash == EffectiveHash(s.hash)
  {
  }

  lemma SomeSelected(s: Selection)
    requires Usable(s)
    ensures exists x :: x in s.pcrs
  {
    var x := s.pcrs[0];
    assert x in s.pcrs;
  }

  lemma SameOrder(s: Selection, t: Selection)
    requires Usable(s) && Usable(t)
    ensures SameSelection(Ordered(s), Ordered(t)) <==>
              EffectiveHash(s.hash) == EffectiveHash(t.hash)
              && (forall x | x in s.pcrs :: x in t.pcrs) && (forall x | x in t.pcrs :: x in s.pcrs)
  {
    hide Text.TrimSpace, Lower, Sort, EffectiveHash;
    SortKeepsAll(s.pcrs);
    SortKeepsAll(t.pcrs);
    if EffectiveHash(s.hash) == EffectiveHash(t.hash)
       && (forall x | x in s.pcrs :: x in t.pcrs) && (forall x | x in t.pcrs :: x in s.pcrs) {
      NormalFormIsUnique(s, t);
    }
  }

  lemma GenuineUsable(tpm: Tpm, e: Evidence, nonce: Bytes)
    requires Genuine(tpm, e, nonce)
    ensures Usable(e.selection) && e.values.Some? && Digestible(e.selection, e.values.value)
  {
  }

  lemma UsableIsNormal(s: Selection)
    requires Usable(s)
    ensures Normal(Ordered(s))
  {
    UsableOrdered(s);
  }

  /** A digest written as the broker itself writes it. */
  predicate CanonicalText(s: string) {
    ParseDigest(s).Some? && s == DigestText(ParseDigest(s).value.0, ParseDigest(s).value.1)
  }

  /** What a policy must be, as text, to be met by any quote at all: its mode
      without padding, its digests in lower case, its selection in order. */
  predicate Meetable(p: Policy) {
    && (p.mode == TPM_ONLY || p.mode == SECUREBOOT)
    && (p.akHash == "" || CanonicalText(p.akHash))
    && (p.mode == SECUREBOOT ==>
          p.pcrPolicy.Some? && Normal(p.pcrPolicy.value.selection) && CanonicalText(p.pcrPolicy.value.expectedDigest))
  }

  /** What the policy says, with its texts decoded, is true of the quote: the
      enrolled key and, under secure boot, the enrolled bank, set and digest. */
  predicate Describes(tpm: Tpm, e: Evidence, p: Policy) {
    && (p.akHash == "" || ParseDigest(p.akHash) == Some((SHA256, tpm.hashes(SHA256, e.akPublic))))
    && (Text.TrimSpace(p.mode) == SECUREBOOT ==>
          && p.pcrPolicy.Some? && e.values.Some? && Digestible(e.selection, e.values.value)
          && SameSet(p.pcrPolicy.value.selection, e.selection)
          && ParseDigest(p.pcrPolicy.value.expectedDigest)
             == Some((EffectiveHash(e.selection.hash), Digest(tpm.hashes, e.selection, e.values.value))))
  }

  predicate SameSet(s: Selection, t: Selection) {
    && EffectiveHash(s.hash) == EffectiveHash(t.hash)
    && (forall x | x in s.pcrs :: x in t.pcrs) && (forall x | x in t.pcrs :: x in s.pcrs)
  }

  /** Acceptance, exactly: a valid policy, a genuine quote for this nonce that
      the policy describes, and a policy that can be met at all. */
  lemma AcceptedIff(tpm: Tpm, e: Evidence, nonce: Bytes, p: Policy)
    requires SizedHashes(tpm.hashes)
    ensures EvaluatePolicy(tpm, e, nonce, p).Ok? <==>
              CheckPolicy(p).Ok? && Genuine(tpm, e, nonce) && Describes(tpm, e, p) && Meetable(p)
  {
    hide Text.TrimSpace, Lower, Sort, EffectiveHash, DigestText, ParseDigest, Digest, Genuine, VerifyQuote, CheckPolicy,
         Describes, Meetable, MeetsSecureBoot, Ordered;
    VerifiesIffGenuine(tpm, e, nonce);
    if CheckPolicy(p).Ok? && Genuine(tpm, e, nonce) {
      KeyMatches(tpm, e, p);
      Modes(p);
      if Text.TrimSpace(p.mode) == SECUREBOOT {
        SecureBootMeets(tpm, e, nonce, p);
      }
      DescribesMeetable(tpm, e, p);
    }
  }

  /** The key comparison is on texts. */
  predicate KeyMet(tpm: Tpm, e: Evidence, p: Policy) {
    p.akHash == "" || p.akHash == Fingerprint(tpm.hashes, e.akPublic)
  }

  lemma KeyMatches(tpm: Tpm, e: Evidence, p: Policy)
    ensures KeyMet(tpm, e, p) <==>
              p.akHash == "" ||
              (ParseDigest(p.akHash) == Some((SHA256, tpm.hashes(SHA256, e.akPublic))) && CanonicalText(p.akHash))
  {
    hide DigestText, ParseDigest;
    ParseInvertsText(SHA256, tpm.hashes(SHA256, e.akPublic));
  }

  lemma Modes(p: Policy)
    ensures p.mode == TPM_ONLY ==> Text.TrimSpace(p.mode) == TPM_ONLY
    ensures p.mode == SECUREBOOT ==> Text.TrimSpace(p.mode) == SECUREBOOT
    ensures CheckPolicy(p).Ok? && Text.TrimSpace(p.mode) == SECUREBOOT ==>
              p.pcrPolicy.Some? && Usable(p.pcrPolicy.value.selection)
  {
    hide Text.TrimSpace, ParseDigest, Usable;
    Text.TrimSpaceTrims(TPM_ONLY);
    Text.TrimSpaceTrims(SECUREBOOT);
  }

  /** The comparison of selection and digest, decoded. */
  lemma SecureBootMeets(tpm: Tpm, e: Evidence, nonce: Bytes, p: Policy)
    requires SizedHashes(tpm.hashes) && Genuine(tpm, e, nonce) && VerifyQuote(tpm, e, nonce).Ok?
    requires p.pcrPolicy.Some? && Usable(p.pcrPolicy.value.selection)
    ensures e.values.Some? && Digestible(e.selection, e.values.value)
    ensures MeetsSecureBoot(VerifyQuote(tpm, e, nonce).value, p.pcrPolicy.value) <==>
              && Normal(p.pcrPolicy.value.selection) && CanonicalText(p.pcrPolicy.value.expectedDigest)
              && SameSet(p.pcrPolicy.value.selection, e.selection)
              && ParseDigest(p.pcrPolicy.value.expectedDigest)
                 == Some((EffectiveHash(e.selection.hash), Digest(tpm.hashes, e.selection, e.values.value)))
  {
    hide Text.TrimSpace, Lower, Sort, EffectiveHash, DigestText, ParseDigest, Digest, Genuine, VerifyQuote, Usable,
         Ordered, Normal;
    VerifiesIffGenuine(tpm, e, nonce);
    GenuineUsable(tpm, e, nonce);
    UsableHash(e.selection);
    var s := p.pcrPolicy.value.selection;
    ParseInvertsText(EffectiveHash(e.selection.hash), Digest(tpm.hashes, e.selection, e.values.value));
    SameOrder(s, e.selection);
    NormalIsFixed(s);
    OrderedOfSame(s, e.selection);
  }

  lemma OrderedOfSame(s: Selection, t: Selection)
    requires Usable(s) && Usable(t)
    ensures SameSelection(s, Ordered(t)) <==> Normal(s) && SameSet(s, t)
  {
    hide Text.TrimSpace, Lower, Sort, EffectiveHash;
    SameOrder(s, t);
    NormalIsFixed(s);
    UsableIsNormal(t);
    OrderedDigest((_, _) => [], t, map[]);
    if SameSelection(s, Ordered(t)) {
      assert s == Ordered(t);
    }
  }

  lemma DescribesMeetable(tpm: Tpm, e: Evidence, p: Policy)
    requires Text.TrimSpace(p.mode) == SECUREBOOT
            ==> e.values.Some? && Digestible(e.selection, e.values.value) && p.pcrPolicy.Some?
    requires p.mode == TPM_ONLY ==> Text.TrimSpace(p.mode) == TPM_ONLY
    requires p.mode == SECUREBOOT ==> Text.TrimSpace(p.mode) == SECUREBOOT
    ensures Describes(tpm, e, p) && Meetable(p) <==>
              && (p.akHash == "" ||
                  (ParseDigest(p.akHash) == Some((SHA256, tpm.hashes(SHA256, e.akPublic))) && CanonicalText(p.akHash)))
              && (p.mode == TPM_ONLY || p.mode == SECUREBOOT)
              && (p.mode == SECUREBOOT ==>
                    && Normal(p.pcrPolicy.value.selection) && CanonicalText(p.pcrPolicy.value.expectedDigest)
                    && SameSet(p.pcrPolicy.value.selection, e.selection)
                    && ParseDigest(p.pcrPolicy.value.expectedDigest)
                       == Some((EffectiveHash(e.selection.hash), Digest(tpm.hashes, e.selection, e.values.value))))
  {
    hide Text.TrimSpace, Lower, Sort, EffectiveHash, DigestText, ParseDigest, Digest, Normal, SameSet, CanonicalText;
  }

  /** Of the quotes it describes, a valid policy accepts all if it can be met and
      none otherwise. */
  lemma GenuineAcceptedIff(tpm: Tpm, e: Evidence, nonce: Bytes, p: Policy)
    requires SizedHashes(tpm.hashes) && Genuine(tpm, e, nonce) && CheckPolicy(p).Ok? && Describes(tpm, e, p)
    ensures EvaluatePolicy(tpm, e, nonce, p).Ok? <==> Meetable(p)
  {
    hide EvaluatePolicy, Genuine, CheckPolicy, Describes, Meetable;
    AcceptedIff(tpm, e, nonce, p);
  }

  /** A policy made from observed values accepts every genuine quote of the
      enrolled key over the same set and values, in any listed order. */
  lemma NewPolicyAccepts(tpm: Tpm, s: Selection, values: map<int, Bytes>, e: Evidence, nonce: Bytes)
    requires SizedHashes(tpm.hashes) && Genuine(tpm, e, nonce)
    requires Digestible(s, values) && 7 in s.pcrs
    requires EffectiveHash(s.hash) == EffectiveHash(e.selection.hash)
    requires forall x :: x in s.pcrs <==> x in e.selection.pcrs
    requires forall x | x in s.pcrs :: x in e.values.value && e.values.value[x] == values[x]
    ensures NewPcrPolicy(tpm.hashes, s, values, GENERIC_PC).Ok?
    ensures EvaluatePolicy(tpm, e, nonce,
              Policy(SECUREBOOT, Fingerprint(tpm.hashes, e.akPublic),
                     Some(NewPcrPolicy(tpm.hashes, s, values, GENERIC_PC).value), GENERIC_PC)).Ok?
  {
    hide Text.TrimSpace, Lower, Sort, EffectiveHash, DigestText, ParseDigest, Digest, Genuine, Usable, Ordered,
         EvaluatePolicy;
    var pcrs := NewPcrPolicy(tpm.hashes, s, values, GENERIC_PC).value;
    var p := Policy(SECUREBOOT, Fingerprint(tpm.hashes, e.akPublic), Some(pcrs), GENERIC_PC);
    GenuineUsable(tpm, e, nonce);
    DigestOfSet(tpm.hashes, s, e.selection, values, e.values.value);
    OrderedDigest(tpm.hashes, s, values);
    OrderedHash(s);
    ParseInvertsText(EffectiveHash(s.hash), Digest(tpm.hashes, s, values));
    ParseInvertsText(SHA256, tpm.hashes(SHA256, e.akPublic));
    Text.TrimSpaceTrims(SECUREBOOT);
    UsableIsNormal(s);
    assert CheckPolicy(p).Ok? by { NewPolicyValid(tpm.hashes, s, values, p); }
    GenuineAcceptedIff(tpm, e, nonce, p);
  }

  lemma NewPolicyValid(hashes: Hashes, s: Selection, values: map<int, Bytes>, p: Policy)
    requires SizedHashes(hashes) && NewPcrPolicy(hashes, s, values, GENERIC_PC).Ok? && 7 in s.pcrs
    requires p == Policy(SECUREBOOT, p.akHash, Some(NewPcrPolicy(hashes, s, values, GENERIC_PC).value), GENERIC_PC)
    requires IsSha256(p.akHash)
    ensures CheckPolicy(p).Ok?
  {
    hide Text.TrimSpace, Lower, Sort, EffectiveHash, DigestText, ParseDigest, Usable, Ordered, IsSha256;
    OrderedDigest(hashes, s, values);
    OrderedHash(s);
    DigestSized(hashes, s, values);
    UsableHash(s);
    ParseInvertsText(EffectiveHash(s.hash), Digest(hashes, s, values));
    Text.TrimSpaceTrims(SECUREBOOT);
  }

  lemma UsableHash(s: Selection)
    requires Usable(s)
    ensures HashName(EffectiveHash(s.hash))
  {
  }

  lemma DigestSized(hashes: Hashes, s: Selection, values: map<int, Bytes>)
    requires SizedHashes(hashes) && Digestible(s, values)
    ensures |Digest(hashes, s, values)| == DigestSize(EffectiveHash(s.hash))
  {
  }

  // ---------------------------------------------------------------------
  // Valid policies that no quote meets
  // ---------------------------------------------------------------------

  function Sample(mode: string, akHash: string, pcrs: seq<int>, digest: string): Policy {
    Policy(mode, akHash, Some(PcrPolicy(Selection(SHA256, pcrs), digest, GENERIC_PC)), GENERIC_PC)
  }

  function Loud(digest: Bytes): string {
    "SHA256:" + Encode(digest)
  }

  lemma LoudParses(digest: Bytes)
    ensures ParseDigest(Loud(digest)) == Some((SHA256, digest)) && !CanonicalText(Loud(digest))
    ensures Loud(digest) != ""
  {
    hide SplitColon, Decode, Encode;
    var name := "SHA256";
    assert Lower(name) == SHA256;
    assert ':' !in name;
    assert Loud(digest) == name + ":" + Encode(digest);
    SplitsAtFirst(name, Encode(digest));
    DecodeInvertsEncode(digest);
    assert Loud(digest)[0] == 'S' && DigestText(SHA256, digest)[0] == 's';
  }

  lemma SampleIsValid(mode: string, akHash: string, pcrs: seq<int>, text: string, digest: Bytes)
    requires Text.TrimSpace(mode) == SECUREBOOT && IsSha256(akHash) && |digest| == 32
    requires Usable(Selection(SHA256, pcrs)) && 7 in pcrs
    requires ParseDigest(text) == Some((SHA256, digest))
    ensures CheckPolicy(Sample(mode, akHash, pcrs, text)).Ok?
  {
    hide Text.TrimSpace, ParseDigest, Usable, EffectiveHash, IsSha256;
    HashNamesSettled(SHA256);
  }

  /** Validation accepts a selection out of order, a digest or a key hash in
      upper case and a padded mode; none of these policies can be met. */
  lemma ValidButUnmeetable(key: Bytes, digest: Bytes)
    requires |key| == 32 && |digest| == 32
    ensures forall p | p == Sample(SECUREBOOT, DigestText(SHA256, key), [7, 0], DigestText(SHA256, digest)) ::
              CheckPolicy(p).Ok? && !Meetable(p)
    ensures forall p | p == Sample(SECUREBOOT, DigestText(SHA256, key), [0, 7], Loud(digest)) ::
              CheckPolicy(p).Ok? && !Meetable(p)
    ensures forall p | p == Sample(SECUREBOOT, Loud(key), [0, 7], DigestText(SHA256, digest)) ::
              CheckPolicy(p).Ok? && !Meetable(p)
    ensures forall p | p == Sample(" secureboot", DigestText(SHA256, key), [0, 7], DigestText(SHA256, digest)) ::
              CheckPolicy(p).Ok? && !Meetable(p)
  {
    hide DigestText, ParseDigest, EffectiveHash, Loud, Encode, CheckPolicy;
    ParseInvertsText(SHA256, key);
    ParseInvertsText(SHA256, digest);
    LoudParses(key);
    LoudParses(digest);
    HashNamesSettled(SHA256);
    assert !Strictly([7, 0]) by { assert [7, 0][0] > [7, 0][1]; }
    assert [7, 0][0] == 7 && [0, 7][1] == 7;
    PaddedMode();
    Text.TrimSpaceTrims(SECUREBOOT);
    SampleIsValid(SECUREBOOT, DigestText(SHA256, key), [7, 0], DigestText(SHA256, digest), digest);
    SampleIsValid(SECUREBOOT, DigestText(SHA256, key), [0, 7], Loud(digest), digest);
    SampleIsValid(SECUREBOOT, Loud(key), [0, 7], DigestText(SHA256, digest), digest);
    SampleIsValid(" secureboot", DigestText(SHA256, key), [0, 7], DigestText(SHA256, digest), digest);
  }

  lemma PaddedMode()
    ensures Text.TrimSpace(" secureboot") == SECUREBOOT && " secureboot" != SECUREBOOT && " secureboot" != TPM_ONLY
  {
    var s := " secureboot";
    assert s[1..] == SECUREBOOT;
    assert Text.TrimLeft(s) == Text.TrimLeft(SECUREBOOT);
    assert |s| == 11 && |SECUREBOOT| == 10 && |TPM_ONLY| == 8;
    Text.TrimSpaceTrims(SECUREBOOT);
  }

  /** Whatever quote is presented, a policy that cannot be met refuses it. */
  lemma UnmeetableIsNeverMet(tpm: Tpm, e: Evidence, nonce: Bytes, p: Policy)
    requires SizedHashes(tpm.hashes) && !Meetable(p)
    ensures EvaluatePolicy(tpm, e, nonce, p).Err?
  {
    hide EvaluatePolicy, Genuine, CheckPolicy, Describes, Meetable;
    AcceptedIff(tpm, e, nonce, p);
  }

  // ---------------------------------------------------------------------
  // Texts, policies and claims, spelled out
  // ---------------------------------------------------------------------

  lemma HexCase(c: char, n: nat)
    requires n < 16
    ensures HexValue(c) == Some(n) <==> LowerChar(c) == HexDigit(n)
  {
  }

  lemma LowerCons(s: string)
    requires |s| >= 2
    ensures Lower(s) == [LowerChar(s[0]), LowerChar(s[1])] + Lower(s[2..])
  {
  }

  /** Hexadecimal text decodes in either case. */
  lemma {:induction false} DecodeIgnoresCase(s: string, bytes: Bytes)
    ensures Decode(s) == Some(bytes) <==> Lower(s) == Encode(bytes)
    decreases |s|
  {
    hide HexValue, HexDigit, LowerChar;
    if |s| < 2 {
      EncodeLength(bytes);
      assert |Lower(s)| == |s|;
    } else if bytes == [] {
      assert |Lower(s)| == |s|;
    } else {
      LowerCons(s);
      DecodeIgnoresCase(s[2..], bytes[1..]);
      HexCase(s[0], bytes[0] / 16);
      HexCase(s[1], bytes[0] % 16);
      var low, code := Lower(s), Encode(bytes);
      assert code == [HexDigit(bytes[0] / 16), HexDigit(bytes[0] % 16)] + Encode(bytes[1..]);
      assert low == code <==> low[0] == code[0] && low[1] == code[1] && low[2..] == code[2..] by {
        assert low == [low[0], low[1]] + low[2..] && code == [code[0], code[1]] + code[2..];
      }
      assert low[2..] == Lower(s[2..]) && code[2..] == Encode(bytes[1..]);
      DecodeStep(s, bytes);
    }
  }

  lemma {:induction false} EncodeLength(bytes: Bytes)
    ensures |Encode(bytes)| == 2 * |bytes|
  {
    if bytes != [] {
      EncodeLength(bytes[1..]);
    }
  }

  lemma DecodeStep(s: string, bytes: Bytes)
    requires |s| >= 2 && bytes != []
    ensures Decode(s) == Some(bytes) <==>
              && HexValue(s[0]) == Some(bytes[0] / 16) && HexValue(s[1]) == Some(bytes[0] % 16)
              && Decode(s[2..]) == Some(bytes[1..])
  {
    assert bytes == [bytes[0]] + bytes[1..];
    if Decode(s).Some? {
      var h, l := HexValue(s[0]).value, HexValue(s[1]).value;
      assert h < 16 && l < 16 && (h * 16 + l) / 16 == h && (h * 16 + l) % 16 == l;
      assert Decode(s).value == [h * 16 + l] + Decode(s[2..]).value;
      assert Decode(s).value[1..] == Decode(s[2..]).value;
    }
    if HexValue(s[0]) == Some(bytes[0] / 16) && HexValue(s[1]) == Some(bytes[0] % 16)
       && Decode(s[2..]) == Some(bytes[1..])
    {
      assert bytes[0] / 16 * 16 + bytes[0] % 16 == bytes[0];
    }
  }

  /** A digest text is the lower-case bank, a colon and lower-case hexadecimal;
      it parses in either case. */
  lemma DigestTexts(s: string, hash: string, digest: Bytes)
    ensures HashName(hash) ==> DigestText(hash, digest) == hash + ":" + Encode(digest)
    ensures ParseDigest(s) == Some((hash, digest)) <==> HashName(hash) && Lower(s) == hash + ":" + Encode(digest)
  {
    hide Decode, Encode, SplitColon;
    if HashName(hash) {
      assert Lower(hash) == hash;
      assert ':' !in hash;
    }
    if ParseDigest(s) == Some((hash, digest)) {
      var parts := SplitColon(s).value;
      SplitParts(s);
      DecodeIgnoresCase(parts.1, digest);
      LowerConcat(parts.0, parts.1);
    }
    if HashName(hash) && Lower(s) == hash + ":" + Encode(digest) {
      var n := |hash|;
      assert |s| == |Lower(s)| && LowerChar(s[n]) == Lower(s)[n] == ':';
      var before, after := s[..n], s[n + 1..];
      assert s == before + ":" + after;
      LowerConcat(before, after);
      assert Lower(before) == Lower(s)[..n] == hash;
      assert Lower(after) == Lower(s)[n + 1..] == Encode(digest);
      NoColon(before);
      SplitsAtFirst(before, after);
      DecodeIgnoresCase(after, digest);
    }
  }

  lemma NoColon(s: string)
    requires ':' !in Lower(s)
    ensures ':' !in s
  {
    assert forall i | 0 <= i < |s| :: Lower(s)[i] in Lower(s) && (s[i] == ':' ==> Lower(s)[i] == ':');
  }

  lemma LowerConcat(a: string, b: string)
    ensures Lower(a + ":" + b) == Lower(a) + ":" + Lower(b)
  {
  }

  lemma {:induction false} SplitParts(s: string)
    requires SplitColon(s).Some?
    ensures s == SplitColon(s).value.0 + ":" + SplitColon(s).value.1
  {
    if s[0] == ':' {
      assert s == "" + ":" + s[1..];
    } else {
      SplitParts(s[1..]);
      assert s == [s[0]] + s[1..];
    }
  }

  /** The digest of a key or a nonce, as text. */
  lemma FingerprintIs(hashes: Hashes, bytes: Bytes)
    ensures Fingerprint(hashes, bytes) == "sha256:" + Encode(hashes("sha256", bytes))
  {
    hide Encode;
    DigestTexts("", SHA256, hashes(SHA256, bytes));
    assert SHA256 + ":" == "sha256:";
  }

  /** Policies that validate. */
  lemma PolicyIs(p: Policy)
    ensures CheckPolicy(p).Ok? <==>
              && Text.TrimSpace(p.mode) in {"tpm-only", "secureboot", "measured"}
              && (p.akHash == "" ||
                  (ParseDigest(p.akHash).Some? && ParseDigest(p.akHash).value.0 == "sha256"
                   && |ParseDigest(p.akHash).value.1| == 32))
              && (Text.TrimSpace(p.mode) == "secureboot" ==>
                    && p.profile == "generic-pc-secureboot" && p.pcrPolicy.Some?
                    && Usable(p.pcrPolicy.value.selection) && 7 in p.pcrPolicy.value.selection.pcrs
                    && ParseDigest(p.pcrPolicy.value.expectedDigest).Some?
                    && ParseDigest(p.pcrPolicy.value.expectedDigest).value.0
                       == EffectiveHash(p.pcrPolicy.value.selection.hash)
                    && |ParseDigest(p.pcrPolicy.value.expectedDigest).value.1|
                       == DigestSize(EffectiveHash(p.pcrPolicy.value.selection.hash)))
    ensures CheckPolicy(p) == Err(UnsupportedProfile) <==>
              && Text.TrimSpace(p.mode) == "secureboot" && p.profile !in {"", "generic-pc-secureboot"}
              && (p.akHash == "" ||
                  (ParseDigest(p.akHash).Some? && ParseDigest(p.akHash).value.0 == "sha256"
                   && |ParseDigest(p.akHash).value.1| == 32))
  {
    hide Text.TrimSpace, ParseDigest, EffectiveHash;
    assert |"tpm-only"| == 8 && |"secureboot"| == 10 && |"measured"| == 8;
  }

  /** What acceptance reports: the quote's own key, set, digest and nonce, and
      secure boot exactly under that mode. */
  lemma AcceptedClaims(tpm: Tpm, e: Evidence, nonce: Bytes, p: Policy)
    requires SizedHashes(tpm.hashes) && EvaluatePolicy(tpm, e, nonce, p).Ok?
    ensures Genuine(tpm, e, nonce)
    ensures forall claims | claims == EvaluatePolicy(tpm, e, nonce, p).value ::
              && claims.quote.akHash == Fingerprint(tpm.hashes, e.akPublic)
              && claims.quote.nonceHash == Fingerprint(tpm.hashes, nonce)
              && Normal(claims.quote.selection) && SameSet(claims.quote.selection, e.selection)
              && claims.quote.pcrDigest
                 == DigestText(EffectiveHash(e.selection.hash), Digest(tpm.hashes, e.selection, e.values.value))
              && (claims.secureBoot <==> p.mode == "secureboot")
              && claims.policyMode == p.mode && claims.profile == p.profile
  {
    hide Text.TrimSpace, Lower, Sort, EffectiveHash, DigestText, ParseDigest, Digest, Genuine, VerifyQuote,
         CheckPolicy, Usable;
    VerifiesIffGenuine(tpm, e, nonce);
    GenuineUsable(tpm, e, nonce);
    UsableIsNormal(e.selection);
    OrderedDigest(tpm.hashes, e.selection, e.values.value);
    assert |"tpm-only"| == 8 && |"secureboot"| == 10;
  }
}
