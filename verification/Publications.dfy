/** Publishing node evidence, spelled out: when a publication that nothing
    disturbs is stored, what it then changes, and what a stored row says about
    the publication behind it, in every interleaving. */
module Publications {
  import opened EvidenceRuns
  import opened EvidenceStore
  import opened Hex
  import opened Maps
  import opened Results
  import opened Times
  import C = Challenges
  import L = EvidenceTtl
  import T = TpmPolicy
  import Text

  // ---------------------------------------------------------------------
  // What a submission has to meet
  // ---------------------------------------------------------------------

  /** Fields without surrounding space, the required ones present, and a lifetime
      of at most a year. */
  predicate Sound(sub: Submission) {
    && Text.Trimmed(sub.node.clusterId) && Text.Trimmed(sub.node.name) && Text.Trimmed(sub.uid)
    && Text.Trimmed(sub.provider) && Text.Trimmed(sub.format) && Text.Trimmed(sub.challengeId)
    && "" !in {sub.node.clusterId, sub.node.name, sub.provider, sub.format, sub.challengeId}
    && 0 < |sub.payload| <= 1_048_576 && 0 < sub.ttlSeconds <= 31_536_000
  }

  /** The lifetime granted, in nanoseconds. */
  function Lifetime(b: Broker, sub: Submission): int {
    L.Min(sub.ttlSeconds * 1_000_000_000, if b.ttl <= 0 then 300_000_000_000 else b.ttl)
  }

  /** An unused challenge for publishing as this subject, unexpired. */
  predicate ChallengeStands(s: State, sub: Submission, subject: string, now: int) {
    && sub.challengeId in s.challenges && !s.challenges[sub.challengeId].consumed
    && var c := s.challenges[sub.challengeId].challenge;
    && c.clusterId == sub.node.clusterId && c.operation == C.ENROLL && c.subject == subject && now < c.expiresAt
  }

  function Nonce(s: State, sub: Submission): Bytes
    requires sub.challengeId in s.challenges
  {
    s.challenges[sub.challengeId].challenge.nonce
  }

  /** The node is enrolled for TPM evidence under this UID, and the certificate is
      one of its publishers'. */
  predicate PublisherStands(s: State, sub: Submission, cert: string) {
    && sub.node in s.st.enrollments
    && var row := s.st.enrollments[sub.node];
    && row.revokedAt.None? && row.provider == "generic-tpm2-quote" && row.uid == sub.uid
    && Canonical(cert) && sub.node in s.st.publishers && cert in s.st.publishers[sub.node]
  }

  predicate QuoteStands(b: Broker, sub: Submission, nonce: Bytes, policy: T.Policy) {
    && sub.format == "openbao-attested-unseal.tpm2-quote.v1"
    && b.parse(sub.payload).Some? && b.parse(sub.payload).value.challengeId == sub.challengeId
    && T.EvaluatePolicy(b.tpm, b.parse(sub.payload).value, nonce, policy).Ok?
  }

  predicate FakeStands(b: Broker, sub: Submission, nonce: Bytes) {
    && sub.format == "openbao-attested-unseal.fake-local.v1" && nonce != []
    && sub.payload == b.fakePayload(sub.node, sub.uid, sub.challengeId, nonce)
  }

  /** The record can be stored: its times and hash are there, and so is what its
      row refers to. */
  predicate RecordStands(b: Broker, s: State, sub: Submission, now: int) {
    && now != ZERO_TIME && now + Lifetime(b, sub) != ZERO_TIME && Text.TrimSpace(b.payloadHash(sub.payload)) != ""
    && if sub.provider == "generic-tpm2-quote"
       then sub.node in s.st.enrollments && 1 <= s.st.enrollments[sub.node].revision <= 0x7fff_ffff_ffff_ffff
       else sub.node.clusterId in s.st.clusters
  }

  predicate TpmStands(b: Broker, s: State, sub: Submission, cert: string, now: int) {
    && sub.provider == "generic-tpm2-quote" && "generic-tpm2-quote" in b.providers
    && PublisherStands(s, sub, cert)
    && ChallengeStands(s, sub, b.challengeSubject(sub.node, sub.uid, "generic-tpm2-quote", cert), now)
    && QuoteStands(b, sub, Nonce(s, sub), s.st.enrollments[sub.node].policy)
  }

  predicate SyntheticStands(b: Broker, s: State, sub: Submission, now: int) {
    && sub.provider == "fake-local" && (b.allowFake || "fake-local" in b.providers)
    && ChallengeStands(s, sub, b.challengeSubject(sub.node, sub.uid, "fake-local", ""), now)
    && FakeStands(b, sub, Nonce(s, sub))
  }

  /** All that is asked for before the challenge is used up. */
  predicate Payable(b: Broker, s: State, sub: Submission, cert: string, now: int) {
    && Sound(sub) && (b.clusterId == "" || b.clusterId == sub.node.clusterId)
    && (TpmStands(b, s, sub, cert, now) || SyntheticStands(b, s, sub, now))
  }

  // ---------------------------------------------------------------------
  // The same, as the steps ask for it
  // ---------------------------------------------------------------------

  /** The certificate and trust that authorization goes on with. */
  function CertOf(sub: Submission, cert: string): string {
    if sub.provider == TPM_QUOTE then cert else ""
  }

  function TrustFor(s: State, sub: Submission): Option<Captured> {
    if sub.provider != TPM_QUOTE || sub.node !in s.st.enrollments then None
    else Some(Captured(s.st.enrollments[sub.node],
                       if sub.node in s.st.publishers then s.st.publishers[sub.node] else {}))
  }

  predicate AuthorizationPasses(b: Broker, s: State, sub: Submission, cert: string) {
    && Admitted(b, sub)
    && (sub.provider == TPM_QUOTE ==>
          && sub.node in s.st.enrollments && s.st.enrollments[sub.node].revokedAt.None?
          && Authorizes(TrustFor(s, sub).value, sub, cert))
  }

  predicate PaymentPasses(b: Broker, s: State, sub: Submission, cert: string, trust: Option<Captured>, now: int) {
    && C.Judge(s.challenges, ClaimOf(b, sub, cert, now)).Ok?
    && Verifies(b, sub, C.Judge(s.challenges, ClaimOf(b, sub, cert, now)).value, trust)
  }

  /** Everything but the agents is as it was. */
  predicate Quiet(s: State, s': State) {
    s' == s.(agents := s'.agents)
  }

  lemma IdleStays(b: Broker, s: State, agent: nat, e: Event)
    requires At(s, agent).Idle?
    requires e.ReadCertificates? || e.PeekAndVerify? || e.Pay? || e.Prune? || e.Publish?
    requires e.agent == agent
    ensures After(b, s, e) == s
  {
  }

  /** Where the first read leaves a submission. */
  function RowState(b: Broker, s: State, sub: Submission, cert: string): Agent {
    if !Admitted(b, sub) then Idle
    else if sub.provider != TPM_QUOTE then Authorized(sub, "", None)
    else if sub.node in s.st.enrollments && s.st.enrollments[sub.node].revokedAt.None?
    then RowRead(sub, cert, s.st.enrollments[sub.node])
    else Idle
  }

  lemma RowStep(b: Broker, s: State, agent: nat, sub: Submission, cert: string)
    requires At(s, agent).Idle?
    ensures Quiet(s, After(b, s, ReadRow(agent, sub, cert)))
    ensures At(After(b, s, ReadRow(agent, sub, cert)), agent) == RowState(b, s, sub, cert)
  {
    hide Admitted;
  }

  lemma CertificateStep(b: Broker, s: State, agent: nat, sub: Submission, cert: string)
    requires At(s, agent) == RowState(b, s, sub, cert)
    ensures Quiet(s, AfterReadCertificates(s, agent))
    ensures At(AfterReadCertificates(s, agent), agent)
            == if AuthorizationPasses(b, s, sub, cert) then Authorized(sub, CertOf(sub, cert), TrustFor(s, sub))
               else Idle
  {
    hide Admitted, Authorizes;
  }

  lemma AuthorizationStep(b: Broker, s: State, agent: nat, sub: Submission, cert: string)
    requires At(s, agent).Idle?
    ensures forall s' | s' == After(b, After(b, s, ReadRow(agent, sub, cert)), ReadCertificates(agent)) ::
              && Quiet(s, s')
              && At(s', agent) == if AuthorizationPasses(b, s, sub, cert)
                                  then Authorized(sub, CertOf(sub, cert), TrustFor(s, sub)) else Idle
  {
    hide Admitted, Authorizes, AfterReadCertificates, AfterReadRow;
    RowStep(b, s, agent, sub, cert);
    CertificateStep(b, After(b, s, ReadRow(agent, sub, cert)), agent, sub, cert);
  }

  lemma PaymentStep(b: Broker, s: State, agent: nat, a: Agent, now: int)
    requires At(s, agent) == a && a.Authorized?
    ensures forall s' | s' == After(b, After(b, s, PeekAndVerify(agent, now)), Pay(agent)) ::
              if PaymentPasses(b, s, a.sub, a.cert, a.trust, now)
              then
                && Quiet(s.(challenges := C.Consumed(s.challenges, ClaimOf(b, a.sub, a.cert, now))), s')
                && At(s', agent) == Paid(a.sub, a.cert, a.trust,
                                         C.Judge(s.challenges, ClaimOf(b, a.sub, a.cert, now)).value, now)
              else Quiet(s, s') && At(s', agent).Idle?
  {
    hide Verifies, C.Judge, C.Consumed;
  }

  /** Rows of the cluster that expired before the cutoff are gone. */
  ghost predicate PrunedTo(before: map<Node, Record>, after: map<Node, Record>, clusterId: string, cutoff: int) {
    && (forall n :: n in after <==> n in before && (n.clusterId != clusterId || before[n].expiresAt >= cutoff))
    && (forall n | n in after :: after[n] == before[n])
  }

  lemma PruneStep(b: Broker, s: State, agent: nat, clock: int)
    requires At(s, agent).Paid?
    ensures forall s', a | s' == After(b, s, Prune(agent, clock)) && a == At(s, agent) ::
              && Quiet(s.(st := s.st.(evidence := s'.st.evidence)), s')
              && PrunedTo(s.st.evidence, s'.st.evidence, a.sub.node.clusterId, Cutoff(clock, b.retention))
              && At(s', agent) == Pruned(a.sub, a.cert, a.trust, a.nonce, a.now)
  {
    hide Cutoff;
  }

  lemma PublishStep(b: Broker, s: State, agent: nat, a: Agent)
    requires At(s, agent) == a && a.Pruned?
    ensures Stored(b, s.st, a.sub, a.now, a.trust).Ok? ==>
              Quiet(Published(s, Stored(b, s.st, a.sub, a.now, a.trust).value, Proof(a.sub, a.cert, a.nonce, a.now)),
                    After(b, s, Publish(agent)))
    ensures Stored(b, s.st, a.sub, a.now, a.trust).Err? ==> Quiet(s, After(b, s, Publish(agent)))
  {
    hide Stored;
  }

  // ---------------------------------------------------------------------
  // Both readings agree
  // ---------------------------------------------------------------------

  lemma SoundIs(b: Broker, sub: Submission)
    ensures ValidSubmission(sub) && |sub.payload| <= MAX_PAYLOAD <==> Sound(sub)
    ensures Sound(sub) ==> RecordOf(b, sub, 0).expiresAt == Lifetime(b, sub) && Lifetime(b, sub) > 0
    ensures Sound(sub) ==> forall now :: RecordOf(b, sub, now).expiresAt == now + Lifetime(b, sub)
  {
    hide Text.Trimmed;
  }

  lemma ChallengeIs(b: Broker, s: State, sub: Submission, cert: string, now: int)
    ensures C.Judge(s.challenges, ClaimOf(b, sub, cert, now)).Ok? <==>
              ChallengeStands(s, sub, b.challengeSubject(sub.node, sub.uid, sub.provider, CertOf(sub, cert)), now)
    ensures C.Judge(s.challenges, ClaimOf(b, sub, cert, now)).Ok? ==>
              C.Judge(s.challenges, ClaimOf(b, sub, cert, now)).value == Nonce(s, sub)
    ensures C.Judge(s.challenges, ClaimOf(b, sub, cert, now)).Ok? ==>
              Sets(s.challenges, C.Consumed(s.challenges, ClaimOf(b, sub, cert, now)), sub.challengeId,
                   C.Issued(s.challenges[sub.challengeId].challenge, true))
  {
  }

  /** A step by step passage through authorization and payment. */
  predicate Passes(b: Broker, s: State, sub: Submission, cert: string, now: int) {
    && AuthorizationPasses(b, s, sub, cert)
    && PaymentPasses(b, s, sub, CertOf(sub, cert), TrustFor(s, sub), now)
  }

  lemma TpmPasses(b: Broker, s: State, sub: Submission, cert: string, now: int)
    requires Sound(sub) && sub.provider == TPM_QUOTE
    ensures Passes(b, s, sub, cert, now) <==> Payable(b, s, sub, cert, now)
    ensures Passes(b, s, sub, cert, now) ==>
              (Stored(b, s.st, sub, now, TrustFor(s, sub)).Ok? <==> RecordStands(b, s, sub, now))
  {
    hide Text.TrimSpace, Canonical, T.EvaluatePolicy, C.Judge, Text.Trimmed, ChallengeStands, PutEnrolled, L.Min,
         Lifetime;
    SoundIs(b, sub);
    ChallengeIs(b, s, sub, cert, now);
    NamesAreTrimmed(sub);
    if sub.node in s.st.enrollments {
      PutEnrolledWrites(s.st, sub.node, RecordOf(b, sub, now), s.st.enrollments[sub.node].revision);
    }
  }

  lemma NamesAreTrimmed(sub: Submission)
    requires Sound(sub)
    ensures TrimmedNode(sub.node) == sub.node
    ensures Text.TrimSpace(sub.uid) == sub.uid && Text.TrimSpace(sub.provider) == sub.provider
    ensures Text.TrimSpace(sub.node.clusterId) == sub.node.clusterId && Text.TrimSpace(sub.node.name) == sub.node.name
  {
    hide Text.TrimSpace, Text.Trimmed;
    Text.TrimSpaceTrims(sub.node.clusterId);
    Text.TrimSpaceTrims(sub.node.name);
    Text.TrimSpaceTrims(sub.uid);
    Text.TrimSpaceTrims(sub.provider);
  }

  lemma SyntheticPasses(b: Broker, s: State, sub: Submission, cert: string, now: int)
    requires Sound(sub) && sub.provider != TPM_QUOTE
    ensures Passes(b, s, sub, cert, now) <==> Payable(b, s, sub, cert, now)
    ensures Passes(b, s, sub, cert, now) ==>
              (Stored(b, s.st, sub, now, TrustFor(s, sub)).Ok? <==> RecordStands(b, s, sub, now))
  {
    hide Text.TrimSpace, C.Judge, Text.Trimmed, ChallengeStands, Put, L.Min, Lifetime;
    SoundIs(b, sub);
    ChallengeIs(b, s, sub, "", now);
    NamesAreTrimmed(sub);
    PutWrites(s.st, sub.node, RecordOf(b, sub, now));
  }

  // ---------------------------------------------------------------------
  // The publication that nothing disturbs
  // ---------------------------------------------------------------------

  /** The row a publication stores: under the enrollment's revision for TPM
      evidence, under none for synthetic evidence. */
  function Row(b: Broker, s: State, sub: Submission, now: int): Record {
    Record(sub.uid, sub.provider, Text.TrimSpace(b.payloadHash(sub.payload)), now, now + Lifetime(b, sub),
           if sub.provider == "generic-tpm2-quote" && sub.node in s.st.enrollments
           then Some(s.st.enrollments[sub.node].revision) else None)
  }

  /** What a publication that was paid for changes: its challenge is used up, its
      cluster's long expired rows are pruned, and its own row is written if it can
      be stored. */
  ghost predicate Stores(b: Broker, s: State, s': State, sub: Submission, cert: string, now: int, clock: int)
    requires sub.challengeId in s.challenges
  {
    && Sets(s.challenges, s'.challenges, sub.challengeId, C.Issued(s.challenges[sub.challengeId].challenge, true))
    && if RecordStands(b, s, sub, now)
       then
         && s'.published == s.published + [Proof(sub, CertOf(sub, cert), Nonce(s, sub), now)]
         && exists kept ::
              && PrunedTo(s.st.evidence, kept, sub.node.clusterId, Cutoff(clock, b.retention))
              && Sets(kept, s'.st.evidence, sub.node, Row(b, s, sub, now))
       else
         && s'.published == s.published
         && PrunedTo(s.st.evidence, s'.st.evidence, sub.node.clusterId, Cutoff(clock, b.retention))
  }

  /** Left undisturbed, a publication is paid for if and only if it is payable, is
      then stored if and only if its record can be, and changes exactly this; one
      that is not payable changes nothing. */
  lemma PublishesIff(b: Broker, s: State, agent: nat, sub: Submission, cert: string, now: int, clock: int)
    requires At(s, agent).Idle?
    ensures forall s' | s' == Run(b, s, Program(agent, sub, cert, now, clock)) ::
              && s'.trusts == s.trusts && s'.st == s.st.(evidence := s'.st.evidence)
              && if Payable(b, s, sub, cert, now) then Stores(b, s, s', sub, cert, now, clock) else Quiet(s, s')
  {
    hide After, Run, Payable, Passes, Stores;
    var e0, e1, e2, e3 := ReadRow(agent, sub, cert), ReadCertificates(agent), PeekAndVerify(agent, now), Pay(agent);
    var e4, e5 := Prune(agent, clock), Publish(agent);
    SixSteps(b, s, e0, e1, e2, e3, e4, e5);
    var s2 := After(b, After(b, s, e0), e1);
    AuthorizationStep(b, s, agent, sub, cert);
    PassesIs(b, s, sub, cert, now);
    if AuthorizationPasses(b, s, sub, cert) {
      FromAuthorized(b, s, s2, agent, sub, cert, now, clock);
    } else {
      Unauthorized(b, s, sub, cert, now);
      IdleRuns(b, s2, agent, now, clock);
    }
  }

  lemma PassesIs(b: Broker, s: State, sub: Submission, cert: string, now: int)
    ensures Passes(b, s, sub, cert, now) <==> Payable(b, s, sub, cert, now)
    ensures Passes(b, s, sub, cert, now) ==>
              (Stored(b, s.st, sub, now, TrustFor(s, sub)).Ok? <==> RecordStands(b, s, sub, now))
  {
    hide Passes, Payable, Stored, RecordStands;
    if !Sound(sub) {
      UnsoundFails(b, s, sub, cert, now);
    } else if sub.provider == TPM_QUOTE {
      TpmPasses(b, s, sub, cert, now);
    } else {
      SyntheticPasses(b, s, sub, cert, now);
    }
  }

  lemma UnsoundFails(b: Broker, s: State, sub: Submission, cert: string, now: int)
    requires !Sound(sub)
    ensures !Passes(b, s, sub, cert, now) && !Payable(b, s, sub, cert, now)
  {
    hide Text.TrimSpace, Text.Trimmed, Sound, ValidSubmission, Stored, C.Judge, QuoteMeets, Authorizes;
    SoundIs(b, sub);
  }

  lemma Unauthorized(b: Broker, s: State, sub: Submission, cert: string, now: int)
    requires !AuthorizationPasses(b, s, sub, cert)
    ensures !Passes(b, s, sub, cert, now)
  {
    hide AuthorizationPasses;
  }

  lemma IdleRuns(b: Broker, s: State, agent: nat, now: int, clock: int)
    requires At(s, agent).Idle?
    ensures After(b, After(b, s, PeekAndVerify(agent, now)), Pay(agent)) == s
    ensures After(b, After(b, s, Prune(agent, clock)), Publish(agent)) == s
  {
    hide After;
    IdleStays(b, s, agent, PeekAndVerify(agent, now));
    IdleStays(b, s, agent, Pay(agent));
    IdleStays(b, s, agent, Prune(agent, clock));
    IdleStays(b, s, agent, Publish(agent));
  }

  lemma FromAuthorized(b: Broker, s: State, s2: State, agent: nat, sub: Submission, cert: string, now: int, clock: int)
    requires Quiet(s, s2) && AuthorizationPasses(b, s, sub, cert)
    requires At(s2, agent) == Authorized(sub, CertOf(sub, cert), TrustFor(s, sub))
    ensures forall s4 | s4 == After(b, After(b, s2, PeekAndVerify(agent, now)), Pay(agent)) ::
              forall s' | s' == After(b, After(b, s4, Prune(agent, clock)), Publish(agent)) ::
                && s'.trusts == s.trusts && s'.st == s.st.(evidence := s'.st.evidence)
                && if Payable(b, s, sub, cert, now) then Stores(b, s, s', sub, cert, now, clock) else Quiet(s, s')
  {
    hide After, Payable, AuthorizationPasses, PaymentPasses, Stored, C.Judge, C.Consumed, Stores;
    PassesIs(b, s, sub, cert, now);
    PaymentStep(b, s2, agent, At(s2, agent), now);
    var trust := TrustFor(s, sub);
    var s4 := After(b, After(b, s2, PeekAndVerify(agent, now)), Pay(agent));
    PaymentAlike(b, s, s2, sub, CertOf(sub, cert), trust, now);
    if PaymentPasses(b, s, sub, CertOf(sub, cert), trust, now) {
      QuietThrough(s, s2, s4, C.Consumed(s.challenges, ClaimOf(b, sub, CertOf(sub, cert), now)));
      FromPaid(b, s, s4, agent, sub, cert, now, clock);
    } else {
      IdleRuns(b, s4, agent, now, clock);
    }
  }

  lemma QuietThrough(s: State, s': State, s'': State, challenges: map<string, C.Issued>)
    requires Quiet(s, s') && Quiet(s'.(challenges := challenges), s'')
    ensures Quiet(s.(challenges := challenges), s'')
  {
  }

  lemma PaymentAlike(b: Broker, s: State, s': State, sub: Submission, cert: string, trust: Option<Captured>, now: int)
    requires Quiet(s, s')
    ensures PaymentPasses(b, s', sub, cert, trust, now) <==> PaymentPasses(b, s, sub, cert, trust, now)
  {
  }

  lemma FromPaid(b: Broker, s: State, s4: State, agent: nat, sub: Submission, cert: string, now: int, clock: int)
    requires AuthorizationPasses(b, s, sub, cert)
    requires PaymentPasses(b, s, sub, CertOf(sub, cert), TrustFor(s, sub), now)
    requires Quiet(s.(challenges := C.Consumed(s.challenges, ClaimOf(b, sub, CertOf(sub, cert), now))), s4)
    requires At(s4, agent) == Paid(sub, CertOf(sub, cert), TrustFor(s, sub),
                                   C.Judge(s.challenges, ClaimOf(b, sub, CertOf(sub, cert), now)).value, now)
    ensures forall s' | s' == After(b, After(b, s4, Prune(agent, clock)), Publish(agent)) ::
              && s'.trusts == s.trusts && s'.st == s.st.(evidence := s'.st.evidence)
              && if Payable(b, s, sub, cert, now) then Stores(b, s, s', sub, cert, now, clock) else Quiet(s, s')
  {
    hide After, Payable, AuthorizationPasses, C.Judge, C.Consumed, Stored, Verifies;
    PassesIs(b, s, sub, cert, now);
    PruneStep(b, s4, agent, clock);
    var s5 := After(b, s4, Prune(agent, clock));
    PublishStep(b, s5, agent, At(s5, agent));
    ChallengeIs(b, s, sub, CertOf(sub, cert), now);
    var trust := TrustFor(s, sub);
    StoredAlike(b, s.st, s5.st, sub, now, trust);
    if Stored(b, s5.st, sub, now, trust).Ok? {
      var s' := After(b, s5, Publish(agent));
      RowIs(b, s, s5.st, sub, cert, now);
      assert Sets(s5.st.evidence, s'.st.evidence, sub.node, Row(b, s, sub, now));
    }
  }

  /** Whether a row can be stored does not depend on the rows there. */
  lemma StoredAlike(b: Broker, st: Store, st': Store, sub: Submission, now: int, trust: Option<Captured>)
    requires st' == st.(evidence := st'.evidence)
    ensures Stored(b, st, sub, now, trust).Ok? <==> Stored(b, st', sub, now, trust).Ok?
  {
    hide Text.TrimSpace, Normalized;
  }

  lemma RowIs(b: Broker, s: State, st: Store, sub: Submission, cert: string, now: int)
    requires Passes(b, s, sub, cert, now)
    requires st == s.st.(evidence := st.evidence) && Stored(b, st, sub, now, TrustFor(s, sub)).Ok?
    ensures forall st' | st' == Stored(b, st, sub, now, TrustFor(s, sub)).value ::
              Sets(st.evidence, st'.evidence, sub.node, Row(b, s, sub, now)) && st' == st.(evidence := st'.evidence)
  {
    hide Text.TrimSpace, Text.Trimmed, PutEnrolled, Put, C.Judge, QuoteMeets, L.Min, Lifetime, Sound, ValidSubmission,
         Authorizes;
    SoundIs(b, sub);
    NamesAreTrimmed(sub);
    if sub.provider == TPM_QUOTE {
      PutEnrolledWrites(st, sub.node, RecordOf(b, sub, now), s.st.enrollments[sub.node].revision);
    } else {
      PutWrites(st, sub.node, RecordOf(b, sub, now));
    }
  }

  // ---------------------------------------------------------------------
  // Reading a stored row back, in every interleaving
  // ---------------------------------------------------------------------

  /** The publication behind a row: sound, for this node, cluster and UID, within
      the limits, and paid for by a challenge of its own, now used up. */
  predicate PaidRow(b: Broker, s: State, node: Node, record: Record, p: Proof) {
    && p in s.published && p.sub.node == node && p.sub.uid == record.uid && p.sub.provider == record.provider
    && Sound(p.sub) && (b.clusterId == "" || b.clusterId == node.clusterId)
    && p.sub.challengeId in s.challenges && s.challenges[p.sub.challengeId].consumed
    && var c := s.challenges[p.sub.challengeId].challenge;
    && c.clusterId == node.clusterId && c.operation == C.ENROLL && p.now < c.expiresAt && c.nonce == p.nonce
    && c.subject == b.challengeSubject(node, record.uid, record.provider,
                                       if record.provider == "generic-tpm2-quote" then p.cert else "")
    && record.collectedAt == p.now && record.expiresAt == p.now + Lifetime(b, p.sub)
    && record.hash == Text.TrimSpace(b.payloadHash(p.sub.payload))
  }

  /** The trust behind a TPM row: the node is actively enrolled at the revision
      the row carries, and that is the policy and the publishers it was checked
      against. */
  predicate TrustedRow(b: Broker, s: State, node: Node, record: Record, p: Proof) {
    && "generic-tpm2-quote" in b.providers
    && record.revision.Some? && node in s.st.enrollments
    && var row := s.st.enrollments[node];
    && row.revokedAt.None? && row.revision == record.revision.value && row.uid == record.uid
    && row.provider == "generic-tpm2-quote"
    && (node, row.revision) in s.trusts
    && var t := s.trusts[(node, row.revision)];
    && t.node == node && t.uid == record.uid && t.policy == row.policy && p.cert in t.publishers
    && QuoteStands(b, p.sub, p.nonce, row.policy)
  }

  /** In every interleaving a stored row is either TPM evidence with the trust of
      its node as it stands behind it, or synthetic evidence where that is
      enabled; both were paid for. */
  lemma StoredRowSays(b: Broker, clusters: set<string>, events: seq<Event>, node: Node)
    requires node in Run(b, Initial(clusters), events).st.evidence
    ensures forall s | s == Run(b, Initial(clusters), events) ::
              && node in s.proofs
              && PaidRow(b, s, node, s.st.evidence[node], s.proofs[node])
              && if s.st.evidence[node].provider == "generic-tpm2-quote"
                 then TrustedRow(b, s, node, s.st.evidence[node], s.proofs[node])
                 else
                   && s.st.evidence[node].provider == "fake-local" && s.st.evidence[node].revision.None?
                   && (b.allowFake || "fake-local" in b.providers)
                   && FakeStands(b, s.proofs[node].sub, s.proofs[node].nonce)
  {
    hide Run, PaidRow, TrustedRow, Explained, Agents, AllPaid, Separate, History;
    InitialGood(b, clusters);
    RunKeepsGood(b, Initial(clusters), events);
    var s := Run(b, Initial(clusters), events);
    assert Explained(b, s, node);
    ExplainedRow(b, s, node);
  }

  lemma ExplainedRow(b: Broker, s: State, node: Node)
    requires node in s.st.evidence && Explained(b, s, node)
    ensures node in s.proofs && PaidRow(b, s, node, s.st.evidence[node], s.proofs[node])
    ensures if s.st.evidence[node].provider == "generic-tpm2-quote"
            then TrustedRow(b, s, node, s.st.evidence[node], s.proofs[node])
            else
              && s.st.evidence[node].provider == "fake-local" && s.st.evidence[node].revision.None?
              && (b.allowFake || "fake-local" in b.providers)
              && FakeStands(b, s.proofs[node].sub, s.proofs[node].nonce)
  {
    hide Text.TrimSpace, Text.Trimmed, T.EvaluatePolicy, L.Min, Lifetime, Sound, ValidSubmission, L.AcceptedTtl;
    var p := s.proofs[node];
    SoundIs(b, p.sub);
    assert RecordOf(b, p.sub, p.now).expiresAt == p.now + Lifetime(b, p.sub);
  }
}
