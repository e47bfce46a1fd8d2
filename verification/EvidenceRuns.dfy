/** Publishing node evidence as an interleaved protocol. A publisher reads the
    enrollment row, then the publisher certificates, peeks at the challenge and
    verifies, consumes the challenge, prunes, and stores; administrators enroll
    and revoke, and other calls consume challenges, between any two steps. */
module EvidenceRuns {
  import opened Hex
  import opened Results
  import opened EvidenceStore
  import opened Times
  import C = Challenges
  import L = EvidenceTtl
  import T = TpmPolicy
  import Text

  /** Configuration, and the foreign functions: decoding of evidence, hashes of
      payloads and of challenge subjects, and synthetic payloads. */
  datatype Broker = Broker(
    tpm: T.Tpm,
    parse: Bytes -> Option<T.Evidence>,
    payloadHash: Bytes -> string,
    challengeSubject: (Node, string, string, string) -> string,
    fakePayload: (Node, string, string, Bytes) -> Bytes,
    clusterId: string, providers: set<string>, allowFake: bool, ttl: int, retention: int)

  const TPM_FORMAT := "openbao-attested-unseal.tpm2-quote.v1"
  const FAKE_FORMAT := "openbao-attested-unseal.fake-local.v1"
  const MAX_PAYLOAD := 1024 * 1024

  datatype Submission = Submission(
    node: Node, uid: string, provider: string, format: string, payload: Bytes, challengeId: string, ttlSeconds: int)

  /** A submission after its names were trimmed and its fields checked. */
  predicate ValidSubmission(sub: Submission) {
    && Text.Trimmed(sub.node.clusterId) && Text.Trimmed(sub.node.name) && Text.Trimmed(sub.uid)
    && Text.Trimmed(sub.provider) && Text.Trimmed(sub.format) && Text.Trimmed(sub.challengeId)
    && sub.node.clusterId != "" && sub.node.name != "" && sub.provider != ""
    && sub.format != "" && sub.payload != [] && sub.challengeId != ""
    && L.RequestedTtl(sub.ttlSeconds).Some?
  }

  predicate Enabled(b: Broker, provider: string) {
    (provider == FAKE_LOCAL && b.allowFake) || provider in b.providers
  }

  predicate Admitted(b: Broker, sub: Submission) {
    && ValidSubmission(sub)
    && (b.clusterId == "" || b.clusterId == sub.node.clusterId)
    && Enabled(b, sub.provider)
  }

  /** What authorization captured: the row of one read and the certificates of
      another. */
  datatype Captured = Captured(row: Enrollment, certificates: set<string>)

  datatype Agent =
    | Idle
    | RowRead(sub: Submission, cert: string, row: Enrollment)
    | Authorized(sub: Submission, cert: string, trust: Option<Captured>)
    | Verified(sub: Submission, cert: string, trust: Option<Captured>, nonce: Bytes, now: int)
    | Paid(sub: Submission, cert: string, trust: Option<Captured>, nonce: Bytes, now: int)
    | Pruned(sub: Submission, cert: string, trust: Option<Captured>, nonce: Bytes, now: int)

  /** The publication that stored a row. */
  datatype Proof = Proof(sub: Submission, cert: string, nonce: Bytes, now: int)

  /** `trusts` is the history of what was enrolled under each revision, `proofs`
      says which publication stored a node's evidence, and `published` lists all
      publications so far. */
  datatype State = State(
    st: Store, challenges: map<string, C.Issued>, agents: map<nat, Agent>,
    trusts: map<(Node, nat), Trust>, proofs: map<Node, Proof>, published: seq<Proof>)

  datatype Event =
    | Enroll(request: Request)
    | Revoke(node: Node, now: int)
    | Issue(challenge: C.Challenge)
    | Spend(claim: C.Claim)
    | ReadRow(agent: nat, sub: Submission, cert: string)
    | ReadCertificates(agent: nat)
    | PeekAndVerify(agent: nat, now: int)
    | Pay(agent: nat)
    | Prune(agent: nat, clock: int)
    | Publish(agent: nat)
    | Abort(agent: nat)

  function At(s: State, agent: nat): Agent {
    if agent in s.agents then s.agents[agent] else Idle
  }

  function Move(s: State, agent: nat, to: Agent): State {
    s.(agents := s.agents[agent := to])
  }

  // ---------------------------------------------------------------------
  // Steps of a publisher
  // ---------------------------------------------------------------------

  /** A publisher identifies itself only for TPM evidence. */
  function PublisherId(sub: Submission, cert: string): string {
    if sub.provider == TPM_QUOTE then cert else ""
  }

  function ClaimOf(b: Broker, sub: Submission, cert: string, now: int): C.Claim {
    C.Claim(sub.challengeId, sub.node.clusterId,
            b.challengeSubject(sub.node, sub.uid, sub.provider, PublisherId(sub, cert)), C.ENROLL, now)
  }

  predicate Authorizes(captured: Captured, sub: Submission, cert: string) {
    && captured.row.provider == sub.provider && captured.row.uid == sub.uid
    && Canonical(cert) && cert in captured.certificates
  }

  /** The quote in the payload meets the policy for this nonce and challenge. */
  predicate QuoteMeets(b: Broker, sub: Submission, nonce: Bytes, policy: T.Policy) {
    && sub.format == TPM_FORMAT
    && b.parse(sub.payload).Some?
    && b.parse(sub.payload).value.challengeId == sub.challengeId
    && T.EvaluatePolicy(b.tpm, b.parse(sub.payload).value, nonce, policy).Ok?
  }

  predicate Verifies(b: Broker, sub: Submission, nonce: Bytes, trust: Option<Captured>) {
    && |sub.payload| <= MAX_PAYLOAD
    && if sub.provider == FAKE_LOCAL then
         sub.format == FAKE_FORMAT && nonce != []
         && sub.payload == b.fakePayload(sub.node, sub.uid, sub.challengeId, nonce)
       else
         && sub.provider == TPM_QUOTE && trust.Some?
         && trust.value.row.revokedAt.None? && Text.TrimSpace(trust.value.row.uid) == sub.uid
         && QuoteMeets(b, sub, nonce, trust.value.row.policy)
  }

  function RecordOf(b: Broker, sub: Submission, now: int): Record {
    Record(sub.uid, sub.provider, b.payloadHash(sub.payload), now,
           now + L.AcceptedTtl(b.ttl, sub.ttlSeconds * SECOND), None)
  }

  function Stored(b: Broker, st: Store, sub: Submission, now: int, trust: Option<Captured>): Result<Store, Error> {
    if sub.provider == TPM_QUOTE then
      match trust
      case None => Err(EnrollmentChanged)
      case Some(captured) => PutEnrolled(st, sub.node, RecordOf(b, sub, now), captured.row.revision)
    else Put(st, sub.node, RecordOf(b, sub, now))
  }

  // ---------------------------------------------------------------------
  // The transition function
  // ---------------------------------------------------------------------

  function After(b: Broker, s: State, e: Event): State {
    match e
    case Enroll(request) => if ValidRequest(request) then AfterEnroll(s, TrustOf(request)) else s
    case Revoke(node, now) => s.(st := EvidenceStore.Revoked(s.st, node, now))
    case Issue(c) => if c.id in s.challenges then s else s.(challenges := s.challenges[c.id := C.Issued(c, false)])
    case Spend(claim) => s.(challenges := C.Consumed(s.challenges, claim))
    case ReadRow(agent, sub, cert) => if Admitted(b, sub) then AfterReadRow(s, agent, sub, cert) else s
    case ReadCertificates(agent) => AfterReadCertificates(s, agent)
    case PeekAndVerify(agent, now) => AfterPeek(b, s, agent, now)
    case Pay(agent) => AfterPay(b, s, agent)
    case Prune(agent, clock) => AfterPrune(b, s, agent, clock)
    case Publish(agent) => AfterPublish(b, s, agent)
    case Abort(agent) => Move(s, agent, Idle)
  }

  function AfterEnroll(s: State, t: Trust): State {
    if !Enrolls(s.st, t) then s
    else s.(st := EvidenceStore.Enrolled(s.st, t), trusts := s.trusts[(t.node, Revision(s.st, t.node) + 1) := t])
  }

  function AfterReadRow(s: State, agent: nat, sub: Submission, cert: string): State {
    if sub.provider != TPM_QUOTE then Move(s, agent, Authorized(sub, "", None))
    else if sub.node in s.st.enrollments && s.st.enrollments[sub.node].revokedAt.None? then
      Move(s, agent, RowRead(sub, cert, s.st.enrollments[sub.node]))
    else s
  }

  function AfterReadCertificates(s: State, agent: nat): State {
    match At(s, agent)
    case RowRead(sub, cert, row) =>
      var captured := Captured(row, if sub.node in s.st.publishers then s.st.publishers[sub.node] else {});
      Move(s, agent, if Authorizes(captured, sub, cert) then Authorized(sub, cert, Some(captured)) else Idle)
    case _ => s
  }

  function AfterPeek(b: Broker, s: State, agent: nat, now: int): State {
    match At(s, agent)
    case Authorized(sub, cert, trust) => (
      match C.Judge(s.challenges, ClaimOf(b, sub, cert, now))
      case Ok(nonce) =>
        Move(s, agent, if Verifies(b, sub, nonce, trust) then Verified(sub, cert, trust, nonce, now) else Idle)
      case Err(_) => Move(s, agent, Idle))
    case _ => s
  }

  function AfterPay(b: Broker, s: State, agent: nat): State {
    match At(s, agent)
    case Verified(sub, cert, trust, nonce, now) => (
      var claim := ClaimOf(b, sub, cert, now);
      if C.Judge(s.challenges, claim).Ok?
      then Move(s.(challenges := C.Consumed(s.challenges, claim)), agent, Paid(sub, cert, trust, nonce, now))
      else Move(s, agent, Idle))
    case _ => s
  }

  function AfterPrune(b: Broker, s: State, agent: nat, clock: int): State {
    match At(s, agent)
    case Paid(sub, cert, trust, nonce, now) =>
      Move(s.(st := s.st.(evidence := Kept(s.st.evidence, sub.node.clusterId, Cutoff(clock, b.retention)))),
           agent, Pruned(sub, cert, trust, nonce, now))
    case _ => s
  }

  function AfterPublish(b: Broker, s: State, agent: nat): State {
    match At(s, agent)
    case Pruned(sub, cert, trust, nonce, now) => (
      match Stored(b, s.st, sub, now, trust)
      case Ok(st) => Move(Published(s, st, Proof(sub, cert, nonce, now)), agent, Idle)
      case Err(_) => Move(s, agent, Idle))
    case _ => s
  }

  function Published(s: State, st: Store, p: Proof): State {
    s.(st := st, proofs := s.proofs[p.sub.node := p], published := s.published + [p])
  }

  // ---------------------------------------------------------------------
  // The invariant
  // ---------------------------------------------------------------------

  /** An enrollment row as the history has it. */
  predicate Recorded(s: State, node: Node, row: Enrollment) {
    && row.revision >= 1 && row.provider == TPM_QUOTE && row.revokedAt.None?
    && (node, row.revision) in s.trusts
    && var t := s.trusts[(node, row.revision)];
    && t.node == node && t.uid == row.uid && t.policy == row.policy
  }

  /** Active rows and their certificates are those of their revision, and no
      revision is ever handed out again. */
  ghost predicate History(s: State) {
    && (forall node | node in s.st.enrollments && s.st.enrollments[node].revokedAt.None? ::
          && Recorded(s, node, s.st.enrollments[node])
          && node in s.st.publishers
          && s.st.publishers[node] == s.trusts[(node, s.st.enrollments[node].revision)].publishers)
    && (forall k | k in s.trusts :: k.1 <= Revision(s.st, k.0))
    && (forall node | node in s.st.enrollments && s.st.enrollments[node].revokedAt.Some? ::
          (node, s.st.enrollments[node].revision) !in s.trusts)
  }

  /** A capture is right for its revision unless that revision is over. */
  predicate Faithful(s: State, node: Node, captured: Captured) {
    && Recorded(s, node, captured.row)
    && captured.row.revision <= Revision(s.st, node)
    && (captured.row.revision == Revision(s.st, node) ==>
          captured.certificates == s.trusts[(node, captured.row.revision)].publishers)
  }

  /** The challenge was issued for this submission and had not expired. */
  predicate Bound(b: Broker, s: State, sub: Submission, cert: string, nonce: Bytes, now: int) {
    && sub.challengeId in s.challenges
    && var c := s.challenges[sub.challengeId].challenge;
    && c.nonce == nonce && c.clusterId == sub.node.clusterId && c.operation == C.ENROLL
    && c.subject == b.challengeSubject(sub.node, sub.uid, sub.provider, PublisherId(sub, cert))
    && now < c.expiresAt
  }

  predicate TrustOk(b: Broker, s: State, sub: Submission, cert: string, trust: Option<Captured>) {
    && Admitted(b, sub)
    && (sub.provider == TPM_QUOTE <==> trust.Some?)
    && (trust.Some? ==> Authorizes(trust.value, sub, cert) && Faithful(s, sub.node, trust.value))
  }

  predicate VerifiedOk(b: Broker, s: State, sub: Submission, cert: string, trust: Option<Captured>, nonce: Bytes,
                       now: int)
  {
    TrustOk(b, s, sub, cert, trust) && Verifies(b, sub, nonce, trust) && Bound(b, s, sub, cert, nonce, now)
  }

  predicate PaidOk(b: Broker, s: State, sub: Submission, cert: string, trust: Option<Captured>, nonce: Bytes,
                   now: int)
  {
    VerifiedOk(b, s, sub, cert, trust, nonce, now) && s.challenges[sub.challengeId].consumed
  }

  predicate AgentOk(b: Broker, s: State, a: Agent) {
    match a
    case Idle => true
    case RowRead(sub, cert, row) =>
      && Admitted(b, sub) && sub.provider == TPM_QUOTE
      && Recorded(s, sub.node, row) && row.revision <= Revision(s.st, sub.node)
    case Authorized(sub, cert, trust) => TrustOk(b, s, sub, cert, trust)
    case Verified(sub, cert, trust, nonce, now) => VerifiedOk(b, s, sub, cert, trust, nonce, now)
    case Paid(sub, cert, trust, nonce, now) => PaidOk(b, s, sub, cert, trust, nonce, now)
    case Pruned(sub, cert, trust, nonce, now) => PaidOk(b, s, sub, cert, trust, nonce, now)
  }

  /** Stored TPM evidence: it carries the revision of the active enrollment, and
      the publication that stored it was authorized and verified under exactly
      what was enrolled at that revision, for its own consumed challenge. */
  predicate Proven(b: Broker, s: State, node: Node)
    requires node in s.st.evidence
  {
    var record := s.st.evidence[node];
    && record.revision.Some?
    && var r := record.revision.value;
    && StillEnrolled(s.st, node, record.uid, TPM_QUOTE, r)
    && (node, r) in s.trusts && node in s.proofs
    && var t, p := s.trusts[(node, r)], s.proofs[node];
    && t.node == node && t.uid == record.uid && t.policy == s.st.enrollments[node].policy
    && PublishedAs(b, s, node, p, record) && p.sub.uid == t.uid && p.sub.provider == TPM_QUOTE
    && p.cert in t.publishers
    && QuoteMeets(b, p.sub, p.nonce, t.policy)
  }

  /** The record is what this publication stored, for its own consumed challenge. */
  predicate PublishedAs(b: Broker, s: State, node: Node, p: Proof, record: Record) {
    && p in s.published && p.sub.node == node && p.sub.uid == record.uid
    && Admitted(b, p.sub) && |p.sub.payload| <= MAX_PAYLOAD
    && Bound(b, s, p.sub, p.cert, p.nonce, p.now) && s.challenges[p.sub.challengeId].consumed
    && record.collectedAt == p.now && record.hash == Text.TrimSpace(b.payloadHash(p.sub.payload))
    && record.expiresAt == p.now + L.AcceptedTtl(b.ttl, p.sub.ttlSeconds * SECOND)
  }

  /** Anything else is synthetic, and was published while that was enabled. */
  predicate Synthetic(b: Broker, s: State, node: Node)
    requires node in s.st.evidence
  {
    var record := s.st.evidence[node];
    && record.provider == FAKE_LOCAL && record.revision.None? && Enabled(b, FAKE_LOCAL) && node in s.proofs
    && var p := s.proofs[node];
    && PublishedAs(b, s, node, p, record) && p.sub.provider == FAKE_LOCAL
    && p.sub.format == FAKE_FORMAT && p.nonce != []
    && p.sub.payload == b.fakePayload(node, p.sub.uid, p.sub.challengeId, p.nonce)
  }

  predicate Explained(b: Broker, s: State, node: Node)
    requires node in s.st.evidence
  {
    if s.st.evidence[node].provider == TPM_QUOTE then Proven(b, s, node) else Synthetic(b, s, node)
  }

  ghost predicate AllExplained(b: Broker, s: State) {
    forall node | node in s.st.evidence :: Explained(b, s, node)
  }

  ghost predicate Agents(b: Broker, s: State) {
    forall a | a in s.agents :: AgentOk(b, s, s.agents[a])
  }

  /** Publications have used up challenges of their own. */
  ghost predicate AllPaid(b: Broker, s: State) {
    forall i | 0 <= i < |s.published| :: PublicationPaid(b, s, s.published[i])
  }

  predicate PublicationPaid(b: Broker, s: State, p: Proof) {
    Bound(b, s, p.sub, p.cert, p.nonce, p.now) && s.challenges[p.sub.challengeId].consumed
  }

  predicate Payer(a: Agent) {
    a.Paid? || a.Pruned?
  }

  /** No challenge pays for two publications. */
  ghost predicate Separate(s: State) {
    && (forall i, j | 0 <= i < j < |s.published| :: s.published[i].sub.challengeId != s.published[j].sub.challengeId)
    && (forall i, a | 0 <= i < |s.published| && a in s.agents && Payer(s.agents[a]) ::
          s.published[i].sub.challengeId != s.agents[a].sub.challengeId)
    && (forall a, c | a in s.agents && c in s.agents && a != c && Payer(s.agents[a]) && Payer(s.agents[c]) ::
          s.agents[a].sub.challengeId != s.agents[c].sub.challengeId)
  }

  ghost predicate Good(b: Broker, s: State) {
    History(s) && AllExplained(b, s) && Agents(b, s) && AllPaid(b, s) && Separate(s)
  }

  // ---------------------------------------------------------------------
  // What only ever moves onward
  // ---------------------------------------------------------------------

  ghost predicate Onward(s: State, s': State) {
    && (forall k | k in s.trusts :: k in s'.trusts && s'.trusts[k] == s.trusts[k])
    && (forall node :: Revision(s.st, node) <= Revision(s'.st, node))
    && s.published <= s'.published
    && (forall id | id in s.challenges :: id in s'.challenges
          && s'.challenges[id].challenge == s.challenges[id].challenge
          && (s.challenges[id].consumed ==> s'.challenges[id].consumed))
  }

  lemma AgentOnward(b: Broker, s: State, s': State, a: Agent)
    requires AgentOk(b, s, a) && Onward(s, s')
    ensures AgentOk(b, s', a)
  {
    hide Admitted, Verifies, Authorizes;
    if !a.Idle? {
      assert Revision(s.st, a.sub.node) <= Revision(s'.st, a.sub.node);
    }
  }

  /** Evidence that stays, under an enrollment that stays, stays proven. */
  lemma ProvenOnward(b: Broker, s: State, s': State, node: Node)
    requires node in s.st.evidence && Explained(b, s, node) && Onward(s, s')
    requires node in s'.st.evidence && s'.st.evidence[node] == s.st.evidence[node]
    requires node in s.st.enrollments ==> node in s'.st.enrollments && s'.st.enrollments[node] == s.st.enrollments[node]
    requires node in s.proofs ==> node in s'.proofs && s'.proofs[node] == s.proofs[node]
    ensures Explained(b, s', node)
  {
    hide QuoteMeets, Admitted;
  }

  lemma PaidOnward(b: Broker, s: State, s': State, p: Proof)
    requires PublicationPaid(b, s, p) && Onward(s, s')
    ensures PublicationPaid(b, s', p)
  {
  }

  /** A step that moves onward, keeps the history right and only drops evidence
      keeps the whole invariant. */
  lemma OnwardKeepsGood(b: Broker, s: State, s': State)
    requires Good(b, s) && Onward(s, s') && History(s')
    requires s'.agents == s.agents && s'.proofs == s.proofs && s'.published == s.published
    requires forall node | node in s'.st.evidence ::
               && node in s.st.evidence && s'.st.evidence[node] == s.st.evidence[node]
               && (node in s.st.enrollments
                  ==> node in s'.st.enrollments && s'.st.enrollments[node] == s.st.enrollments[node])
    ensures Good(b, s')
  {
    hide Onward, History, AgentOk, Explained, PublicationPaid;
    forall node | node in s'.st.evidence ensures Explained(b, s', node) {
      ProvenOnward(b, s, s', node);
    }
    forall i | 0 <= i < |s'.published| ensures PublicationPaid(b, s', s'.published[i]) {
      PaidOnward(b, s, s', s.published[i]);
    }
    forall a | a in s'.agents ensures AgentOk(b, s', s'.agents[a]) {
      AgentOnward(b, s, s', s.agents[a]);
    }
  }

  /** Moving an agent to a state in order, that pays with nothing new. */
  lemma MoveKeepsGood(b: Broker, s: State, agent: nat, to: Agent)
    requires Good(b, s) && AgentOk(b, s, to)
    requires Payer(to) ==> Payer(At(s, agent)) && At(s, agent).sub.challengeId == to.sub.challengeId
    ensures Good(b, Move(s, agent, to))
  {
    hide History, AgentOk, Explained, Onward, PublicationPaid;
    var s' := Move(s, agent, to);
    Unmoved(s, s');
    HistoryOf(s, s');
    forall node | node in s'.st.evidence ensures Explained(b, s', node) {
      ProvenOnward(b, s, s', node);
    }
    forall a | a in s'.agents ensures AgentOk(b, s', s'.agents[a]) {
      AgentOnward(b, s, s', if a == agent then to else s.agents[a]);
    }
    forall i | 0 <= i < |s'.published| ensures PublicationPaid(b, s', s'.published[i]) {
      PaidOnward(b, s, s', s.published[i]);
    }
  }

  lemma Unmoved(s: State, s': State)
    requires s'.st == s.st && s'.challenges == s.challenges && s'.trusts == s.trusts && s'.published == s.published
    ensures Onward(s, s')
  {
  }

  lemma HistoryOf(s: State, s': State)
    requires History(s)
    requires s'.st.enrollments == s.st.enrollments && s'.st.publishers == s.st.publishers && s'.trusts == s.trusts
    ensures History(s')
  {
    forall node | node in s'.st.enrollments && s'.st.enrollments[node].revokedAt.None?
      ensures Recorded(s', node, s'.st.enrollments[node])
    {
      assert Recorded(s, node, s.st.enrollments[node]);
    }
  }

  // ---------------------------------------------------------------------
  // Event by event
  // ---------------------------------------------------------------------

  lemma EnrollKeepsGood(b: Broker, s: State, t: Trust)
    requires Good(b, s)
    ensures Good(b, AfterEnroll(s, t))
  {
    hide AllExplained, Agents, AllPaid, Separate;
    if Enrolls(s.st, t) {
      var s' := AfterEnroll(s, t);
      assert Onward(s, s');
      assert History(s') by { EnrollHistory(s, t); }
      hide History, Onward;
      OnwardKeepsGood(b, s, s');
    }
  }

  lemma EnrollHistory(s: State, t: Trust)
    requires History(s) && Enrolls(s.st, t)
    ensures History(AfterEnroll(s, t))
  {
    var s' := AfterEnroll(s, t);
    forall node | node in s'.st.enrollments && s'.st.enrollments[node].revokedAt.None?
      ensures Recorded(s', node, s'.st.enrollments[node])
    {
      if node != t.node {
        assert Recorded(s, node, s.st.enrollments[node]);
      }
    }
  }

  lemma RevokeKeepsGood(b: Broker, s: State, node: Node, now: int)
    requires Good(b, s)
    ensures Good(b, s.(st := EvidenceStore.Revoked(s.st, node, now)))
  {
    hide AllExplained, Agents, AllPaid, Separate;
    var s' := s.(st := EvidenceStore.Revoked(s.st, node, now));
    assert Onward(s, s');
    assert History(s') by { RevokeHistory(s, node, now); }
    hide History, Onward;
    OnwardKeepsGood(b, s, s');
  }

  lemma RevokeHistory(s: State, node: Node, now: int)
    requires History(s)
    ensures History(s.(st := EvidenceStore.Revoked(s.st, node, now)))
  {
    var s' := s.(st := EvidenceStore.Revoked(s.st, node, now));
    forall n | n in s'.st.enrollments && s'.st.enrollments[n].revokedAt.None?
      ensures Recorded(s', n, s'.st.enrollments[n])
    {
      assert Recorded(s, n, s.st.enrollments[n]);
    }
  }

  lemma ChallengesKeepGood(b: Broker, s: State, challenges: map<string, C.Issued>)
    requires Good(b, s)
    requires forall id | id in s.challenges ::
            id in challenges && challenges[id].challenge == s.challenges[id].challenge
               && (s.challenges[id].consumed ==> challenges[id].consumed)
    ensures Good(b, s.(challenges := challenges))
  {
    hide AllExplained, Agents, AllPaid, Separate;
    var s' := s.(challenges := challenges);
    HistoryOf(s, s');
    assert Onward(s, s');
    hide History, Onward;
    OnwardKeepsGood(b, s, s');
  }

  lemma ReadRowKeepsGood(b: Broker, s: State, agent: nat, sub: Submission, cert: string)
    requires Good(b, s) && Admitted(b, sub)
    ensures Good(b, AfterReadRow(s, agent, sub, cert))
  {
    hide AllExplained, Agents, AllPaid, Separate, Admitted;
    if sub.provider != TPM_QUOTE {
      MoveKeepsGood(b, s, agent, Authorized(sub, "", None));
    } else if sub.node in s.st.enrollments && s.st.enrollments[sub.node].revokedAt.None? {
      MoveKeepsGood(b, s, agent, RowRead(sub, cert, s.st.enrollments[sub.node]));
    }
  }

  lemma AgentIs(b: Broker, s: State, agent: nat)
    requires Agents(b, s)
    ensures AgentOk(b, s, At(s, agent))
  {
  }

  /** The torn read: certificates read while the captured revision still stands
      are those of that revision. */
  lemma ReadCertificatesKeepsGood(b: Broker, s: State, agent: nat)
    requires Good(b, s)
    ensures Good(b, AfterReadCertificates(s, agent))
  {
    hide AllExplained, Agents, AllPaid, Separate, Admitted, Authorizes;
    var a := At(s, agent);
    AgentIs(b, s, agent);
    if a.RowRead? {
      var captured := Captured(a.row, if a.sub.node in s.st.publishers then s.st.publishers[a.sub.node] else {});
      if Authorizes(captured, a.sub, a.cert) {
        assert Faithful(s, a.sub.node, captured) by { ReadIsFaithful(s, a.sub.node, captured); }
        MoveKeepsGood(b, s, agent, Authorized(a.sub, a.cert, Some(captured)));
      } else {
        MoveKeepsGood(b, s, agent, Idle);
      }
    }
  }

  lemma ReadIsFaithful(s: State, node: Node, captured: Captured)
    requires History(s) && Recorded(s, node, captured.row) && captured.row.revision <= Revision(s.st, node)
    requires captured.certificates == if node in s.st.publishers then s.st.publishers[node] else {}
    ensures Faithful(s, node, captured)
  {
    if captured.row.revision == Revision(s.st, node) {
      assert node in s.st.enrollments;
    }
  }

  lemma PeekKeepsGood(b: Broker, s: State, agent: nat, now: int)
    requires Good(b, s)
    ensures Good(b, AfterPeek(b, s, agent, now))
  {
    hide AllExplained, Agents, AllPaid, Separate, Admitted, Authorizes, History, Verifies, Faithful;
    var a := At(s, agent);
    AgentIs(b, s, agent);
    if a.Authorized? {
      var nonce := C.Judge(s.challenges, ClaimOf(b, a.sub, a.cert, now));
      if nonce.Ok? && Verifies(b, a.sub, nonce.value, a.trust) {
        MoveKeepsGood(b, s, agent, Verified(a.sub, a.cert, a.trust, nonce.value, now));
      } else {
        MoveKeepsGood(b, s, agent, Idle);
      }
    }
  }

  lemma PayKeepsGood(b: Broker, s: State, agent: nat)
    requires Good(b, s)
    ensures Good(b, AfterPay(b, s, agent))
  {
    hide AllExplained, Agents, AllPaid, Separate, Admitted, Authorizes, History, Verifies, Faithful;
    var a := At(s, agent);
    AgentIs(b, s, agent);
    if a.Verified? {
      var claim := ClaimOf(b, a.sub, a.cert, a.now);
      if C.Judge(s.challenges, claim).Ok? {
        var s' := s.(challenges := C.Consumed(s.challenges, claim));
        ChallengesKeepGood(b, s, s'.challenges);
        Agreed(b, s, s', a);
        NewlyPaid(b, s, s', agent);
      } else {
        MoveKeepsGood(b, s, agent, Idle);
      }
    }
  }

  /** A challenge that was still unused had paid for no publication yet. */
  lemma NewlyPaid(b: Broker, s: State, s': State, agent: nat)
    requires Good(b, s) && Good(b, s') && At(s, agent).Verified? && AgentOk(b, s', At(s, agent))
    requires C.Judge(s.challenges, ClaimOf(b, At(s, agent).sub, At(s, agent).cert, At(s, agent).now)).Ok?
    requires s' == s.(challenges := C.Consumed(s.challenges,
            ClaimOf(b, At(s, agent).sub, At(s, agent).cert, At(s, agent).now)))
    ensures forall a | a == At(s, agent) :: Good(b, Move(s', agent, Paid(a.sub, a.cert, a.trust, a.nonce, a.now)))
  {
    hide AllExplained, History, TrustOk, Verifies, Onward;
    var a := At(s, agent);
    var to := Paid(a.sub, a.cert, a.trust, a.nonce, a.now);
    assert AgentOk(b, s', to);
    assert forall i | 0 <= i < |s.published| :: s.published[i].sub.challengeId != a.sub.challengeId by {
      forall i | 0 <= i < |s.published| ensures s.published[i].sub.challengeId != a.sub.challengeId {
        assert PublicationPaid(b, s, s.published[i]);
      }
    }
    assert forall c | c in s.agents && Payer(s.agents[c]) :: s.agents[c].sub.challengeId != a.sub.challengeId by {
      forall c | c in s.agents && Payer(s.agents[c]) ensures s.agents[c].sub.challengeId != a.sub.challengeId {
        assert AgentOk(b, s, s.agents[c]);
      }
    }
    hide AgentOk, Agents, AllPaid;
    MoveNewPayer(b, s', agent, to);
  }

  lemma MoveNewPayer(b: Broker, s: State, agent: nat, to: Agent)
    requires Good(b, s) && AgentOk(b, s, to) && Payer(to)
    requires forall i | 0 <= i < |s.published| :: s.published[i].sub.challengeId != to.sub.challengeId
    requires forall c | c in s.agents && Payer(s.agents[c]) :: s.agents[c].sub.challengeId != to.sub.challengeId
    ensures Good(b, Move(s, agent, to))
  {
    hide AllExplained, History, AgentOk, Explained, PublicationPaid, Onward;
    var s' := Move(s, agent, to);
    Unmoved(s, s');
    HistoryOf(s, s');
    assert AllExplained(b, s') by {
      IdleOk(b, s);
      MoveKeepsGood(b, s, agent, Idle);
      SameEvidence(b, Move(s, agent, Idle), s');
    }
    forall a | a in s'.agents ensures AgentOk(b, s', s'.agents[a]) {
      AgentOnward(b, s, s', if a == agent then to else s.agents[a]);
    }
    forall i | 0 <= i < |s'.published| ensures PublicationPaid(b, s', s'.published[i]) {
      PaidOnward(b, s, s', s.published[i]);
    }
  }

  lemma SameEvidence(b: Broker, s: State, s': State)
    requires AllExplained(b, s) && s' == s.(agents := s'.agents)
    ensures AllExplained(b, s')
  {
    hide Explained, Onward;
    Unmoved(s, s');
    forall node | node in s'.st.evidence ensures Explained(b, s', node) {
      ProvenOnward(b, s, s', node);
    }
  }

  lemma Agreed(b: Broker, s: State, s': State, a: Agent)
    requires AgentOk(b, s, a) && s'.st == s.st && s'.trusts == s.trusts && s'.published == s.published
    requires forall id | id in s.challenges ::
            id in s'.challenges && s'.challenges[id].challenge == s.challenges[id].challenge
               && (s.challenges[id].consumed ==> s'.challenges[id].consumed)
    ensures AgentOk(b, s', a)
  {
    hide AgentOk;
    assert Onward(s, s');
    AgentOnward(b, s, s', a);
  }

  lemma PruneKeepsGood(b: Broker, s: State, agent: nat, clock: int)
    requires Good(b, s)
    ensures Good(b, AfterPrune(b, s, agent, clock))
  {
    hide AllExplained, Agents, AllPaid, Separate, Admitted, Authorizes, Verifies, History, Onward;
    var a := At(s, agent);
    AgentIs(b, s, agent);
    if a.Paid? {
      var s' := s.(st := s.st.(evidence := Kept(s.st.evidence, a.sub.node.clusterId, Cutoff(clock, b.retention))));
      HistoryOf(s, s');
      SameRevisions(s, s');
      OnwardKeepsGood(b, s, s');
      AgentOnward(b, s, s', a);
      MoveKeepsGood(b, s', agent, Pruned(a.sub, a.cert, a.trust, a.nonce, a.now));
    }
  }

  lemma PublishKeepsGood(b: Broker, s: State, agent: nat)
    requires Good(b, s)
    ensures Good(b, AfterPublish(b, s, agent))
  {
    hide AllExplained, Agents, AllPaid, Separate, AgentOk, History, Stored;
    var a := At(s, agent);
    AgentIs(b, s, agent);
    if a.Pruned? {
      var stored := Stored(b, s.st, a.sub, a.now, a.trust);
      if stored.Ok? {
        var idle := Move(s, agent, Idle);
        assert AgentOk(b, s, Idle) by { IdleOk(b, s); }
        MoveKeepsGood(b, s, agent, Idle);
        assert AgentOk(b, idle, a) by { Unmoved(s, idle); AgentOnward(b, s, idle, a); }
        PayersDiffer(s, agent, a);
        PublishStores(b, idle, a, stored.value);
      } else {
        assert AgentOk(b, s, Idle) by { IdleOk(b, s); }
        MoveKeepsGood(b, s, agent, Idle);
      }
    }
  }

  lemma IdleOk(b: Broker, s: State)
    ensures AgentOk(b, s, Idle)
  {
  }

  /** Once a payer has left, what it paid with pays for nothing else. */
  lemma PayersDiffer(s: State, agent: nat, a: Agent)
    requires Separate(s) && a == At(s, agent) && Payer(a)
    ensures NotUsed(Move(s, agent, Idle), a.sub.challengeId)
  {
  }

  ghost predicate NotUsed(s: State, challengeId: string) {
    && (forall i | 0 <= i < |s.published| :: s.published[i].sub.challengeId != challengeId)
    && (forall a | a in s.agents && Payer(s.agents[a]) :: s.agents[a].sub.challengeId != challengeId)
  }

  lemma PublishStores(b: Broker, s: State, a: Agent, st: Store)
    requires Good(b, s) && a.Pruned? && AgentOk(b, s, a) && Stored(b, s.st, a.sub, a.now, a.trust) == Ok(st)
    requires NotUsed(s, a.sub.challengeId)
    ensures Good(b, Published(s, st, Proof(a.sub, a.cert, a.nonce, a.now)))
  {
    hide Explained, AgentOk, History, Onward, Stored, PublicationPaid;
    var p := Proof(a.sub, a.cert, a.nonce, a.now);
    var s' := Published(s, st, p);
    StoredAt(b, s, a, st);
    assert History(s') by { HistoryOf(s, s'); }
    assert Onward(s, s') by { SameRevisions(s, s'); }
    forall node | node in s'.st.evidence ensures Explained(b, s', node) {
      if node == a.sub.node {
        StoredIsExplained(b, s, a, st);
      } else {
        ProvenOnward(b, s, s', node);
      }
    }
    forall other | other in s'.agents ensures AgentOk(b, s', s'.agents[other]) {
      AgentOnward(b, s, s', s.agents[other]);
    }
    forall i | 0 <= i < |s'.published| ensures PublicationPaid(b, s', s'.published[i]) {
      if i == |s.published| {
        AgentPaid(b, s, a);
        PaidOnward(b, s, s', p);
      } else {
        PaidOnward(b, s, s', s.published[i]);
      }
    }
  }

  lemma AgentPaid(b: Broker, s: State, a: Agent)
    requires a.Pruned? && AgentOk(b, s, a)
    ensures PublicationPaid(b, s, Proof(a.sub, a.cert, a.nonce, a.now))
  {
  }

  lemma SameRevisions(s: State, s': State)
    requires s'.st.enrollments == s.st.enrollments && s'.trusts == s.trusts && s'.challenges == s.challenges
    requires s.published <= s'.published
    ensures Onward(s, s')
  {
  }

  predicate StoredFor(b: Broker, s: State, a: Agent, record: Record)
    requires a.Pruned?
  {
    && record.uid == a.sub.uid && record.provider == a.sub.provider
    && record.hash == Text.TrimSpace(b.payloadHash(a.sub.payload))
    && record.collectedAt == a.now && record.expiresAt == RecordOf(b, a.sub, a.now).expiresAt
    && (a.sub.provider != TPM_QUOTE ==> record.revision.None?)
    && (a.sub.provider == TPM_QUOTE ==>
          && a.trust.Some? && record.revision == Some(a.trust.value.row.revision)
          && StillEnrolled(s.st, a.sub.node, a.sub.uid, TPM_QUOTE, a.trust.value.row.revision))
  }

  /** Publishing writes the one row of the submission's node. */
  lemma StoredAt(b: Broker, s: State, a: Agent, st: Store)
    requires a.Pruned? && AgentOk(b, s, a) && Stored(b, s.st, a.sub, a.now, a.trust) == Ok(st)
    ensures a.sub.node in st.evidence
    ensures st == s.st.(evidence := s.st.evidence[a.sub.node := st.evidence[a.sub.node]])
    ensures StoredFor(b, s, a, st.evidence[a.sub.node])
  {
    hide Text.TrimSpace, Verifies, Authorizes, Faithful, Bound;
    Text.TrimSpaceTrims(a.sub.node.clusterId);
    Text.TrimSpaceTrims(a.sub.node.name);
    Text.TrimSpaceTrims(a.sub.uid);
    Text.TrimSpaceTrims(a.sub.provider);
    assert a.sub.node == Node(a.sub.node.clusterId, a.sub.node.name);
  }

  lemma StoredIsExplained(b: Broker, s: State, a: Agent, st: Store)
    requires Good(b, s) && a.Pruned? && AgentOk(b, s, a) && Stored(b, s.st, a.sub, a.now, a.trust) == Ok(st)
    ensures a.sub.node in st.evidence
    ensures Explained(b, Published(s, st, Proof(a.sub, a.cert, a.nonce, a.now)), a.sub.node)
  {
    hide AllExplained, Agents, AllPaid, Separate, History, Text.TrimSpace, QuoteMeets, Stored, Canonical,
         ValidSubmission;
    StoredAt(b, s, a, st);
    if a.sub.provider == TPM_QUOTE {
      ActiveIsRecorded(s, a.sub.node);
    }
  }

  lemma ActiveIsRecorded(s: State, node: Node)
    requires History(s) && node in s.st.enrollments && s.st.enrollments[node].revokedAt.None?
    ensures Recorded(s, node, s.st.enrollments[node])
  {
  }

  lemma AfterKeepsGood(b: Broker, s: State, e: Event)
    requires Good(b, s)
    ensures Good(b, After(b, s, e))
  {
    hide Good, AfterEnroll, AfterReadRow, AfterReadCertificates, AfterPeek, AfterPay, AfterPrune, AfterPublish,
         ValidRequest, TrustOf, Admitted;
    match e
    case Enroll(request) =>
      if ValidRequest(request) {
        EnrollKeepsGood(b, s, TrustOf(request));
      }
    case Revoke(node, now) => RevokeKeepsGood(b, s, node, now);
    case Issue(c) =>
      if c.id !in s.challenges {
        ChallengesKeepGood(b, s, s.challenges[c.id := C.Issued(c, false)]);
      }
    case Spend(claim) => ChallengesKeepGood(b, s, C.Consumed(s.challenges, claim));
    case ReadRow(agent, sub, cert) =>
      if Admitted(b, sub) {
        ReadRowKeepsGood(b, s, agent, sub, cert);
      }
    case ReadCertificates(agent) => ReadCertificatesKeepsGood(b, s, agent);
    case PeekAndVerify(agent, now) => PeekKeepsGood(b, s, agent, now);
    case Pay(agent) => PayKeepsGood(b, s, agent);
    case Prune(agent, clock) => PruneKeepsGood(b, s, agent, clock);
    case Publish(agent) => PublishKeepsGood(b, s, agent);
    case Abort(agent) =>
      IdleOk(b, s);
      MoveKeepsGood(b, s, agent, Idle);
  }

  lemma AfterOnward(b: Broker, s: State, e: Event)
    requires Good(b, s)
    ensures Onward(s, After(b, s, e))
  {
    hide AllExplained, Agents, AllPaid, Separate, ValidRequest, TrustOf, Onward, History, Settled, Admitted,
         AfterEnroll, AfterReadRow, AfterReadCertificates, AfterPeek, AfterPay, AfterPrune, AfterPublish;
    match e
    case Enroll(request) =>
      EnrollOnward(s, TrustOf(request));
      Unmoved(s, s);
    case Revoke(node, now) =>
      RevokeOnward(s, node, now);
    case Publish(agent) =>
      PublishSettled(b, s, agent);
      SettledOnward(s, After(b, s, e));
    case Prune(agent, clock) =>
      PruneSettled(b, s, agent, clock);
      SettledOnward(s, After(b, s, e));
    case Pay(agent) =>
      PaySettled(b, s, agent);
      SettledOnward(s, After(b, s, e));
    case _ =>
      QuietSettled(b, s, e);
      SettledOnward(s, After(b, s, e));
  }

  lemma QuietSettled(b: Broker, s: State, e: Event)
    requires e.Issue? || e.Spend? || e.ReadRow? || e.ReadCertificates? || e.PeekAndVerify? || e.Abort?
    ensures Settled(s, After(b, s, e))
  {
    hide Verifies, Authorizes, Admitted;
  }

  lemma PaySettled(b: Broker, s: State, agent: nat)
    ensures Settled(s, AfterPay(b, s, agent))
  {
  }

  lemma PruneSettled(b: Broker, s: State, agent: nat, clock: int)
    ensures Settled(s, AfterPrune(b, s, agent, clock))
  {
  }

  lemma PublishSettled(b: Broker, s: State, agent: nat)
    ensures Settled(s, AfterPublish(b, s, agent))
  {
    hide Stored;
    if At(s, agent).Pruned? {
      var a := At(s, agent);
      StoredKeepsTrust(b, s.st, a.sub, a.now, a.trust);
    }
  }

  /** Enrollments and trust as they were, challenges only used up or added. */
  ghost predicate Settled(s: State, s': State) {
    && s'.st.enrollments == s.st.enrollments && s'.trusts == s.trusts && s.published <= s'.published
    && (forall id | id in s.challenges :: id in s'.challenges
          && s'.challenges[id].challenge == s.challenges[id].challenge
          && (s.challenges[id].consumed ==> s'.challenges[id].consumed))
  }

  lemma SettledOnward(s: State, s': State)
    requires Settled(s, s')
    ensures Onward(s, s')
  {
  }

  lemma EnrollOnward(s: State, t: Trust)
    requires History(s)
    ensures Onward(s, AfterEnroll(s, t))
  {
  }

  lemma RevokeOnward(s: State, node: Node, now: int)
    ensures Onward(s, s.(st := EvidenceStore.Revoked(s.st, node, now)))
  {
  }

  lemma StoredKeepsTrust(b: Broker, st: Store, sub: Submission, now: int, trust: Option<Captured>)
    ensures Stored(b, st, sub, now, trust).Ok? ==> Stored(b, st, sub, now, trust).value.enrollments == st.enrollments
  {
    hide Normalized;
  }

  // ---------------------------------------------------------------------
  // Results over whole runs
  // ---------------------------------------------------------------------

  function Initial(clusters: set<string>): State {
    State(Store(clusters, map[], map[], map[]), map[], map[], map[], map[], [])
  }

  lemma InitialGood(b: Broker, clusters: set<string>)
    ensures Good(b, Initial(clusters))
  {
  }

  function Run(b: Broker, s: State, events: seq<Event>): State
    decreases |events|
  {
    if events == [] then s else Run(b, After(b, s, events[0]), events[1..])
  }

  lemma {:induction false} RunKeepsGood(b: Broker, s: State, events: seq<Event>)
    requires Good(b, s)
    ensures Good(b, Run(b, s, events))
    decreases |events|
  {
    hide Good, After;
    if events != [] {
      AfterKeepsGood(b, s, events[0]);
      RunKeepsGood(b, After(b, s, events[0]), events[1..]);
    }
  }

  /** In every interleaving, all stored TPM evidence is proven. */
  lemma StoredEvidenceIsProven(b: Broker, clusters: set<string>, events: seq<Event>, node: Node)
    requires node in Run(b, Initial(clusters), events).st.evidence
    requires Run(b, Initial(clusters), events).st.evidence[node].provider == TPM_QUOTE
    ensures Proven(b, Run(b, Initial(clusters), events), node)
  {
    hide Run, Proven;
    InitialGood(b, clusters);
    RunKeepsGood(b, Initial(clusters), events);
    assert Explained(b, Run(b, Initial(clusters), events), node);
  }

  /** In every interleaving publications map injectively to issued challenges of
      their own submission, unexpired when used and used up. */
  lemma PublicationsArePaid(b: Broker, clusters: set<string>, events: seq<Event>, i: nat, j: nat)
    requires i < |Run(b, Initial(clusters), events).published| && j < |Run(b, Initial(clusters), events).published|
    ensures forall s | s == Run(b, Initial(clusters), events) ::
              && PublicationPaid(b, s, s.published[i])
              && (s.published[i].sub.challengeId == s.published[j].sub.challengeId ==> i == j)
  {
    hide Run, AllExplained, Agents, History, PublicationPaid;
    InitialGood(b, clusters);
    RunKeepsGood(b, Initial(clusters), events);
    var s := Run(b, Initial(clusters), events);
    if i < j {
      assert s.published[i].sub.challengeId != s.published[j].sub.challengeId;
    } else if j < i {
      assert s.published[j].sub.challengeId != s.published[i].sub.challengeId;
    }
  }

  /** A policy that no quote meets keeps its node without evidence. */
  lemma EvidenceMeansMeetable(b: Broker, clusters: set<string>, events: seq<Event>, node: Node)
    requires T.SizedHashes(b.tpm.hashes)
    requires node in Run(b, Initial(clusters), events).st.evidence
    requires Run(b, Initial(clusters), events).st.evidence[node].provider == TPM_QUOTE
    ensures forall s | s == Run(b, Initial(clusters), events) ::
              node in s.st.enrollments && T.Meetable(s.st.enrollments[node].policy)
  {
    hide Run, Bound, T.EvaluatePolicy, T.Meetable, T.Genuine, T.Describes, T.CheckPolicy;
    StoredEvidenceIsProven(b, clusters, events, node);
    var s := Run(b, Initial(clusters), events);
    var p := s.proofs[node];
    T.AcceptedIff(b.tpm, b.parse(p.sub.payload).value, p.nonce, s.st.enrollments[node].policy);
  }

  predicate FakeOff(b: Broker) {
    !b.allowFake && FAKE_LOCAL !in b.providers
  }

  /** With synthetic evidence off, only nodes with an active enrollment have
      evidence; revocation leaves a node none until it is enrolled again. */
  lemma EvidenceMeansEnrolled(b: Broker, s: State, node: Node)
    requires Good(b, s) && FakeOff(b) && node in s.st.evidence
    ensures node in s.st.enrollments && s.st.enrollments[node].revokedAt.None?
  {
    hide QuoteMeets, Bound, History, Agents;
    assert Explained(b, s, node);
  }

  // ---------------------------------------------------------------------
  // The steps of one publication
  // ---------------------------------------------------------------------

  function Program(agent: nat, sub: Submission, cert: string, now: int, clock: int): seq<Event> {
    [ReadRow(agent, sub, cert), ReadCertificates(agent), PeekAndVerify(agent, now), Pay(agent), Prune(agent, clock),
     Publish(agent)]
  }

  lemma {:induction false} RunConcat(b: Broker, s: State, xs: seq<Event>, ys: seq<Event>)
    ensures Run(b, s, xs + ys) == Run(b, Run(b, s, xs), ys)
    decreases |xs|
  {
    hide After;
    if xs == [] {
      assert xs + ys == ys;
    } else {
      assert (xs + ys)[1..] == xs[1..] + ys;
      RunConcat(b, After(b, s, xs[0]), xs[1..], ys);
    }
  }

  lemma {:induction false} RunAppend(b: Broker, s: State, events: seq<Event>, last: Event)
    ensures Run(b, s, events + [last]) == After(b, Run(b, s, events), last)
    decreases |events|
  {
    hide After;
    if events == [] {
      assert (events + [last])[1..] == [];
    } else {
      assert (events + [last])[1..] == events[1..] + [last];
      RunAppend(b, After(b, s, events[0]), events[1..], last);
    }
  }

  lemma SixSteps(b: Broker, s: State, a: Event, c: Event, d: Event, e: Event, f: Event, g: Event)
    ensures Run(b, s, [a, c, d, e, f, g])
            == After(b, After(b, After(b, After(b, After(b, After(b, s, a), c), d), e), f), g)
  {
    hide After;
    RunAppend(b, s, [], a);
    RunAppend(b, s, [a], c);
    RunAppend(b, s, [a, c], d);
    RunAppend(b, s, [a, c, d], e);
    RunAppend(b, s, [a, c, d, e], f);
    RunAppend(b, s, [a, c, d, e, f], g);
    assert [] + [a] == [a] && [a] + [c] == [a, c] && [a, c] + [d] == [a, c, d] && [a, c, d] + [e] == [a, c, d, e];
    assert [a, c, d, e] + [f] == [a, c, d, e, f] && [a, c, d, e, f] + [g] == [a, c, d, e, f, g];
  }
}
