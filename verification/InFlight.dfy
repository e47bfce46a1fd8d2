/** Two runs from an empty store in which a revocation commits between the read
    of a request and its key check, and the request is allowed all the same. */
module InFlight {
  import opened KeyRefs
  import opened Results
  import opened PolicyRuns
  import C = Challenges
  import E = EvidenceRuns
  import H = Hex
  import KT = KeyTables
  import K = KeyTransactions
  import P = KeyProtection
  import Q = Pcrs
  import R = Keyring
  import S = EvidenceStore
  import T = TpmPolicy
  import Text
  import U = Publications
  import W = Workloads

  const CLUSTER := "c"
  const REF := KeyRef(CLUSTER, "k", 1)
  const UNREVIEWED := W.Status(false, "", [], None, "", "", "", "")

  function Zeros(n: nat): H.Bytes {
    seq(n, _ => 0)
  }

  function Key(): P.ProtectedKey {
    P.ProtectedKey(REF, R.Active, R.ALGORITHM, "p", P.PROFILE_DEVELOPMENT, P.FORMAT_DEVELOPMENT, Zeros(R.KEY_SIZE))
  }

  function Config(subject: string): K.DevelopmentConfig {
    K.DevelopmentConfig(CLUSTER, "k", P.PROFILE_DEVELOPMENT, "p", [subject])
  }

  lemma KeyIsValid(subject: string)
    ensures K.Matches(Config(subject), Key())
  {
    hide Text.TrimSpace;
    P.DevelopmentNames();
  }

  /** Seeding an empty store: the key is active and the subject live. */
  lemma Seeded(subject: string)
    requires KT.Inv(KT.EMPTY)
    ensures forall t | t == K.Apply(KT.EMPTY, K.Configure(Config(subject), Key())) ::
              && REF in t.keys && t.keys[REF].status.Active?
              && (CLUSTER, subject) in t.subjects && !t.subjects[(CLUSTER, subject)]
  {
    hide KT.Inv, P.ValidRecord;
    KeyIsValid(subject);
    var subjects := K.WithSubjects(KT.EMPTY.subjects, CLUSTER, [subject]);
    assert subject in [subject];
    assert (CLUSTER, subject) in subjects;
  }

  // ---------------------------------------------------------------------
  // A subject revoked after it was read
  // ---------------------------------------------------------------------

  const SUBJECT_CHALLENGE := C.Challenge("x", [1], CLUSTER, "s", C.WRAP, 10, 0)
  const SUBJECT_ASK := Ask(CLUSTER, "s", "", "", C.WRAP, "x", REF)

  function SubjectPrefix(): seq<Event> {
    [Keys(K.Configure(Config("s"), Key())),
     Evidence(E.Issue(SUBJECT_CHALLENGE)),
     Begin(0, W.Presented("s", UNREVIEWED, W.Failed), C.WRAP, "x", REF),
     Keys(K.RevokeSubject(CLUSTER, "s"))]
  }

  function SubjectRun(): seq<Event> {
    SubjectPrefix() + Remaining(Live(SUBJECT_ASK, 2), 0, 0, 5)
  }

  function DevelopmentSetup(b: E.Broker): Setup {
    Setup(b, W.Development, false)
  }

  /** After the prefix the subject is revoked and the request still under way. */
  ghost predicate SubjectUnderWay(setup: Setup, s: State) {
    && At(s, 0) == Live(SUBJECT_ASK, 2) && s.allowed == [] && s.tick == 4
    && InOrder(setup, s, At(s, 0), 0, 5)
    && (CLUSTER, "s") in s.tables.subjects && s.tables.subjects[(CLUSTER, "s")]
  }

  lemma FourSteps(setup: Setup, s: State, a: Event, b: Event, c: Event, d: Event)
    requires Good(setup, s)
    ensures Good(setup, After(setup, s, a)) && Good(setup, After(setup, After(setup, s, a), b))
    ensures Good(setup, After(setup, After(setup, After(setup, s, a), b), c))
    ensures Run(setup, s, [a, b, c, d]) == After(setup, After(setup, After(setup, After(setup, s, a), b), c), d)
  {
    hide KT.Inv, E.Good, Requests, Decisions, Separate, Run, After;
    OneStep(setup, s, a, [b, c, d]);
    var s1 := After(setup, s, a);
    OneStep(setup, s1, b, [c, d]);
    var s2 := After(setup, s1, b);
    OneStep(setup, s2, c, [d]);
    var s3 := After(setup, s2, c);
    OneStep(setup, s3, d, []);
    NoSteps(setup, After(setup, s3, d));
    assert [a, b, c, d] == [a] + [b, c, d] && [b, c, d] == [b] + [c, d] && [c, d] == [c] + [d] && [d] == [d] + [];
  }

  lemma SubjectPrefixRuns(b: E.Broker, clusters: set<string>)
    ensures SubjectUnderWay(DevelopmentSetup(b), Reached(DevelopmentSetup(b), clusters, SubjectPrefix()))
  {
    hide KT.Inv, E.Good, Requests, Decisions, Separate, K.Apply, Run, InOrder;
    var setup := DevelopmentSetup(b);
    InitialGood(setup, clusters);
    var s0 := Start(clusters);
    var e := SubjectPrefix();
    FourSteps(setup, s0, e[0], e[1], e[2], e[3]);
    var s1 := After(setup, s0, e[0]);
    var s2 := After(setup, s1, e[1]);
    var s3 := After(setup, s2, e[2]);
    var s4 := After(setup, s3, e[3]);
    Seeded("s");
    Text.TrimSpaceTrims("s");
    assert At(s3, 0) == Live(SUBJECT_ASK, 2);
    RevokedKeepsKeys(s3.tables);
    assert InOrder(setup, s4, At(s4, 0), 0, 5) by { SubjectInOrder(setup, s4); }
  }

  lemma RevokedKeepsKeys(t: KT.Tables)
    requires KT.Inv(t) && (CLUSTER, "s") in t.subjects
    ensures forall t' | t' == K.Apply(t, K.RevokeSubject(CLUSTER, "s")) ::
              t'.keys == t.keys && (CLUSTER, "s") in t'.subjects && t'.subjects[(CLUSTER, "s")]
  {
    hide KT.Inv;
  }

  lemma SubjectInOrder(setup: Setup, s: State)
    requires !setup.checksEvidence && At(s, 0) == Live(SUBJECT_ASK, 2)
    requires s.ev.challenges == map["x" := C.Issued(SUBJECT_CHALLENGE, false)]
    requires REF in s.tables.keys && s.tables.keys[REF].status.Active?
    ensures InOrder(setup, s, At(s, 0), 0, 5)
  {
  }

  /** The subject is revoked at step 3, after it was read at step 2, and the
      request is allowed at step 6. */
  lemma SubjectRevokedInFlight(b: E.Broker, clusters: set<string>)
    ensures forall s | s == Reached(DevelopmentSetup(b), clusters, SubjectRun()) ::
              && |s.allowed| == 1 && s.allowed[0].ask == SUBJECT_ASK && s.allowed[0].subjectTick == 2
              && (CLUSTER, "s") in s.tables.subjects && s.tables.subjects[(CLUSTER, "s")]
  {
    hide KT.Inv, E.Good, Requests, Decisions, Separate, Run, InOrder, SubjectPrefix;
    var setup := DevelopmentSetup(b);
    InitialGood(setup, clusters);
    var s0 := Start(clusters);
    SubjectPrefixRuns(b, clusters);
    var s := Run(setup, s0, SubjectPrefix());
    RunConcat(setup, s0, SubjectPrefix(), Remaining(Live(SUBJECT_ASK, 2), 0, 0, 5));
    UndisturbedRequest(setup, s, 0, 0, 5);
  }

  // ---------------------------------------------------------------------
  // A node revoked after its evidence was read
  // ---------------------------------------------------------------------

  const NODE := S.Node(CLUSTER, "n")
  const NONCE: H.Bytes := [1]
  const SELECTION := Q.Selection(Q.SHA256, [7])

  function Digests(name: string, bytes: H.Bytes): H.Bytes {
    Zeros(if Q.HashName(name) then Q.DigestSize(name) else 0)
  }

  function Values(): map<int, H.Bytes> {
    map[7 := Zeros(32)]
  }

  function Device(): T.Tpm {
    T.Tpm(Digests, (_, _, _) => true, _ => Some(T.Attestation(true, NONCE, SELECTION, Zeros(32))))
  }

  function Fingerprint(): string {
    T.Fingerprint(Digests, NONCE)
  }

  function Quote(): T.Evidence {
    T.Evidence(T.SCHEMA, "e", Fingerprint(), NONCE, NONCE, NONCE, SELECTION, Some(Values()))
  }

  function Policy(): T.Policy {
    T.Policy(T.TPM_ONLY, Fingerprint(), None, "")
  }

  function Certificate(): string {
    S.SHA256_PREFIX + H.Encode(Zeros(32))
  }

  function Broker(): E.Broker {
    E.Broker(Device(), _ => Some(Quote()), _ => "h", (_, _, _, _) => "t", (_, _, _, _) => [],
             "", {S.TPM_QUOTE}, false, 0, 0)
  }

  function Trust(): S.Request {
    S.Request(CLUSTER, "n", "u", S.TPM_QUOTE, Policy(), [Certificate()], 1)
  }

  function Submission(): E.Submission {
    E.Submission(NODE, "u", S.TPM_QUOTE, E.TPM_FORMAT, [1], "e", 60)
  }

  const PUBLICATION := C.Challenge("e", NONCE, CLUSTER, "t", C.ENROLL, 10, 0)
  const WRAPPING := C.Challenge("w", [2], CLUSTER, "a.b", C.WRAP, 10, 0)

  lemma SelectionIsUsable()
    ensures Q.Usable(SELECTION) && Q.EffectiveHash(SELECTION.hash) == Q.SHA256
    ensures Q.Digestible(SELECTION, Values())
    ensures forall e | Q.Digestible(SELECTION, e) :: Q.Digest(Digests, SELECTION, e) == Zeros(32)
    ensures T.SizedHashes(Digests)
  {
    hide Text.TrimSpace, Q.Lower;
    Q.HashNamesSettled(Q.SHA256);
  }

  lemma QuoteIsAccepted()
    ensures T.CheckPolicy(Policy()).Ok? && Text.TrimSpace(Fingerprint()) != ""
    ensures T.EvaluatePolicy(Device(), Quote(), NONCE, Policy()).Ok?
  {
    hide Q.EffectiveHash, Q.Usable, Q.Digestible, Q.Digest, T.DigestText, T.ParseDigest, T.EvaluatePolicy;
    SelectionIsUsable();
    T.ParseInvertsText(Q.SHA256, Zeros(32));
    Text.TrimSpaceTrims(T.TPM_ONLY);
    Text.TrimSpaceTrims("e");
    FingerprintIsText();
    T.AcceptedIff(Device(), Quote(), NONCE, Policy());
  }

  lemma FingerprintIsText()
    ensures Text.TrimSpace(Fingerprint()) != ""
  {
    hide Text.TrimSpace;
    assert T.DigestText(Q.SHA256, Zeros(32))[0] == 's';
    Text.TrimKeepsInk(Fingerprint(), 0);
  }

  lemma CertificateIsCanonical()
    ensures S.Canonical(Certificate())
  {
    hide S.Canonical, H.Encode;
    assert |Zeros(32)| == 32;
    S.CanonicalIff(Certificate());
  }

  lemma PolicyHasKey()
    ensures T.CheckPolicy(Policy()).Ok? && Text.TrimSpace(Policy().akHash) != ""
  {
    hide T.CheckPolicy, Text.TrimSpace, Fingerprint;
    QuoteIsAccepted();
  }

  lemma TrustIsValid()
    ensures S.ValidRequest(Trust()) && S.TrustOf(Trust()) == S.Trust(NODE, "u", Policy(), {Certificate()}, 1)
  {
    hide Text.TrimSpace, T.CheckPolicy, S.Canonical, Certificate, Policy;
    Text.TrimSpaceTrims(CLUSTER);
    Text.TrimSpaceTrims("n");
    Text.TrimSpaceTrims("u");
    Text.TrimSpaceTrims(S.TPM_QUOTE);
    PolicyHasKey();
    CertificateIsCanonical();
    assert (set p | p in [Certificate()]) == {Certificate()};
  }

  lemma QuoteStands()
    ensures U.QuoteStands(Broker(), Submission(), NONCE, Policy())
  {
    hide T.EvaluatePolicy, Policy, Fingerprint;
    QuoteIsAccepted();
  }

  lemma NamesAreTrimmed()
    ensures Text.Trimmed(CLUSTER) && Text.Trimmed("n") && Text.Trimmed("u") && Text.Trimmed("e")
    ensures Text.Trimmed(S.TPM_QUOTE) && Text.Trimmed(E.TPM_FORMAT)
  {
    assert E.TPM_FORMAT[0] == 'o' && E.TPM_FORMAT[|E.TPM_FORMAT| - 1] == '1';
  }

  lemma SubmissionIsSound()
    ensures U.Sound(Submission())
  {
    hide Text.Trimmed;
    NamesAreTrimmed();
  }

  lemma RecordIsSound(s: E.State)
    requires NODE in s.st.enrollments && s.st.enrollments[NODE].revision == 1
    ensures U.RecordStands(Broker(), s, Submission(), 2)
  {
    hide Text.TrimSpace;
    Text.TrimSpaceTrims("h");
  }

  function Published(): S.Record {
    S.Record("u", S.TPM_QUOTE, "h", 2, 60_000_000_002, Some(1))
  }

  lemma RowIsPublished(s: E.State)
    requires NODE in s.st.enrollments && s.st.enrollments[NODE].revision == 1
    ensures U.Row(Broker(), s, Submission(), 2) == Published()
  {
    hide Text.TrimSpace;
    Text.TrimSpaceTrims("h");
  }

  function EvidenceStage(): seq<E.Event> {
    [E.Enroll(Trust()), E.Issue(PUBLICATION)] + E.Program(0, Submission(), Certificate(), 2, 3) + [E.Issue(WRAPPING)]
  }

  /** The node is enrolled, its evidence stored, and a wrap challenge unused. */
  ghost predicate EvidenceReady(ev: E.State) {
    && NODE in ev.st.enrollments && ev.st.enrollments[NODE].revokedAt.None? && ev.st.enrollments[NODE].revision == 1
    && NODE in ev.st.evidence && ev.st.evidence[NODE] == Published()
    && "w" in ev.challenges && ev.challenges["w"] == C.Issued(WRAPPING, false)
  }

  lemma EvidenceStageRuns()
    ensures EvidenceReady(E.Run(Broker(), E.Initial({CLUSTER}), EvidenceStage()))
  {
    hide Text.TrimSpace, T.CheckPolicy, S.Canonical, S.ValidRequest, S.TrustOf, E.Run, E.Program, U.QuoteStands,
         Policy, Quote, Certificate, Trust, E.AfterReadRow, E.AfterReadCertificates, E.AfterPeek,
         E.AfterPay,
         E.AfterPrune, E.AfterPublish;
    var b, s0 := Broker(), E.Initial({CLUSTER});
    var first := [E.Enroll(Trust()), E.Issue(PUBLICATION)];
    var program := E.Program(0, Submission(), Certificate(), 2, 3);
    TrustIsValid();
    CertificateIsCanonical();
    SubmissionIsSound();
    TwoRun(b, s0, first[0], first[1]);
    var s2 := E.After(b, E.After(b, s0, first[0]), first[1]);
    assert E.At(s2, 0).Idle?;
    assert U.PublisherStands(s2, Submission(), Certificate());
    QuoteStands();
    assert U.Payable(b, s2, Submission(), Certificate(), 2);
    RecordIsSound(s2);
    RowIsPublished(s2);
    U.PublishesIff(b, s2, 0, Submission(), Certificate(), 2, 3);
    E.RunConcat(b, s0, first, program);
    E.RunAppend(b, s0, first + program, E.Issue(WRAPPING));
  }

  lemma TwoRun(b: E.Broker, s: E.State, x: E.Event, y: E.Event)
    ensures E.Run(b, s, [x, y]) == E.After(b, E.After(b, s, x), y)
  {
    hide E.After;
    E.RunAppend(b, s, [], x);
    E.RunAppend(b, s, [x], y);
    assert [] + [x] == [x] && [x] + [y] == [x, y];
  }

  const REVIEWED := W.Status(true, "", [], Some(("a", "b")), "pod", "uid", "n", "")
  const NODE_ASK := Ask(CLUSTER, "a.b", "n", "", C.WRAP, "w", REF)

  function NodeSetup(): Setup {
    Setup(Broker(), W.Kubernetes("", "", "", true, false), true)
  }

  function Tail(): seq<Event> {
    [Begin(0, W.Presented("", REVIEWED, W.Failed), C.WRAP, "w", REF), ReadEvidence(0, 4), Evidence(E.Revoke(NODE, 5))]
  }

  function NodePrefix(): seq<Event> {
    [Keys(K.Configure(Config("a.b"), Key()))] + Lift(EvidenceStage()) + Tail()
  }

  function NodeRun(): seq<Event> {
    NodePrefix() + [SpendChallenge(0, 6), CheckKey(0)]
  }

  /** Seeded, enrolled and published: the request is about to begin. */
  ghost predicate NodeReady(s: State) {
    && EvidenceReady(s.ev) && At(s, 0) == Done && s.allowed == [] && s.tick == 10
    && REF in s.tables.keys && s.tables.keys[REF].status.Active? && SubjectLive(s.tables, CLUSTER, "a.b")
  }

  /** The evidence was read at step 11 and the node revoked at step 12. */
  ghost predicate NodeUnderWay(s: State) {
    && At(s, 0).Evidenced? && At(s, 0).ask == NODE_ASK && At(s, 0).seen.Some? && At(s, 0).seen.value.tick == 11
    && s.allowed == [] && s.tick == 13
    && InOrder(NodeSetup(), s, At(s, 0), 0, 6)
    && NODE in s.ev.st.enrollments && s.ev.st.enrollments[NODE].revokedAt.Some?
  }

  lemma ReadyRuns()
    ensures NodeReady(Reached(NodeSetup(), {CLUSTER},
            [Keys(K.Configure(Config("a.b"), Key()))] + Lift(EvidenceStage())))
  {
    hide KT.Inv, E.Good, Requests, Decisions, Separate, K.Apply, Run, E.Run, EvidenceReady, Broker, Lift;
    var setup := NodeSetup();
    InitialGood(setup, {CLUSTER});
    var s0 := Start({CLUSTER});
    var e := Keys(K.Configure(Config("a.b"), Key()));
    OneStep(setup, s0, e, Lift(EvidenceStage()));
    LiftRuns(setup, After(setup, s0, e), EvidenceStage());
    Seeded("a.b");
    EvidenceStageRuns();
    assert |EvidenceStage()| == 9;
  }

  lemma TailRuns(s: State)
    requires Good(NodeSetup(), s) && NodeReady(s)
    ensures NodeUnderWay(Run(NodeSetup(), s, Tail()))
  {
    hide KT.Inv, E.Good, Requests, Decisions, Separate, Run, After, NodeReady, NodeUnderWay, EvidenceReady;
    var setup := NodeSetup();
    var e := Tail();
    ThreeSteps(setup, s, e[0], e[1], e[2]);
    TailBegins(s);
    TailReads(After(setup, s, e[0]));
    TailRevokes(After(setup, After(setup, s, e[0]), e[1]));
  }

  /** What the request's own steps leave as it was. */
  ghost predicate StillReady(s: State) {
    && EvidenceReady(s.ev) && s.allowed == [] && REF in s.tables.keys && s.tables.keys[REF].status.Active?
  }

  lemma TailBegins(s: State)
    requires KT.Inv(s.tables) && NodeReady(s)
    ensures forall s' | s' == After(NodeSetup(), s, Tail()[0]) ::
              StillReady(s') && s'.tick == 11 && At(s', 0) == Live(NODE_ASK, 10)
  {
    hide KT.Inv, EvidenceReady, Broker, SubjectLive, W.Verify;
    ClaimsAreVerified();
  }

  lemma TailReads(s: State)
    requires KT.Inv(s.tables) && StillReady(s) && s.tick == 11 && At(s, 0) == Live(NODE_ASK, 10)
    ensures forall s' | s' == After(NodeSetup(), s, Tail()[1]) ::
              && StillReady(s') && s'.tick == 12 && At(s', 0).Evidenced? && At(s', 0).ask == NODE_ASK
              && At(s', 0).seen.Some? && At(s', 0).seen.value.tick == 11
  {
    hide KT.Inv, EvidenceReady, Broker, S.Fresh;
    FreshThere(s.ev);
  }

  lemma TailRevokes(s: State)
    requires KT.Inv(s.tables) && StillReady(s) && s.tick == 12 && At(s, 0).Evidenced? && At(s, 0).ask == NODE_ASK
    requires At(s, 0).seen.Some? && At(s, 0).seen.value.tick == 11
    ensures NodeUnderWay(After(NodeSetup(), s, Tail()[2]))
  {
    hide KT.Inv, InOrder;
    NodeInOrder(After(NodeSetup(), s, Tail()[2]));
  }

  lemma ThreeSteps(setup: Setup, s: State, a: Event, b: Event, c: Event)
    requires Good(setup, s)
    ensures Good(setup, After(setup, s, a)) && Good(setup, After(setup, After(setup, s, a), b))
    ensures Run(setup, s, [a, b, c]) == After(setup, After(setup, After(setup, s, a), b), c)
  {
    hide KT.Inv, E.Good, Requests, Decisions, Separate, Run, After;
    OneStep(setup, s, a, [b, c]);
    var s1 := After(setup, s, a);
    OneStep(setup, s1, b, [c]);
    var s2 := After(setup, s1, b);
    OneStep(setup, s2, c, []);
    NoSteps(setup, After(setup, s2, c));
    assert [a, b, c] == [a] + [b, c] && [b, c] == [b] + [c] && [c] == [c] + [];
  }

  lemma ClaimsAreVerified()
    ensures W.Verify(NodeSetup().verifier, W.Presented("", REVIEWED, W.Failed))
            == Ok(W.Claims("a.b", "a", "pod", "uid", "n", ""))
  {
    hide Text.TrimSpace;
    Text.TrimSpaceTrims("");
    assert "a" + "." + "b" == "a.b";
  }

  lemma FreshThere(ev: E.State)
    requires EvidenceReady(ev)
    ensures S.Fresh(ev.st, CLUSTER, "n", 4) == Ok(ev.st.evidence[NODE])
  {
    hide Text.TrimSpace;
    Text.TrimSpaceTrims(CLUSTER);
    Text.TrimSpaceTrims("n");
  }

  lemma NodeInOrder(s: State)
    requires At(s, 0).Evidenced? && At(s, 0).ask == NODE_ASK
    requires "w" in s.ev.challenges && s.ev.challenges["w"] == C.Issued(WRAPPING, false)
    requires REF in s.tables.keys && s.tables.keys[REF].status.Active?
    ensures InOrder(NodeSetup(), s, At(s, 0), 0, 6)
  {
  }

  /** The node is revoked at step 12, after its evidence was read at step 11, and
      the request is allowed at step 14. */
  lemma NodeRevokedInFlight()
    ensures E.FakeOff(Broker()) && NodeOf(NODE_ASK) == NODE
    ensures forall s | s == Reached(NodeSetup(), {CLUSTER}, NodeRun()) ::
              && |s.allowed| == 1 && s.allowed[0].ask == NODE_ASK
              && s.allowed[0].seen.Some? && s.allowed[0].seen.value.tick == 11
              && NODE in s.ev.st.enrollments && s.ev.st.enrollments[NODE].revokedAt.Some?
  {
    hide KT.Inv, E.Good, Requests, Decisions, Separate, Run, InOrder, Tail, Lift, EvidenceStage, NodeReady,
         Text.TrimSpace;
    var setup := NodeSetup();
    InitialGood(setup, {CLUSTER});
    var s0 := Start({CLUSTER});
    var ready := [Keys(K.Configure(Config("a.b"), Key()))] + Lift(EvidenceStage());
    ReadyRuns();
    RunConcat(setup, s0, ready, Tail());
    TailRuns(Run(setup, s0, ready));
    RunConcat(setup, s0, NodePrefix(), [SpendChallenge(0, 6), CheckKey(0)]);
    UndisturbedRequest(setup, Run(setup, s0, NodePrefix()), 0, 0, 6);
    Text.TrimSpaceTrims(CLUSTER);
    Text.TrimSpaceTrims("n");
  }
}
