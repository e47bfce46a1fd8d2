/** Node trust and verified node evidence: enrollment, revocation, storing under
    a revision, fresh reads and pruning, in the SQL store and in memory. */
module EvidenceStore {
  import opened Hex
  import opened Maps
  import opened Results
  import opened Sequences
  import opened Times
  import Text
  import T = TpmPolicy

  const TPM_QUOTE := "generic-tpm2-quote"
  const FAKE_LOCAL := "fake-local"
  const MAX_REVISION: nat := 0x7fff_ffff_ffff_ffff
  const DEFAULT_RETENTION := 24 * 3600 * SECOND

  datatype Error =
    | InvalidEnrollment | InvalidEvidence | Exhausted | ConstraintViolation
    | EnrollmentNotFound | EnrollmentRevoked | EnrollmentChanged | EvidenceNotFound | EvidenceStale

  datatype Node = Node(clusterId: string, name: string)

  datatype Enrollment = Enrollment(
    uid: string, provider: string, policy: T.Policy, revision: nat, enrolledAt: int, updatedAt: int,
    revokedAt: Option<int>)

  datatype Record = Record(
    uid: string, provider: string, hash: string, collectedAt: int, expiresAt: int, revision: Option<nat>)

  datatype Store = Store(
    clusters: set<string>, enrollments: map<Node, Enrollment>, publishers: map<Node, set<string>>,
    evidence: map<Node, Record>)

  // ---------------------------------------------------------------------
  // Trust requests
  // ---------------------------------------------------------------------

  datatype Request = Request(
    clusterId: string, nodeName: string, uid: string, provider: string, policy: T.Policy,
    publishers: seq<string>, enrolledAt: int)

  /** A request in canonical form. */
  datatype Trust = Trust(node: Node, uid: string, policy: T.Policy, publishers: set<string>, enrolledAt: int)

  const SHA256_PREFIX := "sha256:"

  predicate Canonical(digest: string) {
    && SHA256_PREFIX <= digest
    && Decode(digest[|SHA256_PREFIX|..]).Some?
    && |Decode(digest[|SHA256_PREFIX|..]).value| == 32
    && SHA256_PREFIX + Encode(Decode(digest[|SHA256_PREFIX|..]).value) == digest
  }

  /** The canonical texts are exactly the lower-case texts of 32 bytes. */
  lemma CanonicalIff(digest: string)
    ensures Canonical(digest) <==> exists bytes: Bytes :: |bytes| == 32 && digest == SHA256_PREFIX + Encode(bytes)
  {
    if bytes: Bytes :| |bytes| == 32 && digest == SHA256_PREFIX + Encode(bytes) {
      assert digest[|SHA256_PREFIX|..] == Encode(bytes);
      DecodeInvertsEncode(bytes);
    }
  }

  predicate ValidRequest(r: Request) {
    && Text.TrimSpace(r.clusterId) != "" && Text.TrimSpace(r.nodeName) != "" && Text.TrimSpace(r.uid) != ""
    && Text.TrimSpace(r.provider) == TPM_QUOTE
    && Text.TrimSpace(r.policy.akHash) != "" && T.CheckPolicy(r.policy).Ok?
    && r.publishers != [] && Distinct(r.publishers)
    && (forall i | 0 <= i < |r.publishers| :: Canonical(r.publishers[i]))
    && r.enrolledAt != ZERO_TIME
  }

  function TrustOf(r: Request): Trust {
    Trust(Node(Text.TrimSpace(r.clusterId), Text.TrimSpace(r.nodeName)), Text.TrimSpace(r.uid), r.policy,
          (set p | p in r.publishers), r.enrolledAt)
  }

  /** Any valid policy with a key hash can be enrolled, also one that no quote
      ever meets. */
  lemma AnyValidPolicyEnrolls(r: Request, policy: T.Policy)
    requires ValidRequest(r) && T.CheckPolicy(policy).Ok? && Text.TrimSpace(policy.akHash) != ""
    ensures ValidRequest(r.(policy := policy))
  {
  }

  method NormalizeRequest(r: Request) returns (t: Result<Trust, Error>)
    ensures t == if ValidRequest(r) then Ok(TrustOf(r)) else Err(InvalidEnrollment)
  {
    hide Text.TrimSpace, T.CheckPolicy, Canonical;
    if Text.TrimSpace(r.clusterId) == "" || Text.TrimSpace(r.nodeName) == "" || Text.TrimSpace(r.uid) == "" {
      return Err(InvalidEnrollment);
    }
    if Text.TrimSpace(r.provider) != TPM_QUOTE || Text.TrimSpace(r.policy.akHash) == ""
       || T.CheckPolicy(r.policy).Err?
    {
      return Err(InvalidEnrollment);
    }
    if |r.publishers| == 0 {
      return Err(InvalidEnrollment);
    }
    var seen: set<string> := {};
    for i := 0 to |r.publishers|
      invariant seen == set k | 0 <= k < i :: r.publishers[k]
      invariant forall k | 0 <= k < i :: Canonical(r.publishers[k])
      invariant forall j, k | 0 <= j < k < i :: r.publishers[j] != r.publishers[k]
    {
      if !Canonical(r.publishers[i]) || r.publishers[i] in seen {
        return Err(InvalidEnrollment);
      }
      seen := seen + {r.publishers[i]};
    }
    if r.enrolledAt == ZERO_TIME {
      return Err(InvalidEnrollment);
    }
    assert seen == (set p | p in r.publishers);
    t := Ok(TrustOf(r).(publishers := seen));
  }

  // ---------------------------------------------------------------------
  // What the transactions do
  // ---------------------------------------------------------------------

  function Revision(st: Store, node: Node): nat {
    if node in st.enrollments then st.enrollments[node].revision else 0
  }

  predicate Enrolls(st: Store, t: Trust) {
    t.node.clusterId in st.clusters && Revision(st, t.node) != MAX_REVISION
  }

  /** New trust replaces the old under the next revision and drops the evidence
      verified before. */
  function Enrolled(st: Store, t: Trust): Store {
    if !Enrolls(st, t) then st
    else
      st.(enrollments := st.enrollments[t.node :=
            Enrollment(t.uid, TPM_QUOTE, t.policy, Revision(st, t.node) + 1, t.enrolledAt, t.enrolledAt, None)],
          publishers := st.publishers[t.node := t.publishers],
          evidence := st.evidence - {t.node})
  }

  predicate Revokes(st: Store, node: Node) {
    node in st.enrollments && st.enrollments[node].revokedAt.None? && st.enrollments[node].revision < MAX_REVISION
  }

  predicate Revocable(st: Store, node: Node, now: int) {
    node.clusterId != "" && node.name != "" && now != ZERO_TIME && Revokes(st, node)
  }

  function Revoked(st: Store, node: Node, now: int): Store {
    if !Revokes(st, node) then st
    else
      var e := st.enrollments[node];
      var revoked := e.(revision := e.revision + 1, updatedAt := now, revokedAt := Some(now));
      st.(enrollments := st.enrollments[node := revoked],
          evidence := st.evidence - {node})
  }

  /** What is checked again of an enrollment before it is returned. */
  function NormalizeEnrollment(node: Node, e: Enrollment, publishers: set<string>): Result<Enrollment, Error> {
    if !ValidRow(node, e, publishers) then Err(InvalidEnrollment)
    else if e.revision == 0 || e.updatedAt == ZERO_TIME || e.updatedAt < e.enrolledAt then Err(InvalidEnrollment)
    else if e.revokedAt.Some? && e.revokedAt.value < e.updatedAt then Err(InvalidEnrollment)
    else Ok(e.(uid := Text.TrimSpace(e.uid), provider := Text.TrimSpace(e.provider)))
  }

  predicate ValidRow(node: Node, e: Enrollment, publishers: set<string>) {
    && Text.TrimSpace(node.clusterId) != "" && Text.TrimSpace(node.name) != "" && Text.TrimSpace(e.uid) != ""
    && Text.TrimSpace(e.provider) == TPM_QUOTE
    && Text.TrimSpace(e.policy.akHash) != "" && T.CheckPolicy(e.policy).Ok?
    && publishers != {} && (forall p | p in publishers :: Canonical(p))
    && e.enrolledAt != ZERO_TIME
  }

  /** Rows are stored trimmed and valid, and an active one as it was enrolled. */
  ghost predicate ValidStore(st: Store) {
    forall node | node in st.enrollments ::
        node in st.publishers && Kempt(node, st.enrollments[node], st.publishers[node])
  }

  predicate Kempt(node: Node, e: Enrollment, publishers: set<string>) {
    && ValidRow(node, e, publishers)
    && Text.TrimSpace(e.uid) == e.uid && e.provider == TPM_QUOTE
    && e.revision > 0 && (e.revokedAt.None? ==> e.updatedAt == e.enrolledAt)
  }

  /** What the caller of a revocation is told, after the commit. */
  function RevocationReport(st: Store, node: Node, now: int): Result<Enrollment, Error>
    requires Revokes(st, node) && node in st.publishers
  {
    NormalizeEnrollment(node, Revoked(st, node, now).enrollments[node], st.publishers[node])
  }

  /** A revocation takes effect whatever it reports, and reports an error exactly
      when the clock is behind the enrollment. */
  lemma RevocationReportsIff(st: Store, node: Node, now: int)
    requires ValidStore(st) && Revokes(st, node) && now != ZERO_TIME
    ensures node in st.publishers
    ensures RevocationReport(st, node, now)
            == if st.enrollments[node].enrolledAt <= now then Ok(Revoked(st, node, now).enrollments[node])
               else Err(InvalidEnrollment)
    ensures Revoked(st, node, now).enrollments[node].revokedAt == Some(now) && node !in Revoked(st, node, now).evidence
    ensures ValidStore(Revoked(st, node, now))
  {
    hide Text.TrimSpace, T.CheckPolicy, Canonical;
    assert Kempt(node, st.enrollments[node], st.publishers[node]);
    Text.TrimSpaceTrims(TPM_QUOTE);
  }

  /** Enrolled and then revoked by a clock set back: an error, and revoked. */
  lemma RevokedByAnEarlierClock(clusters: set<string>, r: Request, now: int)
    requires ValidRequest(r) && TrustOf(r).node.clusterId in clusters && now < r.enrolledAt && now != ZERO_TIME
    ensures forall st, node | st == Enrolled(Store(clusters, map[], map[], map[]), TrustOf(r))
            && node == TrustOf(r).node ::
              && Revokes(st, node) && node in st.publishers
              && RevocationReport(st, node, now) == Err(InvalidEnrollment)
              && Revoked(st, node, now).enrollments[node].revokedAt == Some(now)
  {
    hide Text.TrimSpace, T.CheckPolicy, Canonical;
  }

  lemma EnrolledIsValid(st: Store, r: Request)
    requires ValidStore(st) && ValidRequest(r) && Enrolls(st, TrustOf(r))
    ensures ValidStore(Enrolled(st, TrustOf(r)))
    ensures forall st', node | st' == Enrolled(st, TrustOf(r)) && node == TrustOf(r).node ::
              NormalizeEnrollment(node, st'.enrollments[node], st'.publishers[node]) == Ok(st'.enrollments[node])
  {
    hide T.CheckPolicy, Canonical, Text.TrimSpace;
    Text.TrimSpaceTrims(TPM_QUOTE);
    Text.TrimSpaceTrims(r.clusterId);
    Text.TrimSpaceTrims(r.nodeName);
    Text.TrimSpaceTrims(r.uid);
    var publishers := TrustOf(r).publishers;
    assert r.publishers[0] in publishers;
    assert forall p | p in publishers :: Canonical(p);
  }

  /** Names as they are stored. */
  function Normalized(node: Node, r: Record): Result<(Node, Record), Error> {
    var n := Node(Text.TrimSpace(node.clusterId), Text.TrimSpace(node.name));
    var record := r.(uid := Text.TrimSpace(r.uid), provider := Text.TrimSpace(r.provider),
        hash := Text.TrimSpace(r.hash));
    if n.clusterId == "" || n.name == "" || record.provider == "" || record.hash == "" then Err(InvalidEvidence)
    else if r.collectedAt == ZERO_TIME || r.expiresAt == ZERO_TIME || r.expiresAt <= r.collectedAt
       then Err(InvalidEvidence)
    else Ok((n, record))
  }

  /** The enrollment under which evidence for a node would be stored now. */
  predicate StillEnrolled(st: Store, node: Node, uid: string, provider: string, revision: nat) {
    && 0 < revision <= MAX_REVISION
    && node in st.enrollments
    && var e := st.enrollments[node];
    && e.revokedAt.None? && e.revision == revision && e.uid == uid && e.provider == provider
  }

  function PutEnrolled(st: Store, node: Node, r: Record, revision: nat): Result<Store, Error> {
    match Normalized(node, r)
    case Err(error) => Err(error)
    case Ok((n, record)) =>
      if !StillEnrolled(st, n, record.uid, record.provider, revision) then Err(EnrollmentChanged)
      else Ok(st.(evidence := st.evidence[n := record.(revision := Some(revision))]))
  }

  function Put(st: Store, node: Node, r: Record): Result<Store, Error> {
    match Normalized(node, r)
    case Err(error) => Err(error)
    case Ok((n, record)) =>
      if record.provider == TPM_QUOTE then Err(EnrollmentChanged)
      else if n.clusterId !in st.clusters then Err(ConstraintViolation)
      else Ok(st.(evidence := st.evidence[n := record.(revision := None)]))
  }

  function Fresh(st: Store, clusterId: string, name: string, now: int): Result<Record, Error> {
    var n := Node(Text.TrimSpace(clusterId), Text.TrimSpace(name));
    if n !in st.evidence then Err(EvidenceNotFound)
    else if st.evidence[n].expiresAt <= now then Err(EvidenceStale)
    else Ok(st.evidence[n])
  }

  predicate Expired(evidence: map<Node, Record>, node: Node, clusterId: string, cutoff: int) {
    node in evidence && node.clusterId == clusterId && evidence[node].expiresAt < cutoff
  }

  function Kept(evidence: map<Node, Record>, clusterId: string, cutoff: int): map<Node, Record> {
    map node | node in evidence && !Expired(evidence, node, clusterId, cutoff) :: evidence[node]
  }

  // ---------------------------------------------------------------------
  // Pruning
  // ---------------------------------------------------------------------

  lemma RemoveOne(evidence: map<Node, Record>, node: Node)
    ensures |evidence - {node}| == |evidence| - if node in evidence then 1 else 0
  {
    assert (evidence - {node}).Keys == evidence.Keys - {node};
  }

  class MemoryRepository {
    var records: map<Node, Record>

    constructor ()
      ensures records == map[]
    {
      records := map[];
    }

    method PutNodeEvidence(node: Node, r: Record) returns (done: Result<(), Error>)
      modifies this
      ensures match Normalized(node, r)
              case Err(error) => done == Err(error) && records == old(records)
              case Ok((n, record)) => done == Ok(()) && records == old(records)[n := record]
    {
      var normalized := Normalized(node, r);
      if normalized.Err? {
        return Err(normalized.error);
      }
      records := records[normalized.value.0 := normalized.value.1];
      done := Ok(());
    }

    /** One pass, deleting as it goes. */
    method PruneNodeEvidence(clusterId: string, expiredBefore: int, clock: int) returns (removed: nat)
      modifies this
      ensures records == Kept(old(records), Text.TrimSpace(clusterId), Resolved(expiredBefore, clock))
      ensures removed == |old(records)| - |records|
    {
      hide Text.TrimSpace;
      var cutoff := Resolved(expiredBefore, clock);
      var c := Text.TrimSpace(clusterId);
      var todo := records.Keys;
      removed := 0;
      while todo != {}
        invariant todo <= records.Keys <= old(records).Keys
        invariant forall n | n in records :: records[n] == old(records)[n]
        invariant forall n | n in old(records) && n !in records :: Expired(old(records), n, c, cutoff)
        invariant forall n | n in records && n !in todo :: !Expired(old(records), n, c, cutoff)
        invariant removed == |old(records)| - |records|
        decreases |todo|
      {
        var n :| n in todo;
        todo := todo - {n};
        if n.clusterId == c && records[n].expiresAt < cutoff {
          RemoveOne(records, n);
          records := records - {n};
          removed := removed + 1;
        }
      }
      assert records == Kept(old(records), c, cutoff);
    }
  }

  // ---------------------------------------------------------------------
  // The SQL store
  // ---------------------------------------------------------------------

  class SqliteEvidence {
    var st: Store

    ghost predicate Valid()
      reads this
    {
      ValidStore(st)
    }

    constructor (clusters: set<string>)
      ensures Valid() && st == Store(clusters, map[], map[], map[])
    {
      st := Store(clusters, map[], map[], map[]);
    }

    method EnrollNodeEvidence(request: Request) returns (r: Result<Enrollment, Error>)
      requires Valid()
      modifies this
      ensures Valid()
      ensures r.Ok? <==> ValidRequest(request) && Enrolls(old(st), TrustOf(request))
      ensures st == if r.Ok? then Enrolled(old(st), TrustOf(request)) else old(st)
      ensures r.Ok? ==> TrustOf(request).node in st.enrollments && r.value == st.enrollments[TrustOf(request).node]
      ensures r.Ok? ==> r.value.revision == Revision(old(st), TrustOf(request).node) + 1 && r.value.revokedAt.None?
    {
      hide ValidRequest, TrustOf, ValidStore, NormalizeEnrollment;
      var normalized := NormalizeRequest(request);
      if normalized.Err? {
        return Err(normalized.error);
      }
      var t := normalized.value;
      var current := 0;
      if t.node in st.enrollments {
        current := st.enrollments[t.node].revision;
      }
      if current == MAX_REVISION {
        return Err(Exhausted);
      }
      if t.node.clusterId !in st.clusters {
        return Err(ConstraintViolation);
      }
      var tx := st.(enrollments := st.enrollments[t.node :=
        Enrollment(t.uid, TPM_QUOTE, t.policy, current + 1, t.enrolledAt, t.enrolledAt, None)]);
      tx := tx.(publishers := tx.publishers - {t.node});
      tx := tx.(publishers := tx.publishers[t.node := t.publishers]);
      tx := tx.(evidence := tx.evidence - {t.node});
      assert tx.publishers == st.publishers[t.node := t.publishers];
      EnrolledIsValid(st, request);
      st := tx;
      r := NormalizeEnrollment(t.node, tx.enrollments[t.node], t.publishers);
    }

    /** The commit comes before the last check, which can still report an error. */
    method RevokeNodeEvidence(clusterId: string, name: string, now: int) returns (r: Result<Enrollment, Error>)
      requires Valid()
      modifies this
      ensures Valid()
      ensures forall node | node == Node(Text.TrimSpace(clusterId), Text.TrimSpace(name)) ::
                && st == (if Revocable(old(st), node, now) then Revoked(old(st), node, now) else old(st))
                && (r.Ok? <==> Revocable(old(st), node, now) && old(st).enrollments[node].enrolledAt <= now)
                && (r.Ok? ==> r.value == st.enrollments[node])
                && (r == Err(EnrollmentRevoked) ==> node in st.enrollments && st.enrollments[node].revokedAt.Some?)
                && (r == Err(EnrollmentNotFound) ==> node !in st.enrollments)
    {
      hide Text.TrimSpace, ValidStore, NormalizeEnrollment;
      var node := Node(Text.TrimSpace(clusterId), Text.TrimSpace(name));
      if node.clusterId == "" || node.name == "" || now == ZERO_TIME {
        return Err(InvalidEnrollment);
      }
      if node !in st.enrollments {
        return Err(EnrollmentNotFound);
      }
      var e := st.enrollments[node];
      if e.revokedAt.Some? {
        return Err(EnrollmentRevoked);
      }
      if e.revision >= MAX_REVISION {
        return Err(Exhausted);
      }
      RevocationReportsIff(st, node, now);
      e := e.(revision := e.revision + 1, updatedAt := now, revokedAt := Some(now));
      var tx := st.(enrollments := st.enrollments[node := e]);
      tx := tx.(evidence := tx.evidence - {node});
      st := tx;
      r := NormalizeEnrollment(node, e, st.publishers[node]);
    }

    method PutEnrolledNodeEvidence(node: Node, record: Record, revision: nat) returns (r: Result<(), Error>)
      requires Valid()
      modifies this
      ensures Valid()
      ensures r == PutEnrolled(old(st), node, record, revision).Then(_ => Ok(()))
      ensures st == if r.Ok? then PutEnrolled(old(st), node, record, revision).value else old(st)
    {
      hide Text.TrimSpace;
      var normalized := Normalized(node, record);
      if normalized.Err? {
        return Err(normalized.error);
      }
      var (n, kept) := normalized.value;
      if revision == 0 || revision > MAX_REVISION || n !in st.enrollments {
        return Err(EnrollmentChanged);
      }
      var e := st.enrollments[n];
      if e.revision == 0 || e.revokedAt.Some? || e.revision != revision || e.uid != kept.uid
         || e.provider != kept.provider
      {
        return Err(EnrollmentChanged);
      }
      st := st.(evidence := st.evidence[n := kept.(revision := Some(e.revision))]);
      r := Ok(());
    }

    method PutNodeEvidence(node: Node, record: Record) returns (r: Result<(), Error>)
      requires Valid()
      modifies this
      ensures Valid()
      ensures r == Put(old(st), node, record).Then(_ => Ok(()))
      ensures st == if r.Ok? then Put(old(st), node, record).value else old(st)
    {
      hide Text.TrimSpace;
      var normalized := Normalized(node, record);
      if normalized.Err? {
        return Err(normalized.error);
      }
      var (n, kept) := normalized.value;
      if kept.provider == TPM_QUOTE {
        return Err(EnrollmentChanged);
      }
      if n.clusterId !in st.clusters {
        return Err(ConstraintViolation);
      }
      st := st.(evidence := st.evidence[n := kept.(revision := None)]);
      r := Ok(());
    }

    /** Two phases: first the expired names of the cluster, then one deletion each. */
    method PruneNodeEvidence(clusterId: string, expiredBefore: int, clock: int) returns (removed: nat)
      requires Valid()
      modifies this
      ensures Valid()
      ensures st == old(st).(evidence := Kept(old(st).evidence, Text.TrimSpace(clusterId),
              Resolved(expiredBefore, clock)))
      ensures removed == |old(st).evidence| - |st.evidence|
    {
      hide Text.TrimSpace;
      var c := Text.TrimSpace(clusterId);
      var cutoff := Resolved(expiredBefore, clock);
      var expired := ExpiredNames(st.evidence, c, cutoff);
      var rest;
      rest, removed := DeleteNames(st.evidence, c, expired);
      assert rest == Kept(st.evidence, c, cutoff) by {
        forall n | n in st.evidence && n.clusterId == c
          ensures n.name in expired <==> Expired(st.evidence, n, c, cutoff)
        {
          assert n == Node(c, n.name);
        }
      }
      st := st.(evidence := rest);
    }
  }

  function Without(evidence: map<Node, Record>, c: string, names: seq<string>): map<Node, Record> {
    map n | n in evidence && !(n.clusterId == c && n.name in names) :: evidence[n]
  }

  lemma WithoutOneMore(evidence: map<Node, Record>, c: string, names: seq<string>, name: string)
    ensures Without(evidence, c, []) == evidence
    ensures Without(evidence, c, names + [name]) == Without(evidence, c, names) - {Node(c, name)}
  {
  }

  /** One deletion per name, counting the rows it removes. */
  method DeleteNames(evidence: map<Node, Record>, c: string, names: seq<string>)
    returns (rest: map<Node, Record>, removed: nat)
    ensures rest == Without(evidence, c, names)
    ensures removed == |evidence| - |rest|
  {
    hide Without;
    rest, removed := evidence, 0;
    WithoutOneMore(evidence, c, [], "");
    for i := 0 to |names|
      invariant rest == Without(evidence, c, names[..i])
      invariant removed == |evidence| - |rest|
    {
      var n := Node(c, names[i]);
      WithoutOneMore(evidence, c, names[..i], names[i]);
      assert names[..i + 1] == names[..i] + [names[i]];
      RemoveOne(rest, n);
      if n in rest {
        removed := removed + 1;
      }
      rest := rest - {n};
    }
    assert names[..|names|] == names;
  }

  /** The names of a cluster's expired rows. */
  method ExpiredNames(evidence: map<Node, Record>, c: string, cutoff: int) returns (names: seq<string>)
    ensures forall name :: name in names <==> Expired(evidence, Node(c, name), c, cutoff)
  {
    names := [];
    var todo := set n | n in evidence && n.clusterId == c;
    while todo != {}
      invariant forall n | n in todo :: n in evidence && n.clusterId == c
      invariant forall name :: name in names <==> Expired(evidence, Node(c, name), c, cutoff) && Node(c, name) !in todo
      decreases |todo|
    {
      var n :| n in todo;
      todo := todo - {n};
      if evidence[n].expiresAt < cutoff {
        names := names + [n.name];
      }
      assert n == Node(c, n.name);
    }
  }

  /** Where the broker cuts: behind the clock by a positive retention. */
  function Cutoff(now: int, retention: int): int {
    Resolved(now - if retention <= 0 then DEFAULT_RETENTION else retention, now)
  }

  /** Pruning never removes what is still fresh, and leaves other clusters alone. */
  lemma PruneKeepsFresh(evidence: map<Node, Record>, c: string, now: int, retention: int, node: Node)
    requires node in evidence && (evidence[node].expiresAt > now || node.clusterId != c)
    ensures node in Kept(evidence, c, Cutoff(now, retention))
    ensures Kept(evidence, c, Cutoff(now, retention))[node] == evidence[node]
  {
  }

  // ---------------------------------------------------------------------
  // Each transaction, table by table
  // ---------------------------------------------------------------------

  /** The node's evidence is gone, and no other node's is touched. */
  predicate Drops(before: map<Node, Record>, after: map<Node, Record>, node: Node) {
    after.Keys == before.Keys - {node} && forall n | n in after :: after[n] == before[n]
  }

  /** One node's trust, certificates and evidence change, and nothing else. */
  lemma EnrolledWrites(st: Store, t: Trust)
    ensures if t.node.clusterId in st.clusters && Revision(st, t.node) != 0x7fff_ffff_ffff_ffff
            then
              && Enrolled(st, t).clusters == st.clusters
              && Sets(st.enrollments, Enrolled(st, t).enrollments, t.node,
                      Enrollment(t.uid, "generic-tpm2-quote", t.policy, Revision(st, t.node) + 1,
                                 t.enrolledAt, t.enrolledAt, None))
              && Sets(st.publishers, Enrolled(st, t).publishers, t.node, t.publishers)
              && Drops(st.evidence, Enrolled(st, t).evidence, t.node)
            else Enrolled(st, t) == st
    ensures Revision(st, t.node) == if t.node in st.enrollments then st.enrollments[t.node].revision else 0
  {
  }

  /** One active enrollment is revoked, its evidence dropped, and nothing else. */
  lemma RevokedWrites(st: Store, node: Node, now: int)
    ensures Revocable(st, node, now) <==>
              && node.clusterId != "" && node.name != "" && now != ZERO_TIME && node in st.enrollments
              && st.enrollments[node].revokedAt == None && st.enrollments[node].revision < 0x7fff_ffff_ffff_ffff
    ensures if node in st.enrollments && st.enrollments[node].revokedAt == None
               && st.enrollments[node].revision < 0x7fff_ffff_ffff_ffff
            then
              && Revoked(st, node, now).clusters == st.clusters && Revoked(st, node, now).publishers == st.publishers
              && Sets(st.enrollments, Revoked(st, node, now).enrollments, node,
                      Enrollment(st.enrollments[node].uid, st.enrollments[node].provider, st.enrollments[node].policy,
                                 st.enrollments[node].revision + 1, st.enrollments[node].enrolledAt, now, Some(now)))
              && Drops(st.evidence, Revoked(st, node, now).evidence, node)
            else Revoked(st, node, now) == st
  {
  }

  /** Evidence that can be stored: named, hashed, and expiring after collection. */
  predicate Storable(node: Node, r: Record) {
    && Text.TrimSpace(node.clusterId) != "" && Text.TrimSpace(node.name) != ""
    && Text.TrimSpace(r.provider) != "" && Text.TrimSpace(r.hash) != ""
    && r.collectedAt != ZERO_TIME && r.expiresAt != ZERO_TIME && r.collectedAt < r.expiresAt
  }

  function TrimmedNode(node: Node): Node {
    Node(Text.TrimSpace(node.clusterId), Text.TrimSpace(node.name))
  }

  /** The record as stored, under a revision if any. */
  function StoredRecord(r: Record, revision: Option<nat>): Record {
    Record(Text.TrimSpace(r.uid), Text.TrimSpace(r.provider), Text.TrimSpace(r.hash), r.collectedAt, r.expiresAt,
           revision)
  }

  /** TPM evidence goes in exactly under the active enrollment of its revision,
      UID and provider; one row changes. */
  lemma PutEnrolledWrites(st: Store, node: Node, r: Record, revision: nat)
    ensures PutEnrolled(st, node, r, revision).Ok? <==>
              && Storable(node, r) && 1 <= revision <= 0x7fff_ffff_ffff_ffff && TrimmedNode(node) in st.enrollments
              && st.enrollments[TrimmedNode(node)].revokedAt == None
              && st.enrollments[TrimmedNode(node)].revision == revision
              && st.enrollments[TrimmedNode(node)].uid == Text.TrimSpace(r.uid)
              && st.enrollments[TrimmedNode(node)].provider == Text.TrimSpace(r.provider)
    ensures !Storable(node, r) ==> PutEnrolled(st, node, r, revision) == Err(InvalidEvidence)
    ensures forall st' | PutEnrolled(st, node, r, revision) == Ok(st') ::
              && Sets(st.evidence, st'.evidence, TrimmedNode(node), StoredRecord(r, Some(revision)))
              && st'.clusters == st.clusters && st'.enrollments == st.enrollments && st'.publishers == st.publishers
  {
    hide Text.TrimSpace;
  }

  /** Other evidence goes in without a revision; one row changes. */
  lemma PutWrites(st: Store, node: Node, r: Record)
    ensures Put(st, node, r).Ok? <==>
              && Storable(node, r) && Text.TrimSpace(r.provider) != "generic-tpm2-quote"
              && Text.TrimSpace(node.clusterId) in st.clusters
    ensures forall st' | Put(st, node, r) == Ok(st') ::
              && Sets(st.evidence, st'.evidence, TrimmedNode(node), StoredRecord(r, None))
              && st'.clusters == st.clusters && st'.enrollments == st.enrollments && st'.publishers == st.publishers
  {
    hide Text.TrimSpace;
  }

  /** A read finds the node's own row, unless it has expired by the clock. */
  lemma FreshReads(st: Store, clusterId: string, name: string, now: int)
    ensures Fresh(st, clusterId, name, now)
            == if TrimmedNode(Node(clusterId, name)) !in st.evidence then Err(EvidenceNotFound)
               else if st.evidence[TrimmedNode(Node(clusterId, name))].expiresAt > now
               then Ok(st.evidence[TrimmedNode(Node(clusterId, name))])
               else Err(EvidenceStale)
  {
    hide Text.TrimSpace;
  }

  /** Pruning removes the cluster's rows that expired before the cutoff. */
  lemma KeptIs(evidence: map<Node, Record>, c: string, cutoff: int, node: Node)
    ensures node in Kept(evidence, c, cutoff) <==>
              node in evidence && (node.clusterId != c || evidence[node].expiresAt >= cutoff)
    ensures node in Kept(evidence, c, cutoff) ==> Kept(evidence, c, cutoff)[node] == evidence[node]
  {
  }

  /** Trust requests that are accepted, and what is taken from them. */
  lemma RequestIs(r: Request)
    ensures ValidRequest(r) <==>
              && Text.TrimSpace(r.clusterId) != "" && Text.TrimSpace(r.nodeName) != "" && Text.TrimSpace(r.uid) != ""
              && Text.TrimSpace(r.provider) == "generic-tpm2-quote" && Text.TrimSpace(r.policy.akHash) != ""
              && T.CheckPolicy(r.policy).Ok? && |r.publishers| > 0
              && (forall i | 0 <= i < |r.publishers| :: Canonical(r.publishers[i]))
              && (forall i, j | 0 <= i < j < |r.publishers| :: r.publishers[i] != r.publishers[j])
              && r.enrolledAt != ZERO_TIME
    ensures TrustOf(r).node == TrimmedNode(Node(r.clusterId, r.nodeName)) && TrustOf(r).uid == Text.TrimSpace(r.uid)
    ensures TrustOf(r).policy == r.policy && TrustOf(r).enrolledAt == r.enrolledAt
    ensures forall p :: p in TrustOf(r).publishers <==> p in r.publishers
  {
    hide Text.TrimSpace, T.CheckPolicy, Canonical;
  }

  lemma CutoffIs(now: int, retention: int)
    ensures retention > 0 && now - retention != ZERO_TIME ==> Cutoff(now, retention) == now - retention
    ensures retention <= 0 && now - 86_400_000_000_000 != ZERO_TIME
            ==> Cutoff(now, retention) == now - 86_400_000_000_000
    ensures retention > 0 && now - retention == ZERO_TIME ==> Cutoff(now, retention) == now
    ensures Cutoff(now, retention) <= now
  {
  }
}
