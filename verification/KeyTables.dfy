/** The broker's durable key state: the SQL tables behind bootstrap,
    development configuration, rotation and subjects, their constraints, and
    what every transaction makes of them.

    A transaction is one atomic step: a failing statement leaves the tables as
    they were. Constraints are checked at every statement inside it. */
module KeyTables {
  import opened KeyRefs
  import opened Results
  import P = KeyProtection
  import K = Keyring

  datatype Error =
    | InvalidRequest | ConstraintViolation | KeyNotUsable
    | RotationInProgress | InvalidTransition | RotationNotFound | SubjectNotFound

  datatype Row = Row(
    status: K.Status, algorithm: string, policyId: string, profile: string, format: string, payload: K.Bytes)

  datatype OperationStatus = Started | Activated | Cancelled

  datatype Operation = Operation(
    clusterId: string, keyId: string, fromVersion: Uint32, toVersion: Uint32,
    status: OperationStatus, createdAt: int, updatedAt: int, activatedAt: Option<int>)

  datatype VerificationName = OpenBaoRoot | Restart | KeyVersionProof | Unsupported(name: string)

  datatype Verification = Verification(verifiedAt: int, detail: string)

  datatype Tables = Tables(
    clusters: set<string>,
    keyrings: map<(string, string), string>,
    keys: map<KeyRef, Row>,
    policies: set<(string, string)>,
    packages: set<string>,
    operations: map<string, Operation>,
    verifications: map<(string, VerificationName), Verification>,
    subjects: map<(string, string), bool>)

  const EMPTY := Tables({}, map[], map[], {}, {}, map[], map[], map[])

  function RecordOf(ref: KeyRef, row: Row): P.ProtectedKey {
    P.ProtectedKey(ref, row.status, row.algorithm, row.policyId, row.profile, row.format, row.payload)
  }

  function RowOf(k: P.ProtectedKey): Row {
    Row(k.status, k.algorithm, k.policyId, k.profile, k.format, k.payload)
  }

  predicate OnKeyring(op: Operation, c: string, k: string) {
    op.clusterId == c && op.keyId == k
  }

  // ---------------------------------------------------------------------
  // Statements and their constraints
  // ---------------------------------------------------------------------

  predicate HasActive(t: Tables, c: string, k: string) {
    exists ref | ref in t.keys :: ref.clusterId == c && ref.keyId == k && t.keys[ref].status.Active?
  }

  predicate HasStarted(t: Tables, c: string, k: string) {
    exists id | id in t.operations :: OnKeyring(t.operations[id], c, k) && t.operations[id].status.Started?
  }

  function InsertCluster(t: Tables, c: string): Result<Tables, Error> {
    if c in t.clusters then Err(ConstraintViolation) else Ok(t.(clusters := t.clusters + {c}))
  }

  function InsertKeyring(t: Tables, c: string, k: string, profile: string): Result<Tables, Error> {
    if (c, k) in t.keyrings || c !in t.clusters then Err(ConstraintViolation)
    else Ok(t.(keyrings := t.keyrings[(c, k) := profile]))
  }

  /** Primary key, foreign key, positive version and the one-active index. */
  function InsertKey(t: Tables, ref: KeyRef, row: Row): Result<Tables, Error> {
    if || ref in t.keys
       || (ref.clusterId, ref.keyId) !in t.keyrings
       || ref.version == 0
       || (row.status.Active? && HasActive(t, ref.clusterId, ref.keyId))
    then Err(ConstraintViolation)
    else Ok(t.(keys := t.keys[ref := row]))
  }

  function InsertPolicy(t: Tables, c: string, policyId: string): Result<Tables, Error> {
    if (c, policyId) in t.policies || c !in t.clusters then Err(ConstraintViolation)
    else Ok(t.(policies := t.policies + {(c, policyId)}))
  }

  function InsertPackage(t: Tables, packageId: string, c: string, k: string): Result<Tables, Error> {
    if packageId in t.packages || (c, k) !in t.keyrings then Err(ConstraintViolation)
    else Ok(t.(packages := t.packages + {packageId}))
  }

  /** Primary key, three foreign keys, positive versions and the one-started index. */
  function InsertOperation(t: Tables, id: string, op: Operation): Result<Tables, Error> {
    if || id in t.operations
       || (op.clusterId, op.keyId) !in t.keyrings
       || KeyRef(op.clusterId, op.keyId, op.fromVersion) !in t.keys
       || KeyRef(op.clusterId, op.keyId, op.toVersion) !in t.keys
       || op.fromVersion == 0 || op.toVersion == 0
       || (op.status.Started? && HasStarted(t, op.clusterId, op.keyId))
    then Err(ConstraintViolation)
    else Ok(t.(operations := t.operations[id := op]))
  }

  /** Moves one key from a status to another; exactly one row must match, and
      a second active row of the keyring breaks the index. */
  function UpdateKeyStatus(t: Tables, ref: KeyRef, from: K.Status, to: K.Status): Result<Tables, Error> {
    if ref !in t.keys || t.keys[ref].status != from then Err(InvalidTransition)
    else
      var rest := t.(keys := t.keys - {ref});
      if to.Active? && HasActive(rest, ref.clusterId, ref.keyId) then Err(ConstraintViolation)
      else Ok(t.(keys := t.keys[ref := t.keys[ref].(status := to)]))
  }

  // ---------------------------------------------------------------------
  // The shape of a keyring and the invariant of the tables
  // ---------------------------------------------------------------------

  function StatusAt(active: nat, version: nat): K.Status {
    if version < active then K.DecryptOnly else if version == active then K.Active else K.Pending
  }

  /** The versions are exactly 1..top, `active` is the active one, everything
      below decrypts only, and at most one version is above it, pending. */
  ghost predicate VersionsShape(keys: map<KeyRef, Row>, c: string, k: string, active: Uint32, top: Uint32) {
    && 1 <= active <= top <= active + 1
    && (forall v: Uint32 :: KeyRef(c, k, v) in keys <==> 1 <= v <= top)
    && (forall v: Uint32 | KeyRef(c, k, v) in keys :: keys[KeyRef(c, k, v)].status == StatusAt(active, v))
  }

  /** Each operation moves from one version to the next, and is started exactly
      while its target is above the active version. */
  ghost predicate OperationsShape(t: Tables, c: string, k: string, active: Uint32, top: Uint32) {
    && (forall id | id in t.operations && OnKeyring(t.operations[id], c, k) ::
          var op := t.operations[id];
          && 1 <= op.fromVersion && op.toVersion == op.fromVersion + 1 <= top
          && op.status == if op.toVersion > active then Started else Activated)
    && (active < top ==> HasStarted(t, c, k))
  }

  ghost predicate Shape(t: Tables, c: string, k: string, active: Uint32, top: Uint32) {
    VersionsShape(t.keys, c, k, active, top) && OperationsShape(t, c, k, active, top)
  }

  ghost predicate Shaped(t: Tables, c: string, k: string) {
    exists active: Uint32, top: Uint32 :: Shape(t, c, k, active, top)
  }

  ghost predicate References(t: Tables) {
    && (forall ck | ck in t.keyrings :: ck.0 in t.clusters)
    && (forall ref | ref in t.keys :: (ref.clusterId, ref.keyId) in t.keyrings)
    && (forall cp | cp in t.policies :: cp.0 in t.clusters)
    && (forall id | id in t.operations :: (t.operations[id].clusterId, t.operations[id].keyId) in t.keyrings)
    && (forall v | v in t.verifications :: v.0 in t.operations)
    && (forall cs | cs in t.subjects :: cs.0 in t.clusters)
  }

  ghost predicate ValidRows(t: Tables) {
    forall ref | ref in t.keys :: P.ValidRecord(RecordOf(ref, t.keys[ref]))
  }

  /** No two operations share a target. */
  ghost predicate DistinctTargets(t: Tables) {
    forall x, y | x in t.operations && y in t.operations && x != y ::
      var p, q := t.operations[x], t.operations[y];
      OnKeyring(q, p.clusterId, p.keyId) ==> p.toVersion != q.toVersion
  }

  ghost predicate Inv(t: Tables) {
    && References(t)
    && ValidRows(t)
    && DistinctTargets(t)
    && forall ck | ck in t.keyrings :: Shaped(t, ck.0, ck.1)
  }

  lemma ShapeUnique(t: Tables, c: string, k: string, a: Uint32, n: Uint32, a': Uint32, n': Uint32)
    requires Shape(t, c, k, a, n) && Shape(t, c, k, a', n')
    ensures a == a' && n == n'
  {
    assert KeyRef(c, k, n) in t.keys && KeyRef(c, k, n') in t.keys;
    assert t.keys[KeyRef(c, k, a)].status == StatusAt(a', a);
  }

  /** A keyring whose keys and operations a step does not touch keeps its shape. */
  lemma ShapeFrame(t: Tables, t': Tables, c: string, k: string)
    requires Shaped(t, c, k)
    requires forall v: Uint32 :: KeyRef(c, k, v) in t.keys <==> KeyRef(c, k, v) in t'.keys
    requires forall v: Uint32 | KeyRef(c, k, v) in t.keys ::
            t'.keys[KeyRef(c, k, v)].status == t.keys[KeyRef(c, k, v)].status
    requires forall id | id in t.operations && OnKeyring(t.operations[id], c, k) ::
               id in t'.operations && t'.operations[id] == t.operations[id]
    requires forall id | id in t'.operations && OnKeyring(t'.operations[id], c, k) ::
               id in t.operations && t'.operations[id] == t.operations[id]
    ensures Shaped(t', c, k)
  {
    var a: Uint32, n: Uint32 :| Shape(t, c, k, a, n);
    if a < n {
      var id :| id in t.operations && OnKeyring(t.operations[id], c, k) && t.operations[id].status.Started?;
      assert id in t'.operations;
    }
    assert Shape(t', c, k, a, n);
  }
}
