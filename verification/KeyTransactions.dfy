/** What each committed transaction does to the key tables, that the invariant
    of the tables survives every run, and what runs never undo. */
module KeyTransactions {
  import opened KeyRefs
  import opened Maps
  import opened Results
  import opened KeyTables
  import Text
  import P = KeyProtection
  import K = Keyring

  datatype DevelopmentConfig = DevelopmentConfig(
    clusterId: string, keyId: string, profile: string, policyId: string, subjects: seq<string>)

  datatype Step =
    | Bootstrap(key: P.ProtectedKey, packageId: string)
    | Configure(config: DevelopmentConfig, key: P.ProtectedKey)
    | Start(operationId: string, key: P.ProtectedKey, now: int)
    | Activate(operationId: string, now: int)
    | Record(operationId: string, name: VerificationName, detail: string, now: int)
    | AddSubject(clusterId: string, subject: string)
    | RevokeSubject(clusterId: string, subject: string)

  // ---------------------------------------------------------------------
  // When a transaction commits, and with what effect
  // ---------------------------------------------------------------------

  predicate FirstVersion(key: P.ProtectedKey) {
    P.ValidRecord(key) && key.status.Active? && key.ref.version == 1
  }

  predicate Bootstraps(t: Tables, key: P.ProtectedKey, packageId: string) {
    FirstVersion(key) && key.ref.clusterId !in t.clusters && (packageId == "" || packageId !in t.packages)
  }

  function Bootstrapped(t: Tables, key: P.ProtectedKey, packageId: string): Tables {
    var c, k := key.ref.clusterId, key.ref.keyId;
    t.(clusters := t.clusters + {c},
       keyrings := t.keyrings[(c, k) := key.profile],
       keys := t.keys[key.ref := RowOf(key)],
       policies := t.policies + {(c, key.policyId)},
       packages := if packageId == "" then t.packages else t.packages + {packageId})
  }

  predicate Matches(config: DevelopmentConfig, key: P.ProtectedKey) {
    && FirstVersion(key)
    && key.ref.clusterId == config.clusterId && key.ref.keyId == config.keyId
    && key.policyId == config.policyId && key.profile == config.profile
  }

  /** A keyring that exists already keeps all its keys, whatever is configured. */
  function Configured(t: Tables, config: DevelopmentConfig, key: P.ProtectedKey): Tables {
    var c, k := config.clusterId, config.keyId;
    var known := (c, k) in t.keyrings;
    t.(clusters := t.clusters + {c},
       keyrings := if known then t.keyrings else t.keyrings[(c, k) := config.profile],
       keys := if known then t.keys else t.keys[key.ref := RowOf(key)],
       policies := t.policies + {(c, config.policyId)},
       subjects := WithSubjects(t.subjects, c, config.subjects))
  }

  function WithSubject(subjects: map<(string, string), bool>, c: string, name: string): map<(string, string), bool> {
    if (c, name) in subjects then subjects else subjects[(c, name) := false]
  }

  /** Subjects are added, never changed. */
  function WithSubjects(subjects: map<(string, string), bool>, c: string, names: seq<string>)
    : (r: map<(string, string), bool>)
    ensures forall cs | cs in subjects :: cs in r && r[cs] == subjects[cs]
    ensures forall cs | cs in r :: cs in subjects || (cs.0 == c && cs.1 in names && !r[cs])
    ensures forall name | name in names :: (c, name) in r
  {
    if names == [] then subjects
    else
      var last := |names| - 1;
      assert names == names[..last] + [names[last]];
      WithSubject(WithSubjects(subjects, c, names[..last]), c, names[last])
  }

  predicate ValidStart(operationId: string, key: P.ProtectedKey) {
    operationId != "" && P.ValidRecord(key) && key.status.Pending?
  }

  /** No rotation is under way and `ref` is the version after the highest. */
  ghost predicate IsNext(t: Tables, ref: KeyRef) {
    exists top: Uint32 :: Shape(t, ref.clusterId, ref.keyId, top, top) && ref.version == top + 1
  }

  /** The reference a new pending key must use, whether or not a rotation is
      under way; none when the keyring is missing or full. */
  ghost function ProposedRef(t: Tables, c: string, k: string): Option<KeyRef> {
    if exists active: Uint32, top: Uint32 :: Shape(t, c, k, active, top) && top < MAX_UINT32 then
      var active: Uint32, top: Uint32 :| Shape(t, c, k, active, top) && top < MAX_UINT32;
      Some(KeyRef(c, k, top + 1))
    else None
  }

  ghost predicate Starts(t: Tables, operationId: string, key: P.ProtectedKey) {
    ValidStart(operationId, key) && operationId !in t.operations && IsNext(t, key.ref)
  }

  function Opening(key: P.ProtectedKey, now: int): Operation
    requires key.ref.version > 0
  {
    Operation(key.ref.clusterId, key.ref.keyId, key.ref.version - 1, key.ref.version, Started, now, now, None)
  }

  function StartedTables(t: Tables, operationId: string, key: P.ProtectedKey, now: int): Tables
    requires key.ref.version > 0
  {
    t.(keys := t.keys[key.ref := RowOf(key)], operations := t.operations[operationId := Opening(key, now)])
  }

  predicate Activates(t: Tables, operationId: string) {
    operationId in t.operations && t.operations[operationId].status.Started?
  }

  function FromRef(op: Operation): KeyRef {
    KeyRef(op.clusterId, op.keyId, op.fromVersion)
  }

  function ToRef(op: Operation): KeyRef {
    KeyRef(op.clusterId, op.keyId, op.toVersion)
  }

  function ActivatedTables(t: Tables, operationId: string, now: int): Tables
    requires operationId in t.operations
    requires FromRef(t.operations[operationId]) in t.keys && ToRef(t.operations[operationId]) in t.keys
  {
    var op := t.operations[operationId];
    var from, to := FromRef(op), ToRef(op);
    t.(keys := t.keys[from := t.keys[from].(status := K.DecryptOnly)][to := t.keys[to].(status := K.Active)],
       operations := t.operations[operationId := op.(status := Activated, updatedAt := now, activatedAt := Some(now))])
  }

  predicate Records(t: Tables, operationId: string, name: VerificationName, detail: string) {
    !name.Unsupported? && Text.TrimSpace(detail) != "" && operationId in t.operations
  }

  /** One committed transaction, or nothing when it is refused. */
  ghost function Apply(t: Tables, step: Step): Tables
    requires Inv(t)
  {
    match step
    case Bootstrap(key, packageId) => if Bootstraps(t, key, packageId) then Bootstrapped(t, key, packageId) else t
    case Configure(config, key) => if Matches(config, key) then Configured(t, config, key) else t
    case Start(id, key, now) => if Starts(t, id, key) then StartedTables(t, id, key, now) else t
    case Activate(id, now) =>
      if Activates(t, id) then ActivationFits(t, id); ActivatedTables(t, id, now) else t
    case Record(id, name, detail, now) =>
      if Records(t, id, name, detail) then t.(verifications := t.verifications[(id, name) := Verification(now, detail)])
      else t
    case AddSubject(c, s) =>
      if c in t.clusters then t.(subjects := WithSubjects(t.subjects, c, [s])) else t
    case RevokeSubject(c, s) =>
      if (c, s) in t.subjects then t.(subjects := t.subjects[(c, s) := true]) else t
  }

  ghost function Run(t: Tables, steps: seq<Step>): (t': Tables)
    requires Inv(t)
    ensures Inv(t')
    decreases |steps|
  {
    if steps == [] then t
    else
      ApplyKeepsInv(t, steps[0]);
      Run(Apply(t, steps[0]), steps[1..])
  }

  // ---------------------------------------------------------------------
  // The invariant
  // ---------------------------------------------------------------------

  /** A started operation finds its source active and its target pending, and
      no other version of the keyring active. */
  lemma ActivationFits(t: Tables, id: string)
    requires Inv(t) && Activates(t, id)
    ensures Fits(t, t.operations[id])
  {
    hide ValidRows, DistinctTargets, References;
    var op := t.operations[id];
    assert (op.clusterId, op.keyId) in t.keyrings by { assert References(t); OperationKeyring(t, id); }
    var a: Uint32, n: Uint32 :| Shape(t, op.clusterId, op.keyId, a, n);
    assert KeyRef(op.clusterId, op.keyId, a) in t.keys;
  }

  ghost predicate Fits(t: Tables, op: Operation) {
    && 1 <= op.fromVersion && op.toVersion == op.fromVersion + 1
    && Shape(t, op.clusterId, op.keyId, op.fromVersion, op.toVersion)
    && FromRef(op) in t.keys && t.keys[FromRef(op)].status.Active?
    && ToRef(op) in t.keys && t.keys[ToRef(op)].status.Pending?
  }

  lemma OperationKeyring(t: Tables, id: string)
    requires References(t) && id in t.operations
    ensures (t.operations[id].clusterId, t.operations[id].keyId) in t.keyrings
  {
  }

  lemma ApplyKeepsInv(t: Tables, step: Step)
    requires Inv(t)
    ensures Inv(Apply(t, step))
  {
    match step
    case Bootstrap(key, packageId) =>
      BootstrapKeepsInv(t, key, packageId);
    case Configure(config, key) =>
      ConfigureKeepsInv(t, config, key);
    case Start(id, key, now) =>
      StartKeepsInv(t, id, key, now);
    case Activate(id, now) =>
      ActivateKeepsInv(t, id, now);
    case Record(_, _, _, _) =>
      SideTablesKeepInv(t, step);
    case AddSubject(_, _) =>
      SideTablesKeepInv(t, step);
    case RevokeSubject(_, _) =>
      SideTablesKeepInv(t, step);
  }

  lemma SideTablesKeepInv(t: Tables, step: Step)
    requires Inv(t)
    requires step.Record? || step.AddSubject? || step.RevokeSubject?
    ensures Inv(Apply(t, step))
  {
    hide ValidRows, DistinctTargets, Shaped, References, Records;
    assert References(Apply(t, step)) by { SideReferences(t, step); }
    KeysUntouched(t, Apply(t, step));
  }

  lemma SideReferences(t: Tables, step: Step)
    requires Inv(t)
    requires step.Record? || step.AddSubject? || step.RevokeSubject?
    ensures References(Apply(t, step))
  {
    hide ValidRows, DistinctTargets, Shaped, Text.TrimSpace;
  }

  lemma KeysUntouched(t: Tables, t': Tables)
    requires Inv(t) && References(t')
    requires t'.keyrings.Keys == t.keyrings.Keys && t'.keys == t.keys && t'.operations == t.operations
    ensures Inv(t')
  {
    hide P.ValidRecord, References;
    forall ck | ck in t'.keyrings ensures Shaped(t', ck.0, ck.1) {
      hide ValidRows, DistinctTargets, Shaped;
      ShapeFrame(t, t', ck.0, ck.1);
    }
  }

  lemma BootstrapKeepsInv(t: Tables, key: P.ProtectedKey, packageId: string)
    requires Inv(t)
    ensures Inv(Apply(t, Bootstrap(key, packageId)))
  {
    hide P.ValidRecord, ValidRows, DistinctTargets, Shaped;
    if Bootstraps(t, key, packageId) {
      var t' := Bootstrapped(t, key, packageId);
      assert References(t');
      NewKeyringKeepsInv(t, t', key);
    }
  }

  lemma ConfigureKeepsInv(t: Tables, config: DevelopmentConfig, key: P.ProtectedKey)
    requires Inv(t)
    ensures Inv(Apply(t, Configure(config, key)))
  {
    hide P.ValidRecord, ValidRows, DistinctTargets, Shaped;
    if Matches(config, key) {
      var t' := Configured(t, config, key);
      assert References(t') by { ConfigureReferences(t, config, key); }
      hide References;
      if (config.clusterId, config.keyId) in t.keyrings {
        KeysUntouched(t, t');
      } else {
        NewKeyringKeepsInv(t, t', key);
      }
    }
  }

  lemma ConfigureReferences(t: Tables, config: DevelopmentConfig, key: P.ProtectedKey)
    requires References(t) && Matches(config, key)
    ensures References(Configured(t, config, key))
  {
    hide P.ValidRecord;
  }

  /** A keyring that was not there starts with its first version, active. */
  lemma NewKeyringKeepsInv(t: Tables, t': Tables, key: P.ProtectedKey)
    requires Inv(t) && References(t') && FirstVersion(key)
    requires (key.ref.clusterId, key.ref.keyId) !in t.keyrings
    requires t'.keyrings.Keys == t.keyrings.Keys + {(key.ref.clusterId, key.ref.keyId)}
    requires t'.keys == t.keys[key.ref := RowOf(key)] && t'.operations == t.operations
    ensures Inv(t')
  {
    hide P.ValidRecord, Shaped;
    var c, k := key.ref.clusterId, key.ref.keyId;
    NewRowValid(t, t', key);
    forall ck | ck in t'.keyrings ensures Shaped(t', ck.0, ck.1) {
      hide ValidRows, DistinctTargets;
      if ck == (c, k) {
        FirstShape(t, t', key);
      } else {
        hide References;
        ShapeFrame(t, t', ck.0, ck.1);
      }
    }
  }

  lemma FirstShape(t: Tables, t': Tables, key: P.ProtectedKey)
    requires References(t) && FirstVersion(key)
    requires (key.ref.clusterId, key.ref.keyId) !in t.keyrings
    requires t'.keys == t.keys[key.ref := RowOf(key)] && t'.operations == t.operations
    ensures Shaped(t', key.ref.clusterId, key.ref.keyId)
  {
    hide P.ValidRecord;
    assert Shape(t', key.ref.clusterId, key.ref.keyId, 1, 1);
  }

  lemma NewRowValid(t: Tables, t': Tables, key: P.ProtectedKey)
    requires ValidRows(t) && P.ValidRecord(key)
    requires t'.keys == t.keys[key.ref := RowOf(key)]
    ensures ValidRows(t')
  {
    hide P.ValidRecord;
    assert RecordOf(key.ref, RowOf(key)) == key;
  }

  lemma StartKeepsInv(t: Tables, id: string, key: P.ProtectedKey, now: int)
    requires Inv(t)
    ensures Inv(Apply(t, Start(id, key, now)))
  {
    hide P.ValidRecord, ValidRows, DistinctTargets, Shape, Shaped, References;
    if Starts(t, id, key) {
      var t' := StartedTables(t, id, key, now);
      var c, k := key.ref.clusterId, key.ref.keyId;
      var top: Uint32 :| Shape(t, c, k, top, top) && key.ref.version == top + 1;
      StartReferences(t, id, key, now, top);
      NewRowValid(t, t', key);
      StartTarget(t, id, key, now, top);
      forall ck | ck in t'.keyrings ensures Shaped(t', ck.0, ck.1) {
        if ck == (c, k) {
          StartShape(t, id, key, now, top);
        } else {
          ShapeFrame(t, t', ck.0, ck.1);
        }
      }
    }
  }

  lemma StartReferences(t: Tables, id: string, key: P.ProtectedKey, now: int, top: Uint32)
    requires References(t) && id !in t.operations
    requires Shape(t, key.ref.clusterId, key.ref.keyId, top, top) && key.ref.version == top + 1
    ensures References(StartedTables(t, id, key, now))
  {
    assert KeyRef(key.ref.clusterId, key.ref.keyId, 1) in t.keys;
  }

  /** The new version is above every target so far. */
  lemma StartTarget(t: Tables, id: string, key: P.ProtectedKey, now: int, top: Uint32)
    requires DistinctTargets(t) && id !in t.operations
    requires Shape(t, key.ref.clusterId, key.ref.keyId, top, top) && key.ref.version == top + 1
    ensures DistinctTargets(StartedTables(t, id, key, now))
  {
  }

  lemma StartShape(t: Tables, id: string, key: P.ProtectedKey, now: int, top: Uint32)
    requires id !in t.operations && key.status.Pending?
    requires Shape(t, key.ref.clusterId, key.ref.keyId, top, top) && key.ref.version == top + 1
    ensures Shape(StartedTables(t, id, key, now), key.ref.clusterId, key.ref.keyId, top, top + 1)
    ensures Shaped(StartedTables(t, id, key, now), key.ref.clusterId, key.ref.keyId)
  {
    var t' := StartedTables(t, id, key, now);
    assert id in t'.operations;
    assert Shape(t', key.ref.clusterId, key.ref.keyId, top, top + 1);
  }

  lemma ActivateKeepsInv(t: Tables, id: string, now: int)
    requires Inv(t)
    ensures Inv(Apply(t, Activate(id, now)))
  {
    hide P.ValidRecord, ValidRows, DistinctTargets, Shape, Shaped, References;
    if Activates(t, id) {
      ActivationFits(t, id);
      var t' := ActivatedTables(t, id, now);
      var op := t.operations[id];
      ActivateRows(t, id, now);
      assert References(t') by { ActivateReferences(t, id, now); }
      forall ck | ck in t'.keyrings ensures Shaped(t', ck.0, ck.1) {
        if ck == (op.clusterId, op.keyId) {
          ActivateShape(t, id, now);
        } else {
          ShapeFrame(t, t', ck.0, ck.1);
        }
      }
    }
  }

  lemma ActivateReferences(t: Tables, id: string, now: int)
    requires References(t) && Activates(t, id) && Fits(t, t.operations[id])
    ensures References(ActivatedTables(t, id, now))
  {
    hide Shape;
  }

  lemma ActivateRows(t: Tables, id: string, now: int)
    requires ValidRows(t) && DistinctTargets(t) && Activates(t, id) && Fits(t, t.operations[id])
    ensures ValidRows(ActivatedTables(t, id, now)) && DistinctTargets(ActivatedTables(t, id, now))
  {
    hide P.ValidRecord, Shape;
    var t' := ActivatedTables(t, id, now);
    forall ref | ref in t'.keys ensures P.ValidRecord(RecordOf(ref, t'.keys[ref])) {
      ValidAfterStatus(RecordOf(ref, t.keys[ref]), t'.keys[ref].status);
    }
  }

  lemma ActivateShape(t: Tables, id: string, now: int)
    requires DistinctTargets(t) && Activates(t, id) && Fits(t, t.operations[id])
    ensures Shape(ActivatedTables(t, id, now), t.operations[id].clusterId, t.operations[id].keyId,
                  t.operations[id].toVersion, t.operations[id].toVersion)
    ensures Shaped(ActivatedTables(t, id, now), t.operations[id].clusterId, t.operations[id].keyId)
  {
    var op := t.operations[id];
    assert Shape(ActivatedTables(t, id, now), op.clusterId, op.keyId, op.toVersion, op.toVersion);
  }

  lemma ValidAfterStatus(record: P.ProtectedKey, status: K.Status)
    requires P.ValidRecord(record) && (status == record.status || !status.UnknownStatus?)
    ensures P.ValidRecord(record.(status := status))
  {
  }

  // ---------------------------------------------------------------------
  // What no run undoes
  // ---------------------------------------------------------------------

  predicate Same(a: Row, b: Row) {
    a == b.(status := a.status)
  }

  /** Nothing is deleted. A key keeps all but its status and stays decryptable;
      an operation keeps all but its status and times and stays activated; a
      verification, once recorded, remains; a revoked subject stays revoked. */
  ghost predicate Later(t: Tables, t': Tables) {
    && t.clusters <= t'.clusters
    && (forall ck | ck in t.keyrings :: ck in t'.keyrings)
    && (forall ref | ref in t.keys :: ref in t'.keys && Same(t.keys[ref], t'.keys[ref])
          && (K.Decrypts(t.keys[ref].status) ==> K.Decrypts(t'.keys[ref].status)))
    && (forall id | id in t.operations :: id in t'.operations && Continues(t.operations[id], t'.operations[id]))
    && (forall v | v in t.verifications :: v in t'.verifications)
    && (forall cs | cs in t.subjects :: cs in t'.subjects && (t.subjects[cs] ==> t'.subjects[cs]))
  }

  predicate Continues(a: Operation, b: Operation) {
    && a == b.(status := a.status, updatedAt := a.updatedAt, activatedAt := a.activatedAt)
    && (a.status.Activated? ==> b == a)
  }

  lemma ApplyLater(t: Tables, step: Step)
    requires Inv(t)
    ensures Later(t, Apply(t, step))
  {
    hide Later, Apply, Inv;
    match step
    case Bootstrap(key, packageId) =>
      BootstrapLater(t, key, packageId);
    case Configure(config, key) =>
      ConfigureLater(t, config, key);
    case Start(id, key, now) =>
      StartLater(t, id, key, now);
    case Activate(id, now) =>
      ActivateLater(t, id, now);
    case _ =>
      SideLater(t, step);
  }

  lemma BootstrapLater(t: Tables, key: P.ProtectedKey, packageId: string)
    requires Inv(t)
    ensures Later(t, Apply(t, Bootstrap(key, packageId)))
  {
    hide P.ValidRecord, References, ValidRows, DistinctTargets, Shaped;
    if Bootstraps(t, key, packageId) {
      NoKeysYet(t, key.ref);
    }
  }

  lemma ConfigureLater(t: Tables, config: DevelopmentConfig, key: P.ProtectedKey)
    requires Inv(t)
    ensures Later(t, Apply(t, Configure(config, key)))
  {
    hide P.ValidRecord, References, ValidRows, DistinctTargets, Shaped;
    if Matches(config, key) && (config.clusterId, config.keyId) !in t.keyrings {
      NoKeysYet(t, key.ref);
    }
  }

  lemma SideLater(t: Tables, step: Step)
    requires Inv(t)
    requires step.Record? || step.AddSubject? || step.RevokeSubject?
    ensures Later(t, Apply(t, step))
  {
    hide Inv, Records, Same, K.Decrypts, Continues;
    SameKeysLater(t, Apply(t, step));
  }

  lemma SameKeysLater(t: Tables, t': Tables)
    requires t'.clusters == t.clusters && t'.keyrings == t.keyrings && t'.keys == t.keys
            && t'.operations == t.operations
    requires forall v | v in t.verifications :: v in t'.verifications
    requires forall cs | cs in t.subjects :: cs in t'.subjects && (t.subjects[cs] ==> t'.subjects[cs])
    ensures Later(t, t')
  {
  }

  lemma StartLater(t: Tables, id: string, key: P.ProtectedKey, now: int)
    requires Inv(t)
    ensures Later(t, Apply(t, Start(id, key, now)))
  {
    hide P.ValidRecord, References, ValidRows, DistinctTargets, Shaped, Shape;
    if Starts(t, id, key) {
      var top: Uint32 :| Shape(t, key.ref.clusterId, key.ref.keyId, top, top) && key.ref.version == top + 1;
      assert key.ref !in t.keys by { AboveTop(t, key.ref, top); }
    }
  }

  lemma AboveTop(t: Tables, ref: KeyRef, top: Uint32)
    requires Shape(t, ref.clusterId, ref.keyId, top, top) && ref.version == top + 1
    ensures ref !in t.keys
  {
    assert ref == KeyRef(ref.clusterId, ref.keyId, top + 1);
  }

  lemma ActivateLater(t: Tables, id: string, now: int)
    requires Inv(t)
    ensures Later(t, Apply(t, Activate(id, now)))
  {
    hide P.ValidRecord, References, ValidRows, DistinctTargets, Shaped, Shape;
    if Activates(t, id) {
      ActivationFits(t, id);
    }
  }

  lemma NoKeysYet(t: Tables, ref: KeyRef)
    requires References(t) && ((ref.clusterId, ref.keyId) !in t.keyrings || ref.clusterId !in t.clusters)
    ensures (ref.clusterId, ref.keyId) !in t.keyrings && ref !in t.keys
  {
    assert ref.clusterId !in t.clusters ==> (ref.clusterId, ref.keyId) !in t.keyrings;
  }

  lemma LaterRefl(t: Tables)
    ensures Later(t, t)
  {
  }

  lemma LaterTrans(a: Tables, b: Tables, c: Tables)
    requires Later(a, b) && Later(b, c)
    ensures Later(a, c)
  {
  }

  lemma {:induction false} RunLater(t: Tables, steps: seq<Step>)
    requires Inv(t)
    ensures Later(t, Run(t, steps))
    decreases |steps|
  {
    hide Later, Inv, Apply;
    LaterRefl(t);
    if steps != [] {
      ApplyKeepsInv(t, steps[0]);
      ApplyLater(t, steps[0]);
      RunLater(Apply(t, steps[0]), steps[1..]);
      LaterTrans(t, Apply(t, steps[0]), Run(t, steps));
    }
  }

  /** Activating again, at any time and after any run, changes nothing. */
  lemma ReactivationIsIdle(t: Tables, id: string, now: int, steps: seq<Step>, again: int)
    requires Inv(t) && id in t.operations
    ensures Apply(Run(t, [Activate(id, now)] + steps), Activate(id, again)) == Run(t, [Activate(id, now)] + steps)
  {
    hide P.ValidRecord, ValidRows, DistinctTargets, References, Later;
    var t' := Apply(t, Activate(id, now));
    ApplyKeepsInv(t, Activate(id, now));
    assert id in t'.operations && t'.operations[id].status.Activated? by { ActivatedAfter(t, id, now); }
    RunLater(t', steps);
    StaysActivated(t', Run(t', steps), id);
    FirstStep(t, Activate(id, now), steps);
  }

  lemma FirstStep(t: Tables, step: Step, steps: seq<Step>)
    requires Inv(t)
    ensures Inv(Apply(t, step)) && Run(t, [step] + steps) == Run(Apply(t, step), steps)
  {
    hide Inv, Apply;
    ApplyKeepsInv(t, step);
    assert ([step] + steps)[1..] == steps;
  }

  lemma ActivatedAfter(t: Tables, id: string, now: int)
    requires Inv(t) && id in t.operations
    ensures id in Apply(t, Activate(id, now)).operations
    ensures Apply(t, Activate(id, now)).operations[id].status.Activated?
  {
    hide P.ValidRecord, ValidRows, DistinctTargets, References;
    if !Activates(t, id) {
      assert (t.operations[id].clusterId, t.operations[id].keyId) in t.keyrings by { OperationKeyring(t, id); }
    }
  }

  lemma StaysActivated(t: Tables, t': Tables, id: string)
    requires Later(t, t') && id in t.operations && t.operations[id].status.Activated?
    ensures id in t'.operations && t'.operations[id] == t.operations[id]
  {
  }

  /** Of two keys protected for one version only the first to start is stored:
      after any further run the other is refused and changes nothing. */
  lemma StaleProposal(t: Tables, id: string, key: P.ProtectedKey, now: int, steps: seq<Step>,
                      staleId: string, stale: P.ProtectedKey, later: int)
    requires Inv(t) && Starts(t, id, key) && stale.ref == key.ref
    ensures Apply(Run(t, [Start(id, key, now)] + steps), Start(staleId, stale, later))
            == Run(t, [Start(id, key, now)] + steps)
  {
    hide P.ValidRecord, Inv, IsNext, Later;
    var t' := Apply(t, Start(id, key, now));
    FirstStep(t, Start(id, key, now), steps);
    RunLater(t', steps);
    StaysTaken(t', Run(t', steps), stale.ref);
  }

  lemma StaysTaken(t: Tables, t': Tables, ref: KeyRef)
    requires Later(t, t') && ref in t.keys
    ensures !IsNext(t', ref)
  {
    hide Shape;
    assert ref in t'.keys;
    if top: Uint32 :| Shape(t', ref.clusterId, ref.keyId, top, top) && ref.version == top + 1 {
      AboveTop(t', ref, top);
    }
  }

  lemma EmptyInv()
    ensures Inv(EMPTY)
  {
  }

  /** The tables that some run of transactions makes of an empty store. */
  ghost function Reached(steps: seq<Step>): (t: Tables)
    ensures Inv(t)
  {
    EmptyInv();
    Run(EMPTY, steps)
  }

  /** The keyring of every reachable store: versions 1 to top, one active, all
      below it decrypt-only, and a version above it exactly while one operation
      is started, which is the only one and moves from the active version. */
  lemma ReachableKeyring(steps: seq<Step>, c: string, k: string)
    requires (c, k) in Reached(steps).keyrings
    ensures exists active: Uint32, top: Uint32 ::
              && VersionsShape(Reached(steps).keys, c, k, active, top)
              && (active < top <==> HasStarted(Reached(steps), c, k))
              && forall x, y | x in Reached(steps).operations && y in Reached(steps).operations ::
                   && (IsStartedOn(Reached(steps), x, c, k) ==>
                         Reached(steps).operations[x].fromVersion == active
                             && Reached(steps).operations[x].toVersion == top)
                   && (IsStartedOn(Reached(steps), x, c, k) && IsStartedOn(Reached(steps), y, c, k) ==> x == y)
  {
    hide P.ValidRecord, ValidRows, References, VersionsShape, Run;
    var t := Reached(steps);
    var ck := (c, k);
    assert Shaped(t, ck.0, ck.1);
    var active: Uint32, top: Uint32 :| Shape(t, c, k, active, top);
    assert active < top <==> HasStarted(t, c, k) by { StartedAbove(t, c, k, active, top); }
    forall x, y | x in t.operations && y in t.operations && IsStartedOn(t, x, c, k)
      ensures t.operations[x].fromVersion == active && t.operations[x].toVersion == top
      ensures IsStartedOn(t, y, c, k) ==> x == y
    {
      StartedAbove(t, c, k, active, top);
    }
  }

  predicate IsStartedOn(t: Tables, id: string, c: string, k: string) {
    id in t.operations && OnKeyring(t.operations[id], c, k) && t.operations[id].status.Started?
  }

  lemma StartedAbove(t: Tables, c: string, k: string, active: Uint32, top: Uint32)
    requires Shape(t, c, k, active, top)
    ensures active < top <==> HasStarted(t, c, k)
    ensures forall id | IsStartedOn(t, id, c, k) ::
            t.operations[id].fromVersion == active && t.operations[id].toVersion == top
  {
  }

  // ---------------------------------------------------------------------
  // Each transaction, table by table
  // ---------------------------------------------------------------------

  predicate SameKeyTables(t: Tables, t': Tables) {
    && t'.clusters == t.clusters && t'.keyrings == t.keyrings && t'.keys == t.keys
    && t'.policies == t.policies && t'.packages == t.packages && t'.operations == t.operations
  }

  /** The record itself is stored, and no other key changes. */
  predicate StoresKey(t: Tables, t': Tables, key: P.ProtectedKey) {
    && t'.keys.Keys == t.keys.Keys + {key.ref} && RecordOf(key.ref, t'.keys[key.ref]) == key
    && forall ref | ref in t.keys && ref != key.ref :: t'.keys[ref] == t.keys[ref]
  }

  /** A first active version, of a new cluster, with a new package if any. */
  predicate BootstrapCondition(t: Tables, key: P.ProtectedKey, packageId: string) {
    && P.ValidRecord(key) && key.status == K.Active && key.ref.version == 1
    && key.ref.clusterId !in t.clusters && (packageId == "" || packageId !in t.packages)
  }

  predicate BootstrapWritten(t: Tables, t': Tables, key: P.ProtectedKey, packageId: string) {
    && t'.clusters == t.clusters + {key.ref.clusterId}
    && t'.policies == t.policies + {(key.ref.clusterId, key.policyId)}
    && t'.packages == t.packages + (if packageId == "" then {} else {packageId})
    && Sets(t.keyrings, t'.keyrings, (key.ref.clusterId, key.ref.keyId), key.profile)
    && StoresKey(t, t', key)
    && t'.operations == t.operations && t'.verifications == t.verifications && t'.subjects == t.subjects
  }

  lemma BootstrapWrites(t: Tables, key: P.ProtectedKey, packageId: string)
    requires Inv(t)
    ensures if BootstrapCondition(t, key, packageId)
            then BootstrapWritten(t, Apply(t, Bootstrap(key, packageId)), key, packageId)
            else Apply(t, Bootstrap(key, packageId)) == t
  {
    hide Inv, P.ValidRecord;
    if BootstrapCondition(t, key, packageId) {
      var t' := Apply(t, Bootstrap(key, packageId));
      assert t'.packages == t.packages + (if packageId == "" then {} else {packageId});
    }
  }

  /** A first active version that matches the configuration. */
  predicate ConfigureCondition(config: DevelopmentConfig, key: P.ProtectedKey) {
    && P.ValidRecord(key) && key.status == K.Active && key.ref == KeyRef(config.clusterId, config.keyId, 1)
    && key.policyId == config.policyId && key.profile == config.profile
  }

  /** What is missing is seeded: a keyring that is there keeps its profile and its
      keys, a subject its revocation. */
  ghost predicate ConfigureWritten(t: Tables, t': Tables, config: DevelopmentConfig, key: P.ProtectedKey) {
    var c, k := config.clusterId, config.keyId;
    && t'.clusters == t.clusters + {c} && t'.policies == t.policies + {(c, config.policyId)}
    && ((c, k) in t.keyrings ==> t'.keyrings == t.keyrings && t'.keys == t.keys)
    && ((c, k) !in t.keyrings ==> Sets(t.keyrings, t'.keyrings, (c, k), config.profile) && StoresKey(t, t', key))
    && (forall cs :: cs in t'.subjects <==> cs in t.subjects || (cs.0 == c && cs.1 in config.subjects))
    && (forall cs | cs in t'.subjects :: t'.subjects[cs] <==> cs in t.subjects && t.subjects[cs])
    && t'.operations == t.operations && t'.verifications == t.verifications && t'.packages == t.packages
  }

  lemma ConfigureWrites(t: Tables, config: DevelopmentConfig, key: P.ProtectedKey)
    requires Inv(t)
    ensures if ConfigureCondition(config, key)
            then ConfigureWritten(t, Apply(t, Configure(config, key)), config, key)
            else Apply(t, Configure(config, key)) == t
  {
    hide Inv, P.ValidRecord, WithSubjects;
    if ConfigureCondition(config, key) {
      SeededSubjects(t.subjects, config.clusterId, config.subjects);
    }
  }

  lemma SeededSubjects(subjects: map<(string, string), bool>, c: string, names: seq<string>)
    ensures forall cs :: cs in WithSubjects(subjects, c, names) <==> cs in subjects || (cs.0 == c && cs.1 in names)
    ensures forall cs | cs in WithSubjects(subjects, c, names) ::
              WithSubjects(subjects, c, names)[cs] <==> cs in subjects && subjects[cs]
  {
    hide WithSubjects;
    var r := WithSubjects(subjects, c, names);
    forall cs: (string, string) | cs.0 == c && cs.1 in names ensures cs in r {
      assert (c, cs.1) in r && cs == (c, cs.1);
    }
  }

  /** A pending key for the next version, under a new operation. */
  ghost predicate StartCondition(t: Tables, id: string, key: P.ProtectedKey) {
    id != "" && id !in t.operations && P.ValidRecord(key) && key.status == K.Pending && IsNext(t, key.ref)
  }

  /** The new key as it was protected, and one operation from the version before
      it, started now. */
  predicate StartWritten(t: Tables, t': Tables, id: string, key: P.ProtectedKey, now: int) {
    && key.ref.version > 1 && StoresKey(t, t', key)
    && Sets(t.operations, t'.operations, id,
            Operation(key.ref.clusterId, key.ref.keyId, key.ref.version - 1, key.ref.version, Started, now, now, None))
    && t'.clusters == t.clusters && t'.keyrings == t.keyrings && t'.policies == t.policies
    && t'.packages == t.packages && t'.verifications == t.verifications && t'.subjects == t.subjects
  }

  lemma StartWrites(t: Tables, id: string, key: P.ProtectedKey, now: int)
    requires Inv(t)
    ensures if StartCondition(t, id, key) then StartWritten(t, Apply(t, Start(id, key, now)), id, key, now)
            else Apply(t, Start(id, key, now)) == t
  {
    hide Inv, P.ValidRecord, Shape;
    if StartCondition(t, id, key) {
      var top: Uint32 :| Shape(t, key.ref.clusterId, key.ref.keyId, top, top) && key.ref.version == top + 1;
      ShapeBounds(t, key.ref.clusterId, key.ref.keyId, top, top);
    }
  }

  lemma ShapeBounds(t: Tables, c: string, k: string, active: Uint32, top: Uint32)
    requires Shape(t, c, k, active, top)
    ensures 1 <= active <= top <= active + 1
  {
  }

  /** The operation's source decrypts only, its target is active, it is activated
      now; every other key and every other operation stays. */
  predicate ActivationWritten(t: Tables, t': Tables, id: string, op: Operation, now: int) {
    var from, to := KeyRef(op.clusterId, op.keyId, op.fromVersion), KeyRef(op.clusterId, op.keyId, op.toVersion);
    && from in t.keys && to in t.keys && from != to && t'.keys.Keys == t.keys.Keys
    && t'.keys[from] == t.keys[from].(status := K.DecryptOnly) && t'.keys[to] == t.keys[to].(status := K.Active)
    && (forall ref | ref in t.keys && ref != from && ref != to :: t'.keys[ref] == t.keys[ref])
    && Sets(t.operations, t'.operations, id,
            Operation(op.clusterId, op.keyId, op.fromVersion, op.toVersion, Activated, op.createdAt, now, Some(now)))
    && t'.clusters == t.clusters && t'.keyrings == t.keyrings && t'.policies == t.policies
    && t'.packages == t.packages && t'.verifications == t.verifications && t'.subjects == t.subjects
  }

  lemma ActivateWrites(t: Tables, id: string, now: int)
    requires Inv(t)
    ensures if id in t.operations && t.operations[id].status == Started
            then ActivationWritten(t, Apply(t, Activate(id, now)), id, t.operations[id], now)
            else Apply(t, Activate(id, now)) == t
  {
    hide Inv, Shape;
    if Activates(t, id) {
      ActivationFits(t, id);
    }
  }

  /** One verification of an existing operation, under its own name. */
  lemma RecordWrites(t: Tables, id: string, name: VerificationName, detail: string, now: int)
    requires Inv(t)
    ensures SameKeyTables(t, Apply(t, Record(id, name, detail, now)))
    ensures Apply(t, Record(id, name, detail, now)).subjects == t.subjects
    ensures if (name.OpenBaoRoot? || name.Restart? || name.KeyVersionProof?)
               && Text.TrimSpace(detail) != "" && id in t.operations
            then Sets(t.verifications, Apply(t, Record(id, name, detail, now)).verifications,
                      (id, name), Verification(now, detail))
            else Apply(t, Record(id, name, detail, now)) == t
  {
    hide Inv, Text.TrimSpace;
  }

  /** A subject of a known cluster is added live where it is missing, and nothing
      else changes. */
  lemma AddSubjectWrites(t: Tables, c: string, subject: string)
    requires Inv(t)
    ensures SameKeyTables(t, Apply(t, AddSubject(c, subject)))
    ensures Apply(t, AddSubject(c, subject)).verifications == t.verifications
    ensures if c in t.clusters && (c, subject) !in t.subjects
            then Sets(t.subjects, Apply(t, AddSubject(c, subject)).subjects, (c, subject), false)
            else Apply(t, AddSubject(c, subject)).subjects == t.subjects
  {
    hide Inv, WithSubjects;
    SeededSubjects(t.subjects, c, [subject]);
    var subjects := WithSubjects(t.subjects, c, [subject]);
    assert subject in [subject];
    assert (c, subject) in t.subjects ==> subjects == t.subjects;
  }

  /** The named subject is revoked, if it is there, and no other. */
  lemma RevokeSubjectWrites(t: Tables, c: string, subject: string)
    requires Inv(t)
    ensures SameKeyTables(t, Apply(t, RevokeSubject(c, subject)))
    ensures Apply(t, RevokeSubject(c, subject)).verifications == t.verifications
    ensures if (c, subject) in t.subjects
            then Sets(t.subjects, Apply(t, RevokeSubject(c, subject)).subjects, (c, subject), true)
            else Apply(t, RevokeSubject(c, subject)).subjects == t.subjects
  {
    hide Inv;
  }
}
