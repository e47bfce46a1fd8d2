/** The store's key transactions, statement by statement, on the tables they
    change. A transaction works on its own copy and replaces the tables only
    when every statement has gone through. */
module KeyStore {
  import opened KeyRefs
  import opened Results
  import opened KeyTables
  import opened KeyTransactions
  import opened Maps
  import opened Times
  import Text
  import P = KeyProtection
  import K = Keyring

  /** INSERT OR IGNORE. */
  function Ignoring(t: Tables, inserted: Result<Tables, Error>): Tables {
    if inserted.Ok? then inserted.value else t
  }

  /** Committing what a transaction made of the tables, or rolling it back. */
  function Commit(t: Tables, tx: Result<Tables, Error>): Tables {
    if tx.Ok? then tx.value else t
  }

  class SqliteStore {
    var tables: Tables

    ghost predicate Valid()
      reads this
    {
      Inv(tables)
    }

    constructor ()
      ensures Valid() && tables == EMPTY
    {
      tables := EMPTY;
    }

    method BootstrapKeyring(key: P.ProtectedKey, packageId: string) returns (r: Result<(), Error>)
      requires Valid()
      modifies this
      ensures Valid() && tables == Apply(old(tables), Bootstrap(key, packageId))
      ensures r.Ok? <==> Bootstraps(old(tables), key, packageId)
      ensures r.Err? ==> r.error == if FirstVersion(key) then ConstraintViolation else InvalidRequest
    {
      hide P.ValidRecord, ValidRows, DistinctTargets, Shaped;
      ApplyKeepsInv(tables, Bootstrap(key, packageId));
      if !P.ValidRecord(key) || !key.status.Active? || key.ref.version != 1 {
        return Err(InvalidRequest);
      }
      var c, k := key.ref.clusterId, key.ref.keyId;
      var row := RowOf(key);
      if c !in tables.clusters {
        NoKeysYet(tables, key.ref);
      }
      var tx := InsertCluster(tables, c);
      tx := tx.Then(t => InsertKeyring(t, c, k, key.profile));
      tx := tx.Then(t => InsertKey(t, key.ref, row));
      tx := tx.Then(t => InsertPolicy(t, c, key.policyId));
      if packageId != "" {
        tx := tx.Then(t => InsertPackage(t, packageId, c, k));
      }
      tables := Commit(tables, tx);
      r := tx.Then(_ => Ok(()));
    }

    method ConfigureDevelopment(config: DevelopmentConfig, key: P.ProtectedKey) returns (r: Result<(), Error>)
      requires Valid()
      modifies this
      ensures Valid() && tables == Apply(old(tables), Configure(config, key))
      ensures r.Ok? <==> Matches(config, key)
      ensures r.Err? ==> r.error == InvalidRequest
    {
      hide P.ValidRecord, ValidRows, DistinctTargets;
      ApplyKeepsInv(tables, Configure(config, key));
      if !Matches(config, key) {
        return Err(InvalidRequest);
      }
      var seeded := SeedSubjects(tables.subjects, config.clusterId, config.subjects);
      var seededKeys := SeedKeyring(tables, config, key);
      tables := seededKeys.(subjects := seeded);
      r := Ok(());
    }

    /** The active version of a keyring and the one after its highest. */
    method NextRotationVersions(c: string, k: string) returns (r: Result<(Uint32, Uint32), Error>)
      requires Valid()
      ensures r == Err(KeyNotUsable) <==> (c, k) !in tables.keyrings
      ensures r == Err(InvalidTransition) <==> exists active: Uint32 :: Shape(tables, c, k, active, MAX_UINT32)
      ensures r.Err? ==> r.error == KeyNotUsable || r.error == InvalidTransition
      ensures r.Ok? ==> r.value.1 > 0 && Shape(tables, c, k, r.value.0, r.value.1 - 1)
    {
      hide P.ValidRecord, ValidRows, DistinctTargets, Shape;
      if (c, k) in tables.keyrings {
        ActiveThere(tables, c, k);
      }
      NoActive(tables, c, k);
      if !HasActive(tables, c, k) {
        return Err(KeyNotUsable);
      }
      var active :| active in tables.keys && active.clusterId == c && active.keyId == k
          && tables.keys[active].status.Active?;
      HighestThere(tables, active);
      var top :| top in tables.keys && top.clusterId == c && top.keyId == k
                 && forall ref | ref in tables.keys && ref.clusterId == c && ref.keyId == k ::
                    ref.version <= top.version;
      ActiveAndHighest(tables, active, top);
      if top.version >= MAX_UINT32 {
        return Err(InvalidTransition);
      }
      r := Ok((active.version, top.version + 1));
    }

    method NextRotationKeyRef(c: string, k: string) returns (r: Result<KeyRef, Error>)
      requires Valid()
      ensures r.Ok? ==> ProposedRef(tables, c, k) == Some(r.value)
      ensures r.Err? <==> ProposedRef(tables, c, k).None?
      ensures r.Ok? ==> r.value !in tables.keys
      ensures r.Ok? ==> (IsNext(tables, r.value) <==> !HasStarted(tables, c, k))
      ensures r.Err? ==> forall version: Uint32 :: !IsNext(tables, KeyRef(c, k, version))
    {
      hide P.ValidRecord, ValidRows, DistinctTargets, References, Shape;
      var versions := NextRotationVersions(c, k);
      if versions.Err? {
        NothingNext(tables, c, k);
        NothingProposed(tables, c, k);
        return Err(versions.error);
      }
      r := Ok(KeyRef(c, k, versions.value.1));
      ProposalIsNext(tables, c, k, versions.value.0, versions.value.1 - 1);
      NextAboveHighest(tables, r.value, versions.value.0);
    }

    method StartRotation(operationId: string, key: P.ProtectedKey, createdAt: int, clock: int)
      returns (r: Result<Operation, Error>)
      requires Valid()
      modifies this
      ensures Valid() && tables == Apply(old(tables), Start(operationId, key, Resolved(createdAt, clock)))
      ensures r.Ok? <==> Starts(old(tables), operationId, key)
      ensures r.Ok? ==> r.value == Opening(key, Resolved(createdAt, clock))
      ensures r == Err(RotationInProgress) <==>
              ValidStart(operationId, key) && HasStarted(old(tables), key.ref.clusterId, key.ref.keyId)
      ensures r == Err(KeyNotUsable) <==>
              ValidStart(operationId, key) && (key.ref.clusterId, key.ref.keyId) !in old(tables).keyrings
      ensures r == Err(ConstraintViolation) <==>
              ValidStart(operationId, key) && IsNext(old(tables), key.ref) && operationId in old(tables).operations
    {
      hide P.ValidRecord, ValidRows, DistinctTargets, References, Shape, Shaped, IsNext;
      var now := Resolved(createdAt, clock);
      ApplyKeepsInv(tables, Start(operationId, key, now));
      var c, k := key.ref.clusterId, key.ref.keyId;
      NothingNext(tables, c, k);
      StartedIsThere(tables, c, k);
      if !ValidStart(operationId, key) {
        return Err(InvalidTransition);
      }
      if HasStarted(tables, c, k) {
        return Err(RotationInProgress);
      }
      var versions := NextRotationVersions(c, k);
      if versions.Err? {
        return Err(versions.error);
      }
      var from, to := versions.value.0, versions.value.1;
      NextAboveHighest(tables, KeyRef(c, k, to), from);
      if key.ref.version != to {
        NextIsOne(tables, key.ref, to);
        return Err(InvalidTransition);
      }
      var op := Operation(c, k, from, to, Started, now, now, None);
      StartStatements(tables, operationId, key, op);
      var row := RowOf(key);
      var tx := InsertKey(tables, key.ref, row).Then(t => InsertOperation(t, operationId, op));
      tables := Commit(tables, tx);
      r := tx.Then(_ => Ok(op));
    }

    /** Only a missing operation is refused: no status move fails, and no
        statement meets a second active version. */
    method ActivateRotation(operationId: string, time: int, clock: int) returns (r: Result<Operation, Error>)
      requires Valid()
      modifies this
      ensures Valid() && tables == Apply(old(tables), Activate(operationId, Resolved(time, clock)))
      ensures r.Err? <==> operationId !in old(tables).operations
      ensures r.Err? ==> r.error == RotationNotFound
      ensures r.Ok? ==> operationId in tables.operations && r.value == tables.operations[operationId]
      ensures r.Ok? ==> r.value.status.Activated?
    {
      hide P.ValidRecord, ValidRows, DistinctTargets, References, Shape, Shaped, UpdateKeyStatus;
      var now := Resolved(time, clock);
      ApplyKeepsInv(tables, Activate(operationId, now));
      if operationId !in tables.operations {
        return Err(RotationNotFound);
      }
      ActivatedAfter(tables, operationId, now);
      var op := tables.operations[operationId];
      if op.status.Activated? {
        return Ok(op);
      }
      var done := op.(status := Activated, updatedAt := now, activatedAt := Some(now));
      ActivateStatements(tables, operationId, now);
      var tx: Result<Tables, Error> :=
        if op.status.Started? then UpdateKeyStatus(tables, FromRef(op), K.Active, K.DecryptOnly)
           else Err(InvalidTransition);
      tx := tx.Then(t => UpdateKeyStatus(t, ToRef(op), K.Pending, K.Active));
      tx := tx.Then((t: Tables) => Ok(t.(operations := t.operations[operationId := done])));
      tables := Commit(tables, tx);
      r := tx.Then(_ => Ok(done));
    }

    method RecordRotationVerification(operationId: string, name: VerificationName, detail: string, time: int,
                                      clock: int)
      returns (r: Result<Verification, Error>)
      requires Valid()
      modifies this
      ensures Valid() && tables == Apply(old(tables), Record(operationId, name, detail, Resolved(time, clock)))
      ensures r.Ok? <==> Records(old(tables), operationId, name, detail)
      ensures r.Ok?
              ==> (operationId, name) in tables.verifications && r.value == tables.verifications[(operationId, name)]
      ensures r == Err(RotationNotFound) <==>
              operationId !in old(tables).operations && !name.Unsupported? && Text.TrimSpace(detail) != ""
    {
      hide Inv, Text.TrimSpace;
      var now := Resolved(time, clock);
      ApplyKeepsInv(tables, Record(operationId, name, detail, now));
      if name.Unsupported? {
        return Err(InvalidTransition);
      }
      if Text.TrimSpace(detail) == "" {
        return Err(InvalidRequest);
      }
      if operationId !in tables.operations {
        return Err(RotationNotFound);
      }
      var verification := Verification(now, detail);
      tables := tables.(verifications := tables.verifications[(operationId, name) := verification]);
      r := Ok(verification);
    }

    method InsertSubject(c: string, subject: string) returns (r: Result<(), Error>)
      requires Valid()
      modifies this
      ensures Valid() && tables == Apply(old(tables), AddSubject(c, subject))
      ensures r == if c in old(tables).clusters then Ok(()) else Err(ConstraintViolation)
      ensures tables == old(tables).(subjects := tables.subjects)
      ensures if r.Ok? && (c, subject) !in old(tables).subjects
              then Sets(old(tables).subjects, tables.subjects, (c, subject), false)
              else tables.subjects == old(tables).subjects
    {
      hide Inv;
      ApplyKeepsInv(tables, AddSubject(c, subject));
      if c !in tables.clusters {
        return Err(ConstraintViolation);
      }
      AddSubjectWrites(tables, c, subject);
      var seeded := SeedSubjects(tables.subjects, c, [subject]);
      tables := tables.(subjects := seeded);
      r := Ok(());
    }

    method RevokeSubject(c: string, subject: string) returns (r: Result<(), Error>)
      requires Valid()
      modifies this
      ensures Valid() && tables == Apply(old(tables), Step.RevokeSubject(c, subject))
      ensures r == if (c, subject) in old(tables).subjects then Ok(()) else Err(SubjectNotFound)
      ensures tables == old(tables).(subjects := tables.subjects)
      ensures if r.Ok? then Sets(old(tables).subjects, tables.subjects, (c, subject), true) else tables == old(tables)
    {
      hide Inv;
      ApplyKeepsInv(tables, Step.RevokeSubject(c, subject));
      if (c, subject) !in tables.subjects {
        return Err(SubjectNotFound);
      }
      tables := tables.(subjects := tables.subjects[(c, subject) := true]);
      r := Ok(());
    }
  }

  /** Each insert is skipped where its row, or an active key, is there already. */
  method SeedKeyring(t: Tables, config: DevelopmentConfig, key: P.ProtectedKey) returns (tx: Tables)
    requires Inv(t) && Matches(config, key)
    ensures tx == Configured(t, config, key).(subjects := t.subjects)
  {
    hide P.ValidRecord, Inv, WithSubjects, InsertKey, HasActive;
    var c, k := config.clusterId, config.keyId;
    KeyringHasFirst(t, key.ref);
    tx := Ignoring(t, InsertCluster(t, c));
    assert tx == t.(clusters := t.clusters + {c});
    tx := Ignoring(tx, InsertKeyring(tx, c, k, config.profile));
    KeyInsert(t, tx, key.ref, RowOf(key));
    tx := Ignoring(tx, InsertKey(tx, key.ref, RowOf(key)));
    assert (c, config.policyId) in t.policies ==> t.policies + {(c, config.policyId)} == t.policies;
    tx := Ignoring(tx, InsertPolicy(tx, c, config.policyId));
  }

  lemma KeyInsert(t: Tables, tx: Tables, ref: KeyRef, row: Row)
    requires Inv(t) && ref.version == 1
    requires tx.keys == t.keys && (ref.clusterId, ref.keyId) in tx.keyrings
    ensures Ignoring(tx, InsertKey(tx, ref, row))
            == if (ref.clusterId, ref.keyId) in t.keyrings then tx else tx.(keys := t.keys[ref := row])
  {
    hide Inv;
    KeyringHasFirst(t, ref);
  }

  lemma KeyringHasFirst(t: Tables, ref: KeyRef)
    requires Inv(t) && ref.version == 1
    ensures (ref.clusterId, ref.keyId) in t.keyrings <==> ref in t.keys
    ensures (ref.clusterId, ref.keyId) in t.keyrings <== HasActive(t, ref.clusterId, ref.keyId)
    ensures (ref.clusterId, ref.keyId) in t.keyrings ==> ref.clusterId in t.clusters
  {
    hide P.ValidRecord, ValidRows, DistinctTargets, Shaped;
    if (ref.clusterId, ref.keyId) in t.keyrings {
      FirstVersionThere(t, ref);
    }
  }

  method SeedSubjects(subjects: map<(string, string), bool>, c: string, names: seq<string>)
    returns (seeded: map<(string, string), bool>)
    ensures seeded == WithSubjects(subjects, c, names)
  {
    seeded := subjects;
    for i := 0 to |names|
      invariant seeded == WithSubjects(subjects, c, names[..i])
    {
      assert names[..i + 1][..i] == names[..i];
      if (c, names[i]) !in seeded {
        seeded := seeded[(c, names[i]) := false];
      }
    }
    assert names[..|names|] == names;
  }

  lemma FirstVersionThere(t: Tables, ref: KeyRef)
    requires Inv(t) && (ref.clusterId, ref.keyId) in t.keyrings && ref.version == 1
    ensures ref in t.keys && ref.clusterId in t.clusters
  {
    hide ValidRows, DistinctTargets;
    var ck := (ref.clusterId, ref.keyId);
    assert Shaped(t, ck.0, ck.1);
    assert ref == KeyRef(ck.0, ck.1, 1);
  }

  lemma ActiveThere(t: Tables, c: string, k: string)
    requires Inv(t) && (c, k) in t.keyrings
    ensures HasActive(t, c, k)
  {
    hide ValidRows, DistinctTargets, References;
    var ck := (c, k);
    assert Shaped(t, ck.0, ck.1);
    var a: Uint32, n: Uint32 :| Shape(t, c, k, a, n);
    assert KeyRef(c, k, a) in t.keys;
  }

  lemma NoActive(t: Tables, c: string, k: string)
    requires References(t)
    ensures HasActive(t, c, k) ==> (c, k) in t.keyrings
    ensures forall a: Uint32, n: Uint32 | Shape(t, c, k, a, n) :: (c, k) in t.keyrings
  {
    forall a: Uint32, n: Uint32 | Shape(t, c, k, a, n) ensures (c, k) in t.keyrings {
      assert KeyRef(c, k, 1) in t.keys;
    }
  }

  lemma HighestThere(t: Tables, ref: KeyRef)
    requires Inv(t) && ref in t.keys
    ensures exists top :: top in t.keys && top.clusterId == ref.clusterId && top.keyId == ref.keyId
              && forall r | r in t.keys && r.clusterId == ref.clusterId && r.keyId == ref.keyId ::
                 r.version <= top.version
  {
    hide ValidRows, DistinctTargets;
    var ck := (ref.clusterId, ref.keyId);
    assert Shaped(t, ck.0, ck.1);
    var a: Uint32, n: Uint32 :| Shape(t, ck.0, ck.1, a, n);
    var top := KeyRef(ck.0, ck.1, n);
    assert top in t.keys;
    forall r | r in t.keys && r.clusterId == ref.clusterId && r.keyId == ref.keyId ensures r.version <= top.version {
      assert r == KeyRef(ck.0, ck.1, r.version);
    }
  }

  lemma ActiveAndHighest(t: Tables, active: KeyRef, top: KeyRef)
    requires Inv(t) && active in t.keys && t.keys[active].status.Active?
    requires top in t.keys && top.clusterId == active.clusterId && top.keyId == active.keyId
    requires forall r | r in t.keys && r.clusterId == active.clusterId && r.keyId == active.keyId ::
            r.version <= top.version
    ensures Shape(t, active.clusterId, active.keyId, active.version, top.version)
    ensures forall a: Uint32, n: Uint32 :: Shape(t, active.clusterId, active.keyId, a, n) ==> n == top.version
  {
    hide ValidRows, DistinctTargets;
    var ck := (active.clusterId, active.keyId);
    assert Shaped(t, ck.0, ck.1);
    var a: Uint32, n: Uint32 :| Shape(t, ck.0, ck.1, a, n);
    assert KeyRef(ck.0, ck.1, n) in t.keys && top == KeyRef(ck.0, ck.1, top.version);
    assert active == KeyRef(ck.0, ck.1, active.version);
    forall a': Uint32, n': Uint32 | Shape(t, ck.0, ck.1, a', n') ensures n' == top.version {
      ShapeUnique(t, ck.0, ck.1, a, n, a', n');
    }
  }

  /** A keyring that is missing or full has no next version. */
  lemma NothingNext(t: Tables, c: string, k: string)
    requires Inv(t)
    ensures (c, k) !in t.keyrings ==> forall version: Uint32 :: !IsNext(t, KeyRef(c, k, version))
    ensures forall active: Uint32 | Shape(t, c, k, active, MAX_UINT32) ::
              forall version: Uint32 :: !IsNext(t, KeyRef(c, k, version))
  {
    hide P.ValidRecord, ValidRows, DistinctTargets, References, Shape, Shaped;
    NoActive(t, c, k);
    forall active: Uint32, version: Uint32 | Shape(t, c, k, active, MAX_UINT32)
      ensures !IsNext(t, KeyRef(c, k, version))
    {
      if top: Uint32 :| Shape(t, c, k, top, top) && version == top + 1 {
        ShapeUnique(t, c, k, active, MAX_UINT32, top, top);
      }
    }
  }

  lemma NothingProposed(t: Tables, c: string, k: string)
    requires Inv(t) && ((c, k) !in t.keyrings || exists active: Uint32 :: Shape(t, c, k, active, MAX_UINT32))
    ensures ProposedRef(t, c, k).None?
  {
    hide P.ValidRecord, ValidRows, DistinctTargets, References, Shape, Shaped;
    NoActive(t, c, k);
    if active: Uint32 :| Shape(t, c, k, active, MAX_UINT32) {
      forall a: Uint32, n: Uint32 | Shape(t, c, k, a, n) ensures n == MAX_UINT32 {
        ShapeUnique(t, c, k, a, n, active, MAX_UINT32);
      }
    }
  }

  lemma ProposalIsNext(t: Tables, c: string, k: string, active: Uint32, top: Uint32)
    requires Shape(t, c, k, active, top) && top < MAX_UINT32
    ensures ProposedRef(t, c, k) == Some(KeyRef(c, k, top + 1))
  {
    hide Shape;
    forall a: Uint32, n: Uint32 | Shape(t, c, k, a, n) ensures n == top {
      ShapeUnique(t, c, k, a, n, active, top);
    }
  }

  lemma StartedIsThere(t: Tables, c: string, k: string)
    requires References(t)
    ensures HasStarted(t, c, k) ==> (c, k) in t.keyrings && forall version: Uint32 :: !IsNext(t, KeyRef(c, k, version))
  {
    if HasStarted(t, c, k) {
      var id :| id in t.operations && OnKeyring(t.operations[id], c, k) && t.operations[id].status.Started?;
      OperationKeyring(t, id);
    }
  }

  lemma NextAboveHighest(t: Tables, ref: KeyRef, active: Uint32)
    requires ref.version > 0 && Shape(t, ref.clusterId, ref.keyId, active, ref.version - 1)
    ensures ref !in t.keys
    ensures IsNext(t, ref) <==> !HasStarted(t, ref.clusterId, ref.keyId)
    ensures !HasStarted(t, ref.clusterId, ref.keyId) ==> active == ref.version - 1
  {
    assert ref == KeyRef(ref.clusterId, ref.keyId, ref.version);
  }

  lemma NextIsOne(t: Tables, ref: KeyRef, next: Uint32)
    requires IsNext(t, KeyRef(ref.clusterId, ref.keyId, next)) && ref.version != next
    ensures !IsNext(t, ref)
  {
    hide Shape;
    var c, k := ref.clusterId, ref.keyId;
    var n: Uint32 :| Shape(t, c, k, n, n) && next == n + 1;
    if top: Uint32 :| Shape(t, c, k, top, top) && ref.version == top + 1 {
      ShapeUnique(t, c, k, n, n, top, top);
    }
  }

  lemma StartStatements(t: Tables, id: string, key: P.ProtectedKey, op: Operation)
    requires Inv(t) && ValidStart(id, key) && IsNext(t, key.ref) && !HasStarted(t, key.ref.clusterId, key.ref.keyId)
    requires op == Opening(key, op.createdAt)
    ensures InsertKey(t, key.ref, RowOf(key)).Then(t => InsertOperation(t, id, op))
            == if id in t.operations then Err(ConstraintViolation) else Ok(StartedTables(t, id, key, op.createdAt))
  {
    hide P.ValidRecord, ValidRows, DistinctTargets, Shaped;
    var c, k := key.ref.clusterId, key.ref.keyId;
    var top: Uint32 :| Shape(t, c, k, top, top) && key.ref.version == top + 1;
    AboveTop(t, key.ref, top);
    NoActive(t, c, k);
    assert KeyRef(c, k, top) in t.keys;
    assert FromRef(op) == KeyRef(c, k, top) && ToRef(op) == key.ref;
  }

  lemma ActivateStatements(t: Tables, id: string, now: int)
    requires Inv(t) && Activates(t, id)
    ensures UpdateKeyStatus(t, FromRef(t.operations[id]), K.Active, K.DecryptOnly).Ok?
    ensures Fits(t, t.operations[id])
    ensures forall demoted | UpdateKeyStatus(t, FromRef(t.operations[id]), K.Active, K.DecryptOnly) == Ok(demoted) ::
              UpdateKeyStatus(demoted, ToRef(t.operations[id]), K.Pending, K.Active)
              == Ok(ActivatedTables(t, id, now).(operations := t.operations))
  {
    hide P.ValidRecord, ValidRows, DistinctTargets, References, Shaped, OperationsShape;
    ActivationFits(t, id);
    var op := t.operations[id];
    var demoted := UpdateKeyStatus(t, FromRef(op), K.Active, K.DecryptOnly).value;
    var rest := demoted.(keys := demoted.keys - {ToRef(op)});
    forall ref | ref in rest.keys && ref.clusterId == op.clusterId && ref.keyId == op.keyId
      ensures !rest.keys[ref].status.Active?
    {
      assert ref == KeyRef(op.clusterId, op.keyId, ref.version);
    }
  }
}
